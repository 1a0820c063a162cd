/**
 * The in-memory todo list: a list of todo records that the handlers search
 * linearly, append to, update field by field and pop from. Field validation
 * is what the record schemas enforce before a handler runs.
 */
module Todos {
  import opened Common

  /** The priority enumeration; its members are the integers 1, 2 and 3. */
  datatype Priority = Low | Medium | High {
    function Value(): (n: int)
      ensures 1 <= n <= 3
    {
      match this
      case Low => 1
      case Medium => 2
      case High => 3
    }
  }

  /** The priority a record gets when none is given. */
  const DefaultPriority: Priority := Low

  /** Validation of an integer as a priority: exactly 1, 2 and 3 are accepted,
      each as the member with that value. */
  function PriorityOf(n: int): (p: Option<Priority>)
    ensures p.Some? <==> 1 <= n <= 3
    ensures p.Some? ==> p.value.Value() == n
  {
    if n == 1 then Some(Low) else if n == 2 then Some(Medium) else if n == 3 then Some(High) else None
  }

  /** Validating a priority's own value gives it back. */
  lemma PriorityRoundTrip(p: Priority)
    ensures PriorityOf(p.Value()) == Some(p)
  {
    match p
    case Low =>
    case Medium =>
    case High =>
  }

  /** The length bounds on a todo name. */
  predicate ValidName(s: string) {
    3 <= |s| <= 512
  }

  datatype TodoCreate = TodoCreate(name: string, description: string, priority: Priority)

  /** A partial update: absent fields are left as they are. */
  datatype TodoUpdate = TodoUpdate(name: Option<string>, description: Option<string>, priority: Option<Priority>)

  datatype Todo = Todo(id: int, name: string, description: string, priority: Priority)

  /** Why a request body is rejected before the handler runs. */
  datatype FieldError = NameLength | PriorityRange

  /** Validation of a create request: the name must have 3 to 512 characters;
      the priority must be 1..3 and is LOW when omitted. */
  function ParseCreate(name: string, description: string, priority: Option<int>)
    : (r: Result<TodoCreate, FieldError>)
    ensures r.Ok? <==> ValidName(name) && (priority.None? || 1 <= priority.value <= 3)
    ensures r.Ok? ==>
      r.value.name == name && r.value.description == description
      && r.value.priority.Value() == priority.GetOr(DefaultPriority.Value())
  {
    if !ValidName(name) then Err(NameLength)
    else if priority.None? then Ok(TodoCreate(name, description, DefaultPriority))
    else match PriorityOf(priority.value)
      case None => Err(PriorityRange)
      case Some(p) => Ok(TodoCreate(name, description, p))
  }

  predicate UpdateValid(u: TodoUpdate) {
    u.name.None? || ValidName(u.name.value)
  }

  /** Validation of an update request: a name, when given, must have 3 to 512
      characters; a priority, when given, must be 1..3; every field may be
      absent. */
  function ParseUpdate(name: Option<string>, description: Option<string>, priority: Option<int>)
    : (r: Result<TodoUpdate, FieldError>)
    ensures r.Ok? <==> (name.None? || ValidName(name.value)) && (priority.None? || 1 <= priority.value <= 3)
    ensures r.Ok? ==>
      UpdateValid(r.value) && r.value.name == name && r.value.description == description
      && (r.value.priority.Some? <==> priority.Some?)
      && (priority.Some? ==> r.value.priority.value.Value() == priority.value)
  {
    if name.Some? && !ValidName(name.value) then Err(NameLength)
    else if priority.None? then Ok(TodoUpdate(name, description, None))
    else match PriorityOf(priority.value)
      case None => Err(PriorityRange)
      case Some(p) => Ok(TodoUpdate(name, description, Some(p)))
  }

  /** The todo with every field present in `u` overwritten. The id is never
      touched, and a valid todo stays valid. */
  function Apply(t: Todo, u: TodoUpdate): (r: Todo)
    ensures r.id == t.id
    ensures ValidName(t.name) && UpdateValid(u) ==> ValidName(r.name)
    ensures u == TodoUpdate(None, None, None) ==> r == t
  {
    Todo(t.id, u.name.GetOr(t.name), u.description.GetOr(t.description), u.priority.GetOr(t.priority))
  }

  /** Applying the same update twice is applying it once. */
  lemma ApplyIdempotent(t: Todo, u: TodoUpdate)
    ensures Apply(Apply(t, u), u) == Apply(t, u)
  {}

  predicate UniqueIds(s: seq<Todo>) {
    forall i, j :: 0 <= i < j < |s| ==> s[i].id != s[j].id
  }

  /** Position of the first todo with id `id`, or `|s|` when there is none. */
  function FirstWithId(s: seq<Todo>, id: int): (k: nat)
    ensures k <= |s|
    ensures forall j :: 0 <= j < k ==> s[j].id != id
    ensures k < |s| ==> s[k].id == id
  {
    if s == [] then 0 else if s[0].id == id then 0 else 1 + FirstWithId(s[1..], id)
  }

  /** The largest id, as `max(...)` over a non-empty list computes it. */
  function MaxId(s: seq<Todo>): (m: int)
    requires s != []
    ensures forall i :: 0 <= i < |s| ==> s[i].id <= m
    ensures exists i :: 0 <= i < |s| && s[i].id == m
  {
    if |s| == 1 then s[0].id
    else
      var rest := MaxId(s[1..]);
      assert forall i :: 1 <= i < |s| ==> s[i] == s[1..][i - 1];
      if s[0].id >= rest then s[0].id else rest
  }

  /** Appending a todo whose id is one more than the largest keeps ids unique. */
  lemma AppendFreshId(s: seq<Todo>, t: Todo)
    requires s != [] && UniqueIds(s) && t.id == MaxId(s) + 1
    ensures UniqueIds(s + [t])
    ensures forall i :: 0 <= i < |s| ==> s[i].id < t.id
  {
    var s' := s + [t];
    forall i, j | 0 <= i < j < |s'| ensures s'[i].id != s'[j].id {
      if j < |s| {
        assert s'[i] == s[i] && s'[j] == s[j];
      } else {
        assert s'[i] == s[i];
      }
    }
  }

  /** Removing the first todo with an id keeps the others in order, keeps ids
      unique, and — ids being unique — leaves no todo with that id. */
  lemma RemoveAt(s: seq<Todo>, k: nat)
    requires k < |s| && UniqueIds(s)
    ensures var s' := s[..k] + s[k + 1..];
      |s'| == |s| - 1 && UniqueIds(s')
      && (forall i :: 0 <= i < |s'| ==> s'[i].id != s[k].id)
      && (forall i :: 0 <= i < |s'| ==> s'[i] == (if i < k then s[i] else s[i + 1]))
  {
    var s' := s[..k] + s[k + 1..];
    assert forall i :: 0 <= i < |s'| ==> s'[i] == (if i < k then s[i] else s[i + 1]);
  }

  /** Why a handler fails: no todo has the id (404), or there is no id to take
      the maximum of (`max()` of an empty sequence raises). */
  datatype StoreError = NotFound | EmptyStore

  /** The five todos the list starts with. */
  function Seed(): seq<Todo> {
    [ Todo(1, "Buy groceries", "Milk, Bread, Eggs", Medium),
      Todo(2, "Read a book", "Finish reading '1984' by George Orwell", Low),
      Todo(3, "Workout", "Go for a 30-minute run", High),
      Todo(4, "Call Mom", "Check in with Mom and see how she's doing", Medium),
      Todo(5, "Clean House", "Vacuum and dust all rooms", Low) ]
  }

  class TodoStore {
    var todos: seq<Todo>

    /** Ids are unique and every name satisfies the schema's length bounds. */
    ghost predicate Valid()
      reads this
    {
      UniqueIds(todos) && forall i :: 0 <= i < |todos| ==> ValidName(todos[i].name)
    }

    constructor ()
      ensures Valid() && todos == Seed()
    {
      todos := Seed();
    }

    /** The first todo with id `id`, or not-found when no todo has it. */
    method GetTodo(id: int) returns (r: Result<Todo, StoreError>)
      ensures r.Ok? <==> exists i :: 0 <= i < |todos| && todos[i].id == id
      ensures r.Ok? ==> r.value == todos[FirstWithId(todos, id)]
      ensures r.Err? ==> r.error == NotFound
    {
      for i := 0 to |todos|
        invariant forall j :: 0 <= j < i ==> todos[j].id != id
      {
        if todos[i].id == id {
          return Ok(todos[i]);
        }
      }
      return Err(NotFound);
    }

    /** `all_todos[:first_n]` when `first_n` is given and non-zero, with
        Python's slice bounds (a negative bound counts from the end); the whole
        list otherwise. */
    function GetTodos(firstN: Option<int>): (r: seq<Todo>)
      reads this
      ensures r <= todos
      ensures firstN.None? || firstN.value == 0 ==> r == todos
      ensures firstN.Some? && firstN.value > 0 ==>
        |r| == (if firstN.value < |todos| then firstN.value else |todos|)
      ensures firstN.Some? && firstN.value < 0 ==>
        |r| == (if |todos| + firstN.value > 0 then |todos| + firstN.value else 0)
    {
      if firstN.None? || firstN.value == 0 then todos
      else if firstN.value > 0 then
        todos[..if firstN.value < |todos| then firstN.value else |todos|]
      else
        todos[..if |todos| + firstN.value > 0 then |todos| + firstN.value else 0]
    }

    /** Appends a new todo whose id is one more than the largest id. On an
        empty list there is no largest id and nothing changes. */
    method CreateTodo(c: TodoCreate) returns (r: Result<Todo, StoreError>)
      requires Valid() && ValidName(c.name)
      modifies this
      ensures Valid()
      ensures old(todos) == [] ==> r == Err(EmptyStore) && todos == old(todos)
      ensures old(todos) != [] ==>
        r.Ok? && todos == old(todos) + [r.value]
        && r.value == Todo(MaxId(old(todos)) + 1, c.name, c.description, c.priority)
        && forall i :: 0 <= i < |old(todos)| ==> old(todos)[i].id < r.value.id
    {
      if todos == [] {
        return Err(EmptyStore);
      }
      var t := Todo(MaxId(todos) + 1, c.name, c.description, c.priority);
      AppendFreshId(todos, t);
      todos := todos + [t];
      return Ok(t);
    }

    /** Overwrites the present fields of `u` on the first todo with id `id`;
        nothing else changes. An unknown id is not-found and changes nothing. */
    method UpdateTodo(id: int, u: TodoUpdate) returns (r: Result<Todo, StoreError>)
      requires Valid() && UpdateValid(u)
      modifies this
      ensures Valid()
      ensures var k := FirstWithId(old(todos), id);
        (k == |old(todos)| ==> r == Err(NotFound) && todos == old(todos))
        && (k < |old(todos)| ==>
              todos == old(todos)[k := Apply(old(todos)[k], u)] && r == Ok(todos[k]))
    {
      for i := 0 to |todos|
        invariant forall j :: 0 <= j < i ==> todos[j].id != id
      {
        if todos[i].id == id {
          todos := todos[i := Apply(todos[i], u)];
          return Ok(todos[i]);
        }
      }
      return Err(NotFound);
    }

    /** Removes and returns the first todo with id `id`; the others keep their
        order. An unknown id is not-found and changes nothing. */
    method DeleteTodo(id: int) returns (r: Result<Todo, StoreError>)
      requires Valid()
      modifies this
      ensures Valid()
      ensures var k := FirstWithId(old(todos), id);
        (k == |old(todos)| ==> r == Err(NotFound) && todos == old(todos))
        && (k < |old(todos)| ==>
              r == Ok(old(todos)[k]) && todos == old(todos)[..k] + old(todos)[k + 1..]
              && |todos| == |old(todos)| - 1)
      ensures r.Ok? ==> forall i :: 0 <= i < |todos| ==> todos[i].id != id
    {
      for i := 0 to |todos|
        invariant forall j :: 0 <= j < i ==> todos[j].id != id
      {
        if todos[i].id == id {
          var deleted := todos[i];
          RemoveAt(todos, i);
          todos := todos[..i] + todos[i + 1..];
          return Ok(deleted);
        }
      }
      return Err(NotFound);
    }
  }
}
