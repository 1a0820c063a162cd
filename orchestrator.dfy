/**
 * Persistent connection by name: scan, keep the exact name matches, rank
 * them by signal strength, and try them in order through the registry until
 * one connects. Every candidate that fails leaves one error entry behind.
 * The radio's answers to the i-th connection attempt are `radio(i)`.
 */
module Orchestrator {
  import opened Common
  import opened Discovery
  import opened Ranking
  import opened Registry

  /** Why one candidate was not connected: connect returned but the device
      was not live afterwards, or connect raised. */
  datatype AttemptError =
    | NotLive(address: string)
    | ConnectRaised(address: string, error: RadioError)

  /** The three outcomes the caller can tell apart. */
  datatype ConnectOutcome =
    | Connected(name: string, address: string, rssi: Option<int>)
    | NoMatch
    | NoneConnected(name: string, attempted: seq<string>, errors: Option<seq<AttemptError>>)

  predicate Succeeds(p: ConnectProbe) {
    ConnectReply(p) == Answered(true)
  }

  /** The first of the first `n` attempts that succeeds, or `n` if none does. */
  function FirstSuccess(n: nat, radio: nat -> ConnectProbe): (k: nat)
    ensures k <= n
    ensures forall j :: 0 <= j < k ==> !Succeeds(radio(j))
    ensures k < n ==> Succeeds(radio(k))
  {
    if n == 0 then 0
    else
      var k := FirstSuccess(n - 1, radio);
      if k < n - 1 then k else if Succeeds(radio(n - 1)) then n - 1 else n
  }

  /** The error entry a failed attempt leaves (none for a success). */
  function ErrorEntry(address: string, reply: Reply): (r: seq<AttemptError>)
    ensures reply == Answered(true) <==> r == []
    ensures r != [] ==> |r| == 1 && r[0].address == address
    ensures reply.Failed? ==> r == [ConnectRaised(address, reply.error)]
  {
    match reply
    case Answered(ok) => if ok then [] else [NotLive(address)]
    case Failed(e) => [ConnectRaised(address, e)]
  }

  /** The error list after the first `n` attempts. */
  function ErrorsOf(ranked: seq<Device>, radio: nat -> ConnectProbe, n: nat): seq<AttemptError>
    requires n <= |ranked|
  {
    if n == 0 then []
    else ErrorsOf(ranked, radio, n - 1) + ErrorEntry(ranked[n - 1].address, ConnectReply(radio(n - 1)))
  }

  /** How many candidates are tried: up to and including the first success. */
  function AttemptCount(ranked: seq<Device>, radio: nat -> ConnectProbe): nat {
    var k := FirstSuccess(|ranked|, radio);
    if k < |ranked| then k + 1 else |ranked|
  }

  /** The addresses of the first `n` candidates. */
  function Tried(ranked: seq<Device>, n: nat): set<string>
    requires n <= |ranked|
  {
    set i | 0 <= i < n :: ranked[i].address
  }

  /** The outcome of the failover over a ranked candidate list. */
  function Failover(name: string, ranked: seq<Device>, radio: nat -> ConnectProbe): ConnectOutcome {
    var k := FirstSuccess(|ranked|, radio);
    if k < |ranked| then Connected(name, ranked[k].address, ranked[k].rssi)
    else
      var errors := ErrorsOf(ranked, radio, |ranked|);
      NoneConnected(name, AddressesOf(ranked), if errors == [] then None else Some(errors))
  }

  /** Each failed candidate leaves exactly one error entry, for its own
      address: the error connect raised, or "not live" when connect returned
      without a live link. */
  lemma {:induction false} OneErrorPerFailure(ranked: seq<Device>, radio: nat -> ConnectProbe, n: nat)
    requires n <= |ranked|
    requires forall j :: 0 <= j < n ==> !Succeeds(radio(j))
    ensures var errors := ErrorsOf(ranked, radio, n);
      |errors| == n
      && forall i :: 0 <= i < n ==>
           errors[i].address == ranked[i].address
           && (errors[i].NotLive? <==> ConnectReply(radio(i)) == Answered(false))
           && (ConnectReply(radio(i)).Failed? ==>
                 errors[i] == ConnectRaised(ranked[i].address, ConnectReply(radio(i)).error))
  {
    if n > 0 {
      OneErrorPerFailure(ranked, radio, n - 1);
      assert !Succeeds(radio(n - 1));
    }
  }

  /** The first candidate that connects is the result, and nothing after it
      is tried. */
  lemma FirstSuccessWins(name: string, ranked: seq<Device>, radio: nat -> ConnectProbe, k: nat)
    requires k < |ranked| && Succeeds(radio(k))
    requires forall j :: 0 <= j < k ==> !Succeeds(radio(j))
    ensures Failover(name, ranked, radio) == Connected(name, ranked[k].address, ranked[k].rssi)
    ensures AttemptCount(ranked, radio) == k + 1
  {
    var f := FirstSuccess(|ranked|, radio);
    assert f < |ranked| ==> Succeeds(radio(f));
  }

  /** When no candidate connects, every candidate was tried in ranked order,
      and the error list is present exactly when it is non-empty: one entry
      per candidate. */
  lemma TotalFailure(name: string, ranked: seq<Device>, radio: nat -> ConnectProbe)
    requires Failover(name, ranked, radio).NoneConnected?
    ensures forall j :: 0 <= j < |ranked| ==> !Succeeds(radio(j))
    ensures var out := Failover(name, ranked, radio);
      out.attempted == AddressesOf(ranked)
      && AttemptCount(ranked, radio) == |ranked|
      && (out.errors.None? <==> ranked == [])
      && (out.errors.Some? ==> |out.errors.value| == |ranked|)
  {
    OneErrorPerFailure(ranked, radio, |ranked|);
  }

  /** Two registries that agree outside `small` agree outside any larger set. */
  lemma AgreeOutside(m1: map<string, ManagedConnection>, m2: map<string, ManagedConnection>,
                     small: set<string>, large: set<string>)
    requires m1 - small == m2 - small && small <= large
    ensures m1 - large == m2 - large
  {
    forall k | k !in large ensures (k in m1 <==> k in m2) && (k in m1 ==> m1[k] == m2[k]) {
      assert k in m1 - small <==> k in m1;
      assert k in m2 - small <==> k in m2;
    }
  }

  /** One attempt on candidate `i` changes the registry at most at that
      candidate's address, so the registry still agrees with the one before
      the loop outside the candidates tried so far. */
  lemma AttemptStaysInside(start: map<string, ManagedConnection>, before: map<string, ManagedConnection>,
                           after: map<string, ManagedConnection>, ranked: seq<Device>, i: nat)
    requires i < |ranked|
    requires before - Tried(ranked, i) == start - Tried(ranked, i)
    requires after - {ranked[i].address} == before - {ranked[i].address}
    ensures after - Tried(ranked, i + 1) == start - Tried(ranked, i + 1)
  {
    assert Tried(ranked, i + 1) == Tried(ranked, i) + {ranked[i].address};
    AgreeOutside(after, before, {ranked[i].address}, Tried(ranked, i + 1));
    AgreeOutside(before, start, Tried(ranked, i), Tried(ranked, i + 1));
  }

  /** The registry after the first `n` attempts of the failover: each
      attempt is one `connect_persistent` under the requested name. */
  function RegistryAfter(m: map<string, ManagedConnection>, name: string, ranked: seq<Device>,
                         radio: nat -> ConnectProbe, n: nat): map<string, ManagedConnection>
    requires n <= |ranked|
  {
    if n == 0 then m
    else ConnectEffect(RegistryAfter(m, name, ranked, radio, n - 1), ranked[n - 1].address, Some(name), radio(n - 1))
  }

  /** The failover touches the registry only at the addresses it tried. */
  lemma {:induction false} RegistryFrame(m: map<string, ManagedConnection>, name: string,
                                         ranked: seq<Device>, radio: nat -> ConnectProbe, n: nat)
    requires n <= |ranked|
    ensures RegistryAfter(m, name, ranked, radio, n) - Tried(ranked, n) == m - Tried(ranked, n)
  {
    if n > 0 {
      RegistryFrame(m, name, ranked, radio, n - 1);
      AttemptStaysInside(m, RegistryAfter(m, name, ranked, radio, n - 1),
                         RegistryAfter(m, name, ranked, radio, n), ranked, n - 1);
    }
  }

  /** A candidate whose connect raised is left unregistered, unless a later
      candidate with the same address was tried after it. */
  lemma {:induction false} RaisedIsDropped(m: map<string, ManagedConnection>, name: string,
                                           ranked: seq<Device>, radio: nat -> ConnectProbe, i: nat, n: nat)
    requires i < n <= |ranked|
    requires ConnectReply(radio(i)).Failed?
    requires forall j :: i < j < n ==> ranked[j].address != ranked[i].address
    ensures ranked[i].address !in RegistryAfter(m, name, ranked, radio, n)
  {
    if n > i + 1 {
      RaisedIsDropped(m, name, ranked, radio, i, n - 1);
      var before := RegistryAfter(m, name, ranked, radio, n - 1);
      var after := RegistryAfter(m, name, ranked, radio, n);
      assert ranked[i].address !in before - {ranked[n - 1].address};
      assert ranked[i].address !in after - {ranked[n - 1].address};
    }
  }

  /** A candidate whose connect returned stays registered, under the
      requested name when that is non-empty, unless a later candidate with
      the same address was tried after it. */
  lemma {:induction false} ReturnedIsKept(m: map<string, ManagedConnection>, name: string,
                                          ranked: seq<Device>, radio: nat -> ConnectProbe, i: nat, n: nat)
    requires i < n <= |ranked|
    requires ConnectReply(radio(i)).Answered?
    requires forall j :: i < j < n ==> ranked[j].address != ranked[i].address
    ensures var r := RegistryAfter(m, name, ranked, radio, n);
      ranked[i].address in r && (name != "" ==> r[ranked[i].address].lastName == Some(name))
  {
    var a := ranked[i].address;
    if n > i + 1 {
      ReturnedIsKept(m, name, ranked, radio, i, n - 1);
      var before := RegistryAfter(m, name, ranked, radio, n - 1);
      var after := RegistryAfter(m, name, ranked, radio, n);
      assert a in before - {ranked[n - 1].address};
      assert (after - {ranked[n - 1].address})[a] == after[a];
    }
  }

  /** The failover loop: tries the ranked candidates in order through the
      registry, recording each attempt and each failure, and stops at the
      first candidate that connects. The registry changes only at the
      addresses of the candidates actually tried. */
  method TryCandidates(mgr: ConnectionManager, name: string, ranked: seq<Device>,
                       radio: nat -> ConnectProbe) returns (out: ConnectOutcome)
    modifies mgr
    ensures out == Failover(name, ranked, radio)
    ensures mgr.connections == RegistryAfter(old(mgr.connections), name, ranked, radio, AttemptCount(ranked, radio))
    ensures var tried := Tried(ranked, AttemptCount(ranked, radio));
      mgr.connections - tried == old(mgr.connections) - tried
    ensures out.Connected? ==> out.address in mgr.connections
  {
    var attempted: seq<string> := [];
    var errors: seq<AttemptError> := [];
    for i := 0 to |ranked|
      invariant attempted == AddressesOf(ranked[..i])
      invariant errors == ErrorsOf(ranked, radio, i)
      invariant forall j :: 0 <= j < i ==> !Succeeds(radio(j))
      invariant mgr.connections == RegistryAfter(old(mgr.connections), name, ranked, radio, i)
    {
      var dev := ranked[i];
      attempted := attempted + [dev.address];
      var reply := mgr.ConnectPersistent(dev.address, Some(name), radio(i));
      if reply == Answered(true) {
        FirstSuccessWins(name, ranked, radio, i);
        RegistryFrame(old(mgr.connections), name, ranked, radio, i + 1);
        return Connected(name, dev.address, dev.rssi);
      }
      errors := errors + ErrorEntry(dev.address, reply);
    }
    assert ranked[..|ranked|] == ranked;
    RegistryFrame(old(mgr.connections), name, ranked, radio, |ranked|);
    return NoneConnected(name, attempted, if errors == [] then None else Some(errors));
  }

  /** Persistent connection by name: keep the exact name matches of the scan;
      none is the not-found outcome, with the registry untouched; otherwise
      rank them and run the failover loop over them. */
  method ConnectByName(mgr: ConnectionManager, devices: seq<Device>, name: string,
                       radio: nat -> ConnectProbe) returns (out: ConnectOutcome)
    modifies mgr
    ensures Matching(devices, name) == [] ==>
      out == NoMatch && mgr.connections == old(mgr.connections)
    ensures var ranked := Rank(Matching(devices, name));
      Matching(devices, name) != [] ==>
        out == Failover(name, ranked, radio)
        && mgr.connections == RegistryAfter(old(mgr.connections), name, ranked, radio, AttemptCount(ranked, radio))
        && var tried := Tried(ranked, AttemptCount(ranked, radio));
           mgr.connections - tried == old(mgr.connections) - tried
    ensures out.Connected? ==> out.address in mgr.connections
  {
    var matches := CollectMatches(devices, name);
    if matches == [] {
      return NoMatch;
    }
    var ranked := Rank(matches);
    out := TryCandidates(mgr, name, ranked, radio);
  }
}
