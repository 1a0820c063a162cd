# BLE persistent-connection service and todo list — a Dafny model

This project models, in Dafny, the two sequential cores of a small Python web
service (`main.py` and `BASICS.py`):

* **The BLE connection core** (`main.py`): the registry of persistent
  connections (`BLEConnectionManager`, a map from device address to its
  managed connection), the scan listing (one entry per address, first
  occurrence wins), exact name matching after `strip().lower()`, the ranking
  of name matches by signal strength (RSSI), and the failover loop that tries
  the ranked candidates one after another until one connects.
* **The todo list** (`BASICS.py`): the priority enumeration and the field
  constraints of the request schemas, and the five handlers over the
  in-memory list — find by id, prefix listing, create with id = max + 1,
  partial update, delete of the first match.

The radio is an oracle. A scan is the sequence of devices it reported. Each
call into the radio is an input of the operation that makes it:
`ConnectProbe` gives the liveness answer before connecting, whether connect
raised, and the liveness answer after. `DisconnectProbe` does the same for a
disconnect. The failover loop receives `radio: nat -> ConnectProbe`, the
answers for its i-th attempt.

Files:

| file | contents |
|---|---|
| `common.dfy` | `Option`, `Result` |
| `names.dfy` | `strip()` and ASCII `lower()`, the name key `Normalize`, their lemmas |
| `discovery.dfy` | devices, the scan listing `Dedup`/`ScanListing`, `Matching`, `FindByName`, `CollectMatches` |
| `ranking.dfy` | the sort key, the stable ranking `Rank` and its order/permutation/stability lemmas |
| `registry.dfy` | the `ConnectionManager` class |
| `orchestrator.dfy` | the by-name connect `ConnectByName`, its failover loop `TryCandidates` and their specification `Failover` |
| `todos.dfy` | priorities, field validation, the `TodoStore` class |

Design choices:

* The registry and the todo list are classes whose methods change a `map`
  field and a `seq` field. The scan, matching and failover loops are methods
  with loop invariants. Each is proved equal to a specification function.
* `list.sort(key=...)` is the runtime's stable sort. It is represented by a
  stable insertion sort, `Ranking.Rank`, which is proved sorted by the key, a
  permutation, and stable.
* `connect_persistent` always queries liveness after the address is
  registered, so its reply depends only on the radio's answers. That is why
  the failover outcome is a pure function of the ranked list and the radio.
* Where a reader might expect otherwise, the code is followed:
  - The name lookup and the by-name connect match over the raw scan, which is
    not de-duplicated. Only the scan listing drops repeated addresses.
  - A failed candidate leaves one error entry, so on total failure the error
    list is never empty and the `errors or None` fallback never yields `None`
    (`Orchestrator.TotalFailure`).
  - `create_todo` on an empty list raises, because `max()` has nothing to take
    the maximum of. The model returns `EmptyStore` and leaves the list
    unchanged.
  - `get_todos` with a negative `first_n` follows Python's slice semantics:
    all but the last `|first_n|` items.

## Model

| member | source | states |
|---|---|---|
| `Registry.ConnectionManager.constructor` | main.py:87-89 | A new manager tracks no address. |
| `Registry.ConnectionManager.IsConnected` | main.py:91-103 | True exactly when the address is registered and the liveness query answers true. An untracked address or a query that raises gives false, never an error. |
| `Registry.ConnectionManager.GetConnections` | main.py:105-107 | Lists every tracked address exactly once and nothing else. |
| `Registry.NameOr` | main.py:130 | A present, non-empty name wins; an absent or empty one leaves the last name in place. |
| `Registry.ConnectEffect` | main.py:119-140 | A connect that raises leaves the address unregistered; any other reply leaves it registered, under `name` when it was absent and under `name or last_name` when it was present. No other address changes. |
| `Registry.ConnectionManager.ConnectPersistent` | main.py:109-142 | The new registry is `ConnectEffect` of the old one. An absent address is registered under `name`. A live device answers true without connecting, and its last name becomes `name` when that is non-empty. A connect that raises unregisters the address and re-raises. Otherwise the reply is the liveness after connecting, and the entry stays registered even when that is false. No other address changes. |
| `Registry.ConnectionManager.Disconnect` | main.py:144-166 | An untracked address gives false and changes nothing. A tracked one is always removed, even when the disconnect call raises, and the reply is the liveness captured before. |
| `Registry.ConnectionManager.DisconnectAll` | main.py:168-174 | Afterwards the registry is empty. |
| `Discovery.Report` | main.py:216-220 | The listing entry keeps the device's address and RSSI. An empty name is reported as absent; a non-empty one is kept. |
| `Discovery.ScanListing` | main.py:205-224 | The scan loop computes exactly `Dedup` of the reported devices. |
| `Discovery.DedupUnique` | main.py:210-214 | The listing never repeats an address and never lists an empty one. It lists exactly the non-empty addresses the scan reported. |
| `Discovery.DedupPrefix` | main.py:210-222 | Scan order is kept: the listing of a prefix of the scan is a prefix of the listing. |
| `Discovery.DedupFirstWins` | main.py:211-222 | The first device reporting an address is the one listed, right after everything listed before it. |
| `Discovery.DedupSkipsRepeat` | main.py:211-213 | A later device with an already-seen address, or with no address, adds nothing. |
| `Discovery.MatchingExact` | main.py:238-244 | A device is kept if and only if it is in the scan and its `(name or "").strip().lower()` equals `target.strip().lower()`. |
| `Discovery.MatchingCount` | main.py:241-244 | A matching device is kept as many times as the scan reported it, and a non-matching one not at all: repeats are not dropped. |
| `Discovery.MatchingPrefix` | main.py:241-244 | Matches keep scan order: the matches of a prefix of the scan are a prefix of all matches. |
| `Discovery.FindByName` | main.py:236-249 | With no match the result is the distinct not-found outcome. Otherwise it is the addresses of exactly the matching devices, in scan order. |
| `Discovery.CollectMatches` | main.py:276-285 | The by-name connect collects exactly the matching devices, in scan order. |
| `Names.Normalize` | main.py:238 | The key is no longer than the name, holds no upper-case ASCII letter, and is empty exactly when the name is all whitespace. |
| `Names.TrimLeftShape` | main.py:242 | `lstrip` keeps a suffix that does not start with whitespace, and everything it drops is whitespace. |
| `Names.TrimRightShape` | main.py:242 | `rstrip` keeps a prefix that does not end with whitespace, and everything it drops is whitespace. |
| `Names.StripShape` | main.py:238 | A stripped name neither starts nor ends with whitespace. It is empty exactly when the name was all whitespace. |
| `Names.StripLowerCommute` | main.py:238 | Stripping and lower-casing commute. |
| `Names.NormalizeIdempotent` | main.py:242-243 | Normalising a normalised name changes nothing. |
| `Names.NormalizeIgnoresPadding` | main.py:242-243 | Whitespace added around a name does not change whether it matches. |
| `Names.CaseSpellings` | main.py:280-281 | "Sensor" and "SENSOR" normalise to "sensor". |
| `Names.PaddedSpelling` | main.py:280-281 | " sensor " normalises to "sensor". |
| `Names.SensorSpellings` | main.py:280-281 | "Sensor", " sensor " and "SENSOR" all normalise to "sensor". |
| `Ranking.RssiKey` | main.py:288-290 | A key is marked unknown exactly when the RSSI is absent. All unknown strengths share one key, so their scan order decides; a known strength keys on its negation. |
| `Ranking.Rank` | main.py:292 | The ranking has as many devices as the matches. That it is sorted, a permutation and stable is `RankSorted` and `RankStable`. |
| `Ranking.RankedBefore` | main.py:288-290 | The sort key puts a known RSSI before an unknown one, and a stronger RSSI before a weaker one. |
| `Ranking.RankSorted` | main.py:292 | The ranked list is ordered by the key and is a permutation of the matches. |
| `Ranking.RankStable` | main.py:292 | Devices with equal keys keep their scan order: the sort is stable. |
| `Ranking.RankOrder` | main.py:287-292 | Every device with a known RSSI comes before every device without one. Known RSSIs are in descending order, and nothing is added or lost. |
| `Ranking.RankExample` | main.py:287-292 | RSSIs -40, -70, unknown, -55 are tried in the order -40, -55, -70, unknown. |
| `Orchestrator.FirstSuccess` | main.py:297-313 | Every attempt before the result fails, and the attempt at the result succeeds. |
| `Orchestrator.ErrorEntry` | main.py:314-317 | A successful attempt leaves no entry. A failed one leaves exactly one, for its own address, carrying the raised error when connect raised. |
| `Orchestrator.OneErrorPerFailure` | main.py:314-317 | Each failed candidate leaves exactly one error entry, for its own address. The entry says "not live" when connect returned false, and carries the raised error when connect raised. |
| `Orchestrator.FirstSuccessWins` | main.py:297-313 | The first candidate whose connect returns true is the result, and no later candidate is tried. |
| `Orchestrator.TotalFailure` | main.py:319-324 | When none connects, every ranked candidate was attempted, in ranked order. The error list is absent exactly when it is empty, and otherwise has one entry per candidate. |
| `Orchestrator.RegistryFrame` | main.py:296-309 | The failover changes the registry only at the addresses of the candidates it tried. |
| `Orchestrator.RaisedIsDropped` | main.py:136-140 | A candidate whose connect raised is absent from the registry afterwards, unless a later candidate with the same address was tried. |
| `Orchestrator.ReturnedIsKept` | main.py:119-142 | A candidate whose connect returned stays registered afterwards, under the requested name when that is non-empty, unless a later candidate with the same address was tried. |
| `Orchestrator.TryCandidates` | main.py:294-324 | The loop's outcome is `Failover` over the ranked list: the first candidate that connects, or every attempted address with the error list. The new registry is `RegistryAfter`: one `ConnectEffect` per candidate tried, in ranked order, up to and including the first success. Entries outside the tried candidates are unchanged, and a connected address is registered. |
| `Orchestrator.ConnectByName` | main.py:275-324 | No match gives the not-found outcome and leaves the registry unchanged. Otherwise the outcome is `Failover` over the matches ranked by RSSI, and the new registry is `RegistryAfter` over the candidates tried. |
| `Todos.PriorityOf` | BASICS.py:9-12 | Exactly the integers 1..3 are priorities, each as the member with that value. |
| `Todos.PriorityRoundTrip` | BASICS.py:9-12 | Validating a priority's own value gives it back. |
| `Todos.ParseCreate` | BASICS.py:14-17 | A create request is accepted exactly when its name has 3 to 512 characters and its priority, if given, is 1..3. The priority defaults to LOW. |
| `Todos.ParseUpdate` | BASICS.py:26-29 | An update is accepted exactly when its name, if given, has 3 to 512 characters and its priority, if given, is 1..3. Every field may be absent. |
| `Todos.Apply` | BASICS.py:95-100 | An update never changes the id, keeps a valid name valid, and changes nothing when every field is absent. |
| `Todos.ApplyIdempotent` | BASICS.py:95-100 | Applying the same update twice is the same as applying it once. |
| `Todos.FirstWithId` | BASICS.py:63-64 | The position found is the first todo with the id, or the end of the list when no todo has it. |
| `Todos.MaxId` | BASICS.py:78 | The value is an id in the list and is at least every id. |
| `Todos.AppendFreshId` | BASICS.py:78-87 | Appending a todo with id max + 1 keeps ids unique, and the new id exceeds every existing one. |
| `Todos.RemoveAt` | BASICS.py:106-108 | Popping an index shortens the list by one and keeps the rest in order. With unique ids, no remaining todo has the removed id. |
| `Todos.TodoStore.constructor` | BASICS.py:38-44 | The list starts with the five seed todos, with unique ids and valid names. |
| `Todos.TodoStore.GetTodo` | BASICS.py:61-66 | Some todo has the id if and only if the result is a todo. That todo is the first match; otherwise the result is not-found. |
| `Todos.TodoStore.GetTodos` | BASICS.py:68-73 | The result is always a prefix of the list. With `first_n` absent or 0 it is the whole list. A positive `first_n` gives min(`first_n`, length) items; a negative one gives max(length + `first_n`, 0). |
| `Todos.TodoStore.CreateTodo` | BASICS.py:76-89 | On a non-empty list, appends a todo with id max + 1 and the request's fields. Earlier todos are unchanged and ids stay unique. On an empty list it fails with nothing changed. |
| `Todos.TodoStore.UpdateTodo` | BASICS.py:91-102 | Only the first todo with the id changes, and only in the fields the update gives. Length, ids and the other todos are unchanged. An unknown id gives not-found and no change. |
| `Todos.TodoStore.DeleteTodo` | BASICS.py:104-110 | Removes and returns the first todo with the id. The length drops by one, the rest keep their order, and no todo with that id remains. An unknown id gives not-found and no change. |

## Left out

- Concurrency: the registry-wide lock and the per-device locks are not modelled. Each registry operation runs atomically, so the "one in-flight connect per address" guarantee is outside the model.
- The radio stack (scanner, client connect/disconnect/liveness): it is foreign I/O, replaced by the scan sequence and the probe inputs. Timeouts are passed through to it untouched and are dropped.
- The callable-or-property liveness shim: a library-version workaround, collapsed into one liveness answer.
- `Registry.ConnectionManager.ConnectPersistent`: the model takes the liveness answers as inputs. It does not force a freshly created client to report not-live before its first connect.
- `Registry.ConnectionManager.GetConnections`: the order of the list (dictionary insertion order) is not modelled, only its contents.
- `Todos.TodoStore.GetTodo`: returns a copy of the record. In the service the returned object is the one in the list, and a later update shows through it; identity and aliasing are not modelled.
- The HTTP layer: routing, query bounds, response models, the thin endpoints `disconnect_device` and `connection_status` (one registry call each), `list_connections` (one `get_connections` followed by one `is_connected` per address), the constant greeting of `index`, and the message strings.
- Error messages: `type(e).__name__` formatting is replaced by a `RadioError` value and the error datatypes.
- The shutdown hook and the module-level `manager` and `all_todos` instances: the model uses explicit objects.
- Unicode: `lower()` folds ASCII letters only. `strip()` uses Python's whitespace set.
- The sample decoder and the streaming aggregation loop: neither is present in `main.py` or `BASICS.py`.
