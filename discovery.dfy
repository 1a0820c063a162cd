/**
 * Discovery: the listing a scan returns (one entry per address, first
 * occurrence wins) and exact name matching over a scan's devices.
 * The radio's scan itself is an input: the sequence of devices it reported,
 * in the order it reported them.
 */
module Discovery {
  import opened Common
  import opened Names

  /** One device as the scanner reports it. The empty address stands for a
      device reported without a usable (truthy) address. */
  datatype Device = Device(name: Option<string>, address: string, rssi: Option<int>)

  /** One entry of the scan listing. */
  datatype DeviceOut = DeviceOut(name: Option<string>, address: string, rssi: Option<int>)

  /** The listing entry for a device: an empty name is reported as absent
      (`d.name or None`). */
  function Report(d: Device): (o: DeviceOut)
    ensures o.address == d.address && o.rssi == d.rssi
    ensures o.name.Some? ==> o.name == d.name && o.name.value != ""
    ensures d.name.Some? && d.name.value != "" ==> o.name == d.name
  {
    DeviceOut(if d.name.Some? && d.name.value != "" then d.name else None, d.address, d.rssi)
  }

  /** The addresses already present in a listing. */
  function Listed(rs: seq<DeviceOut>): set<string> {
    set o | o in rs :: o.address
  }

  /** The non-empty addresses a scan reported. */
  function Reported(ds: seq<Device>): set<string> {
    set d | d in ds && d.address != "" :: d.address
  }

  /** The listing a scan produces: devices without an address are dropped and
      each address is listed once, at its first occurrence. */
  function Dedup(ds: seq<Device>): seq<DeviceOut>
    decreases |ds|
  {
    if ds == [] then []
    else
      var prev := Dedup(ds[..|ds| - 1]);
      var d := ds[|ds| - 1];
      if d.address == "" || d.address in Listed(prev) then prev else prev + [Report(d)]
  }

  /** `ds[j]` is the first device of the scan that reports its address. */
  predicate IsFirst(ds: seq<Device>, j: int)
    requires 0 <= j < |ds|
  {
    ds[j].address != "" && forall k :: 0 <= k < j ==> ds[k].address != ds[j].address
  }

  lemma ListedAppend(rs: seq<DeviceOut>, o: DeviceOut)
    ensures Listed(rs + [o]) == Listed(rs) + {o.address}
  {
    assert forall x :: x in rs + [o] <==> x in rs || x == o;
  }

  lemma ReportedAppend(ds: seq<Device>, d: Device)
    ensures Reported(ds + [d]) == Reported(ds) + (if d.address == "" then {} else {d.address})
  {
    assert forall x :: x in ds + [d] <==> x in ds || x == d;
  }

  /** The listing never repeats an address, never lists an empty one, and
      lists exactly the non-empty addresses the scan reported. */
  lemma {:induction false} DedupUnique(ds: seq<Device>)
    ensures var r := Dedup(ds);
      |r| <= |ds|
      && (forall i, j :: 0 <= i < j < |r| ==> r[i].address != r[j].address)
      && (forall i :: 0 <= i < |r| ==> r[i].address != "")
      && Listed(r) == Reported(ds)
    decreases |ds|
  {
    if ds != [] {
      var front, d := ds[..|ds| - 1], ds[|ds| - 1];
      DedupUnique(front);
      assert ds == front + [d];
      ReportedAppend(front, d);
      var prev := Dedup(front);
      if d.address != "" && d.address !in Listed(prev) {
        ListedAppend(prev, Report(d));
        forall i | 0 <= i < |prev| ensures prev[i].address != d.address {
          assert prev[i] in prev;
        }
      }
    }
  }

  /** Scan order is kept: the listing of a prefix of the scan is a prefix of
      the listing of the whole scan. */
  lemma {:induction false} DedupPrefix(ds: seq<Device>, n: nat)
    requires n <= |ds|
    ensures Dedup(ds[..n]) <= Dedup(ds)
    decreases |ds| - n
  {
    if n < |ds| {
      var front := ds[..|ds| - 1];
      DedupPrefix(front, n);
      assert front[..n] == ds[..n];
    } else {
      assert ds[..n] == ds;
    }
  }

  /** The first device reporting an address is the one listed, at the position
      right after everything listed before it. */
  lemma DedupFirstWins(ds: seq<Device>, j: nat)
    requires j < |ds| && IsFirst(ds, j)
    ensures var p := |Dedup(ds[..j])|;
      p < |Dedup(ds)| && Dedup(ds)[p] == Report(ds[j])
  {
    var upto := ds[..j + 1];
    assert upto[..j] == ds[..j];
    DedupUnique(ds[..j]);
    assert ds[j].address !in Reported(ds[..j]);
    DedupPrefix(ds, j + 1);
  }

  /** A later device repeating an address, or one without an address, adds
      nothing to the listing. */
  lemma DedupSkipsRepeat(ds: seq<Device>, k: nat, j: nat)
    requires k < j < |ds|
    requires ds[k].address == ds[j].address || ds[j].address == ""
    ensures Dedup(ds[..j + 1]) == Dedup(ds[..j])
  {
    var upto := ds[..j + 1];
    assert upto[..j] == ds[..j];
    DedupUnique(ds[..j]);
    assert ds[k] in ds[..j];
  }

  /** The scan listing as the service builds it: a loop over the devices the
      radio reported, remembering the addresses already listed. */
  method ScanListing(devices: seq<Device>) returns (results: seq<DeviceOut>)
    ensures results == Dedup(devices)
  {
    results := [];
    var seen: set<string> := {};
    for i := 0 to |devices|
      invariant results == Dedup(devices[..i])
      invariant seen == Listed(results)
    {
      var d := devices[i];
      assert devices[..i + 1][..i] == devices[..i];
      if d.address == "" || d.address in seen {
        continue;
      }
      seen := seen + {d.address};
      ListedAppend(results, Report(d));
      results := results + [Report(d)];
    }
    assert devices[..|devices|] == devices;
  }

  /** `(d.name or "").strip().lower() == target.strip().lower()`. */
  predicate NameMatches(d: Device, target: string) {
    Normalize(d.name.GetOr("")) == Normalize(target)
  }

  /** The devices of a scan whose name matches the target, in scan order. */
  function Matching(ds: seq<Device>, target: string): seq<Device>
    decreases |ds|
  {
    if ds == [] then []
    else
      var d := ds[|ds| - 1];
      Matching(ds[..|ds| - 1], target) + (if NameMatches(d, target) then [d] else [])
  }

  /** Exactly the matching devices are kept, and nothing is added. */
  lemma {:induction false} MatchingExact(ds: seq<Device>, target: string)
    ensures |Matching(ds, target)| <= |ds|
    ensures forall d :: d in Matching(ds, target) <==> d in ds && NameMatches(d, target)
    decreases |ds|
  {
    if ds != [] {
      var front := ds[..|ds| - 1];
      MatchingExact(front, target);
      assert ds == front + [ds[|ds| - 1]];
    }
  }

  /** Every matching device is kept as often as the scan reported it, and a
      device that does not match is not kept at all: repeats are not dropped. */
  lemma {:induction false} MatchingCount(ds: seq<Device>, target: string)
    ensures forall d :: (multiset(Matching(ds, target))[d] ==
      if NameMatches(d, target) then multiset(ds)[d] else 0)
    decreases |ds|
  {
    if ds != [] {
      var front := ds[..|ds| - 1];
      MatchingCount(front, target);
      assert ds == front + [ds[|ds| - 1]];
    }
  }

  /** Scan order is kept: the matches of a prefix of the scan are a prefix of
      the matches of the whole scan. */
  lemma {:induction false} MatchingPrefix(ds: seq<Device>, n: nat, target: string)
    requires n <= |ds|
    ensures Matching(ds[..n], target) <= Matching(ds, target)
    decreases |ds| - n
  {
    if n < |ds| {
      var front := ds[..|ds| - 1];
      MatchingPrefix(front, n, target);
      assert front[..n] == ds[..n];
    } else {
      assert ds[..n] == ds;
    }
  }

  /** The addresses of a list of devices, in order. */
  function AddressesOf(ds: seq<Device>): (r: seq<string>)
    ensures |r| == |ds| && forall i :: 0 <= i < |ds| ==> r[i] == ds[i].address
  {
    seq(|ds|, i requires 0 <= i < |ds| => ds[i].address)
  }

  /** Outcome of a lookup by name: the matching addresses, or the distinct
      "not found" outcome when there are none. */
  datatype NameLookup = Found(name: string, addresses: seq<string>) | NameNotFound

  /** Lookup of the addresses whose advertised name matches `name` exactly,
      ignoring surrounding whitespace and ASCII case. */
  method FindByName(devices: seq<Device>, name: string) returns (r: NameLookup)
    ensures Matching(devices, name) == [] ==> r == NameNotFound
    ensures Matching(devices, name) != [] ==> r == Found(name, AddressesOf(Matching(devices, name)))
  {
    var target := Normalize(name);
    var addresses: seq<string> := [];
    for i := 0 to |devices|
      invariant addresses == AddressesOf(Matching(devices[..i], name))
    {
      var d := devices[i];
      assert devices[..i + 1][..i] == devices[..i];
      if Normalize(d.name.GetOr("")) == target {
        addresses := addresses + [d.address];
      }
    }
    assert devices[..|devices|] == devices;
    if addresses == [] {
      return NameNotFound;
    }
    return Found(name, addresses);
  }

  /** The candidate devices for a connection by name: the matching devices,
      kept whole (with their signal strength), in scan order. */
  method CollectMatches(devices: seq<Device>, name: string) returns (matches: seq<Device>)
    ensures matches == Matching(devices, name)
  {
    var target := Normalize(name);
    matches := [];
    for i := 0 to |devices|
      invariant matches == Matching(devices[..i], name)
    {
      var d := devices[i];
      assert devices[..i + 1][..i] == devices[..i];
      if Normalize(d.name.GetOr("")) == target {
        matches := matches + [d];
      }
    }
    assert devices[..|devices|] == devices;
  }
}
