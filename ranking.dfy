/**
 * Ranking of name matches before a connection attempt: strongest signal
 * first, devices whose signal strength is unknown last, and the scan order
 * kept among devices that rank equal. The service sorts in place with the
 * sort key below; the sort is the runtime's stable sort, represented here by
 * a stable insertion sort whose properties are proved.
 */
module Ranking {
  import opened Common
  import opened Discovery

  /** `(rssi is None, -(rssi if rssi is not None else -9999))`. */
  datatype SortKey = SortKey(unknown: bool, negated: int)

  /** Devices of unknown strength all share one key, so among them the scan
      order decides; a known strength keys on its negation. */
  function RssiKey(d: Device): (k: SortKey)
    ensures k.unknown <==> d.rssi.None?
    ensures d.rssi.None? ==> k == SortKey(true, 9999)
    ensures d.rssi.Some? ==> k.negated == -d.rssi.value
  {
    SortKey(d.rssi.None?, -(if d.rssi.Some? then d.rssi.value else -9999))
  }

  /** Tuple order on sort keys: `False < True`, then the integer. */
  predicate KeyLe(a: SortKey, b: SortKey) {
    (!a.unknown && b.unknown) || (a.unknown == b.unknown && a.negated <= b.negated)
  }

  /** `d` ranks no later than `e`: a known strength ranks before an unknown
      one, and a stronger before a weaker. */
  lemma RankedBefore(d: Device, e: Device)
    ensures KeyLe(RssiKey(d), RssiKey(e)) <==>
      e.rssi.None? || (d.rssi.Some? && d.rssi.value >= e.rssi.value)
  {}

  /** Places `x` in front of the first element that does not rank strictly
      before it. */
  function Insert(x: Device, s: seq<Device>): (r: seq<Device>)
    ensures |r| == |s| + 1
  {
    if s == [] then [x]
    else if KeyLe(RssiKey(x), RssiKey(s[0])) then [x] + s
    else [s[0]] + Insert(x, s[1..])
  }

  /** The ranked candidate list: `matches.sort(key=rssi_sort_key)`. */
  function Rank(s: seq<Device>): (r: seq<Device>)
    ensures |r| == |s|
  {
    if s == [] then [] else Insert(s[0], Rank(s[1..]))
  }

  predicate Sorted(s: seq<Device>) {
    forall i, j :: 0 <= i < j < |s| ==> KeyLe(RssiKey(s[i]), RssiKey(s[j]))
  }

  /** The devices of `s` whose sort key is `k`, in order. */
  function WithKey(s: seq<Device>, k: SortKey): seq<Device> {
    if s == [] then []
    else (if RssiKey(s[0]) == k then [s[0]] else []) + WithKey(s[1..], k)
  }

  /** Insertion adds exactly `x`. */
  lemma {:induction false} InsertPermutes(x: Device, s: seq<Device>)
    ensures multiset(Insert(x, s)) == multiset(s) + multiset{x}
    decreases |s|
  {
    if s != [] && !KeyLe(RssiKey(x), RssiKey(s[0])) {
      InsertPermutes(x, s[1..]);
      assert s == [s[0]] + s[1..];
    }
  }

  lemma {:induction false} InsertSorted(x: Device, s: seq<Device>)
    requires Sorted(s)
    ensures Sorted(Insert(x, s))
    decreases |s|
  {
    if s != [] && !KeyLe(RssiKey(x), RssiKey(s[0])) {
      var t := Insert(x, s[1..]);
      InsertSorted(x, s[1..]);
      InsertPermutes(x, s[1..]);
      var r := [s[0]] + t;
      forall j | 0 < j < |r| ensures KeyLe(RssiKey(s[0]), RssiKey(r[j])) {
        var y := r[j];
        assert y == t[j - 1];
        assert y in multiset(t);
        if y != x {
          assert y in multiset(s[1..]);
          var m :| 0 <= m < |s[1..]| && s[1..][m] == y;
          assert y == s[m + 1];
        }
      }
    }
  }

  /** Inserting `x` puts it ahead of every element with the same key, and
      leaves the other keys' elements in their order. */
  lemma {:induction false} InsertWithKey(x: Device, s: seq<Device>, k: SortKey)
    ensures WithKey(Insert(x, s), k) == (if RssiKey(x) == k then [x] else []) + WithKey(s, k)
    decreases |s|
  {
    if s == [] {
    } else if KeyLe(RssiKey(x), RssiKey(s[0])) {
      assert ([x] + s)[1..] == s;
    } else {
      InsertWithKey(x, s[1..], k);
      assert ([s[0]] + Insert(x, s[1..]))[1..] == Insert(x, s[1..]);
    }
  }

  /** The ranking is ordered by the key and is a permutation of its input. */
  lemma {:induction false} RankSorted(s: seq<Device>)
    ensures Sorted(Rank(s)) && multiset(Rank(s)) == multiset(s)
    decreases |s|
  {
    if s != [] {
      RankSorted(s[1..]);
      InsertSorted(s[0], Rank(s[1..]));
      InsertPermutes(s[0], Rank(s[1..]));
      assert s == [s[0]] + s[1..];
    }
  }

  /** The sort is stable: devices that rank equal keep their scan order. */
  lemma {:induction false} RankStable(s: seq<Device>, k: SortKey)
    ensures WithKey(Rank(s), k) == WithKey(s, k)
    decreases |s|
  {
    if s != [] {
      RankStable(s[1..], k);
      InsertWithKey(s[0], Rank(s[1..]), k);
    }
  }

  /** What the ranking promises its caller: every device with a known signal
      strength comes before every device without one, known strengths are in
      descending order, and nothing is added or lost. */
  lemma RankOrder(s: seq<Device>)
    ensures multiset(Rank(s)) == multiset(s)
    ensures var r := Rank(s);
      forall i, j :: 0 <= i < j < |r| && r[j].rssi.Some? ==>
        r[i].rssi.Some? && r[i].rssi.value >= r[j].rssi.value
  {
    RankSorted(s);
    var r := Rank(s);
    forall i, j | 0 <= i < j < |r| && r[j].rssi.Some?
      ensures r[i].rssi.Some? && r[i].rssi.value >= r[j].rssi.value
    {
      RankedBefore(r[i], r[j]);
    }
  }

  function WithRssi(rssi: Option<int>): Device {
    Device(Some("sensor"), "", rssi)
  }

  /** An instance of the ordering the comment at main.py:287 describes:
      strengths -40, -70, unknown, -55 are tried in the order -40, -55, -70,
      unknown. */
  lemma RankExample()
    ensures Rank([WithRssi(Some(-40)), WithRssi(Some(-70)), WithRssi(None), WithRssi(Some(-55))])
         == [WithRssi(Some(-40)), WithRssi(Some(-55)), WithRssi(Some(-70)), WithRssi(None)]
  {
    var a, b, c, d := WithRssi(Some(-40)), WithRssi(Some(-70)), WithRssi(None), WithRssi(Some(-55));
    assert [d][1..] == [] && [c, d][1..] == [d] && [b, c, d][1..] == [c, d];
    assert [a, b, c, d][1..] == [b, c, d] && [d, c][1..] == [c];
    assert Rank([d]) == [d];
    assert Insert(c, [d]) == [d, c];
    assert Rank([c, d]) == [d, c];
    assert Insert(b, [c]) == [b, c];
    assert Insert(b, [d, c]) == [d, b, c];
    assert Rank([b, c, d]) == [d, b, c];
    assert Rank([a, b, c, d]) == [a, d, b, c];
  }
}
