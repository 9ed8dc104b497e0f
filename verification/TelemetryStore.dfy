/** The telemetry store of the charts: its compaction rule, its fast insert and the rebuild
    that the fast insert has to agree with. */
module TelemetryStore {
  import opened Wrappers

  /** One network interface of a snapshot; the display-only fields are not kept. */
  datatype Iface = Iface(device: string, rx: Option<real>, tx: Option<real>)

  /** A telemetry snapshot; `detail` stands for everything the store never looks at. */
  datatype Sample = Sample(time: int, uptime: Option<real>, wan: Option<Iface>, lan: Option<Iface>, detail: string)

  const WINDOW := 2592000000
  const RECENT := 900000
  const BUCKET := 300000
  const AHEAD := 60000
  const CAP := 9000

  // ---------------------------------------------------------------- ordered lists

  ghost predicate Increasing(s: seq<Sample>) {
    forall i, j :: 0 <= i < j < |s| ==> s[i].time < s[j].time
  }

  ghost predicate DistinctTimes(s: set<Sample>) {
    forall p, q :: p in s && q in s && p.time == q.time ==> p == q
  }

  ghost function Elements(s: seq<Sample>): set<Sample> {
    set p | p in s
  }

  /** An increasing list is determined by its elements. */
  lemma {:induction false} IncreasingUnique(a: seq<Sample>, b: seq<Sample>)
    requires Increasing(a) && Increasing(b) && Elements(a) == Elements(b)
    ensures a == b
  {
    NoElements(a);
    NoElements(b);
    if a != [] {
      var x, y := a[|a| - 1], b[|b| - 1];
      assert x in Elements(b) && y in Elements(a);
      assert x.time == y.time && x == y;
      ElementsButLast(a);
      ElementsButLast(b);
      IncreasingUnique(a[..|a| - 1], b[..|b| - 1]);
      assert a == a[..|a| - 1] + [x] && b == b[..|b| - 1] + [y];
    }
  }

  lemma NoElements(s: seq<Sample>)
    ensures s == [] <==> Elements(s) == {}
  {
    if s != [] { assert s[0] in Elements(s); }
  }

  lemma ElementsButLast(a: seq<Sample>)
    requires Increasing(a) && a != []
    ensures Elements(a[..|a| - 1]) == Elements(a) - {a[|a| - 1]}
  {
    var m := |a| - 1;
    forall p ensures p in a[..m] <==> p in a && p != a[m] {
      if p in a && p != a[m] {
        var i :| 0 <= i < |a| && a[i] == p;
        assert a[..m][i] == p;
      }
    }
  }

  lemma {:induction false} LatestExists(s: set<Sample>)
    requires s != {}
    ensures exists m :: m in s && forall p :: p in s ==> p.time <= m.time
  {
    var x :| x in s;
    var others := s - {x};
    assert forall p :: p in s ==> p == x || p in others;
    var top := x;
    if others != {} {
      LatestExists(others);
      var m :| m in others && forall p :: p in others ==> p.time <= m.time;
      if x.time < m.time { top := m; }
    }
    assert top in s && forall p :: p in s ==> p.time <= top.time;
  }

  lemma AppendLatest(s: seq<Sample>, p: Sample)
    requires Increasing(s) && forall q :: q in Elements(s) ==> q.time < p.time
    ensures Increasing(s + [p]) && Elements(s + [p]) == Elements(s) + {p}
  {
    assert forall i :: 0 <= i < |s| ==> s[i] in Elements(s);
  }

  /** The points of a set in order of time: what sorting the values of the bucket table gives. */
  ghost function ByTime(s: set<Sample>): (r: seq<Sample>)
    requires DistinctTimes(s)
    ensures Increasing(r) && Elements(r) == s
  {
    if s == {} then [] else
      LatestExists(s);
      var m :| m in s && forall p :: p in s ==> p.time <= m.time;
      var rest := ByTime(s - {m});
      AppendLatest(rest, m);
      rest + [m]
  }

  /** The last CAP points. */
  function Trim(s: seq<Sample>): seq<Sample> {
    if |s| <= CAP then s else s[|s| - CAP..]
  }

  // ---------------------------------------------------------------- the compaction rule

  predicate InWindow(time: int, now: int) {
    now - WINDOW <= time <= now + AHEAD
  }

  /** Recent points keep their own time as key; older ones share a five-minute bucket. */
  function Key(time: int, now: int): int {
    if time >= now - RECENT then time else time / BUCKET * BUCKET
  }

  predicate Admitted(value: Option<Sample>, now: int) {
    value.Some? && InWindow(value.value.time, now)
  }

  /** Entry i is the last admitted one with its key. */
  ghost predicate Survives(values: seq<Option<Sample>>, i: int, now: int)
    requires 0 <= i < |values|
  {
    && Admitted(values[i], now)
    && forall j :: i < j < |values| && Admitted(values[j], now) ==>
                     Key(values[j].value.time, now) != Key(values[i].value.time, now)
  }

  ghost function Survivors(values: seq<Option<Sample>>, now: int): set<Sample> {
    set i | 0 <= i < |values| && Survives(values, i, now) :: values[i].value
  }

  lemma SurvivorsDistinct(values: seq<Option<Sample>>, now: int)
    ensures DistinctTimes(Survivors(values, now))
  {
    forall p, q | p in Survivors(values, now) && q in Survivors(values, now) && p.time == q.time
      ensures p == q
    {
      var i :| 0 <= i < |values| && Survives(values, i, now) && values[i].value == p;
      var j :| 0 <= j < |values| && Survives(values, j, now) && values[j].value == q;
    }
  }

  /** The specification of a rebuild: the survivors in order of time, at most CAP of them. */
  ghost function Normal(values: seq<Option<Sample>>, now: int): seq<Sample> {
    SurvivorsDistinct(values, now);
    Trim(ByTime(Survivors(values, now)))
  }

  function Wrap(s: seq<Sample>): seq<Option<Sample>> {
    seq(|s|, i requires 0 <= i < |s| => Some(s[i]))
  }

  /** What one more admitted value does to a set of survivors. */
  ghost function Absorb(s: set<Sample>, value: Option<Sample>, now: int): set<Sample> {
    if Admitted(value, now)
    then (set p | p in s && Key(p.time, now) != Key(value.value.time, now)) + {value.value}
    else s
  }

  lemma SurvivorsSnoc(values: seq<Option<Sample>>, value: Option<Sample>, now: int)
    ensures Survivors(values + [value], now) == Absorb(Survivors(values, now), value, now)
  {
    var all := values + [value];
    forall p ensures p in Survivors(all, now) <==> p in Absorb(Survivors(values, now), value, now) {
      if p in Survivors(all, now) {
        var i :| 0 <= i < |all| && Survives(all, i, now) && all[i].value == p;
        if i < |values| {
          assert forall j :: i < j < |values| ==> all[j] == values[j];
          assert Survives(values, i, now);
          assert Admitted(all[|values|], now) ==> Key(value.value.time, now) != Key(p.time, now);
        }
      }
      if p in Absorb(Survivors(values, now), value, now) {
        if Admitted(value, now) && p == value.value {
          assert Survives(all, |values|, now);
        } else {
          var i :| 0 <= i < |values| && Survives(values, i, now) && values[i].value == p;
          assert forall j :: i < j < |values| ==> all[j] == values[j];
          assert Survives(all, i, now);
        }
      }
    }
  }

  // ---------------------------------------------------------------- the rule in numbers

  /** Within thirty days before the clock and one minute after it. */
  predicate InTime(time: int, now: int) {
    now - 2592000000 <= time <= now + 60000
  }

  /** Only one of the two is kept: both are older than a quarter of an hour and fall into the same five minutes,
      or at least one is not and their times are equal. */
  predicate Exclude(a: int, b: int, now: int) {
    if a < now - 900000 && b < now - 900000 then a / 300000 == b / 300000 else a == b
  }

  /** Value i is in time, and no later one in the list excludes it. */
  ghost predicate LastOfItsKind(values: seq<Option<Sample>>, i: int, now: int)
    requires 0 <= i < |values|
  {
    && values[i].Some? && InTime(values[i].value.time, now)
    && forall j :: i < j < |values| && values[j].Some? && InTime(values[j].value.time, now) ==>
                     !Exclude(values[i].value.time, values[j].value.time, now)
  }

  lemma KeysInNumbers(a: int, b: int, now: int)
    ensures Key(a, now) == Key(b, now) <==> Exclude(a, b, now)
  {
  }

  lemma SurvivesInNumbers(values: seq<Option<Sample>>, i: int, now: int)
    requires 0 <= i < |values|
    ensures Survives(values, i, now) <==> LastOfItsKind(values, i, now)
  {
    if values[i].Some? {
      forall j | i < j < |values| && values[j].Some?
        ensures Key(values[j].value.time, now) != Key(values[i].value.time, now) <==>
                !Exclude(values[i].value.time, values[j].value.time, now)
      {
        KeysInNumbers(values[i].value.time, values[j].value.time, now);
      }
    }
  }

  /** A rebuild in terms of the list and the clock: it holds only last values of their kind, in order of time, and
      all of them, unless there are 9000 later ones. */
  ghost predicate Rebuilt(values: seq<Option<Sample>>, now: int, r: seq<Sample>) {
    && Increasing(r) && |r| <= 9000
    && (forall p :: p in r ==> exists i :: 0 <= i < |values| && LastOfItsKind(values, i, now) && values[i].value == p)
    && forall i :: 0 <= i < |values| && LastOfItsKind(values, i, now) ==>
                     values[i].value in r || (|r| == 9000 && values[i].value.time < r[0].time)
  }

  lemma RebuildInNumbers(values: seq<Option<Sample>>, now: int)
    ensures Rebuilt(values, now, Normal(values, now))
  {
    SurvivorsDistinct(values, now);
    var all, r := ByTime(Survivors(values, now)), Normal(values, now);
    forall p | p in r ensures exists i :: 0 <= i < |values| && LastOfItsKind(values, i, now) && values[i].value == p {
      assert p in Elements(all);
      var i :| 0 <= i < |values| && Survives(values, i, now) && values[i].value == p;
      SurvivesInNumbers(values, i, now);
    }
    forall i | 0 <= i < |values| && LastOfItsKind(values, i, now)
      ensures values[i].value in r || (|r| == 9000 && values[i].value.time < r[0].time)
    {
      SurvivesInNumbers(values, i, now);
      assert values[i].value in Elements(all);
      TrimDropsTheOldest(all, values[i].value);
    }
  }

  lemma TrimDropsTheOldest(s: seq<Sample>, p: Sample)
    requires Increasing(s) && p in s
    ensures p in Trim(s) || (|Trim(s)| == 9000 && p.time < Trim(s)[0].time)
  {
    var k :| 0 <= k < |s| && s[k] == p;
    if k >= |s| - CAP && |s| > CAP { assert Trim(s)[k - (|s| - CAP)] == p; }
  }

  /** Every value in time leaves one of its kind behind, as long as the result is under the cap: an old one keeps its
      five minutes, a recent one its own time. */
  lemma {:induction false} EveryKindIsKept(values: seq<Option<Sample>>, now: int, i: int)
    requires 0 <= i < |values| && values[i].Some? && now - 2592000000 <= values[i].value.time <= now + 60000
    requires |Normal(values, now)| < 9000
    ensures exists p :: p in Normal(values, now) &&
              if values[i].value.time < now - 900000
              then p.time < now - 900000 && p.time / 300000 == values[i].value.time / 300000
              else p.time == values[i].value.time
    decreases |values| - i
  {
    RebuildInNumbers(values, now);
    if !LastOfItsKind(values, i, now) {
      var j :| i < j < |values| && values[j].Some? && InTime(values[j].value.time, now)
               && Exclude(values[i].value.time, values[j].value.time, now);
      EveryKindIsKept(values, now, j);
    }
  }

  // ---------------------------------------------------------------- the rebuild

  /** Places a point of a new time in an increasing list. */
  function Placed(s: seq<Sample>, p: Sample): seq<Sample> {
    if s == [] || s[|s| - 1].time < p.time then s + [p] else Placed(s[..|s| - 1], p) + [s[|s| - 1]]
  }

  lemma {:induction false} PlacedKeepsOrder(s: seq<Sample>, p: Sample)
    requires Increasing(s) && forall q :: q in s ==> q.time != p.time
    ensures Increasing(Placed(s, p)) && Elements(Placed(s, p)) == Elements(s) + {p}
  {
    if s == [] || s[|s| - 1].time < p.time {
      AppendLatest(s, p);
    } else {
      var front, last := s[..|s| - 1], s[|s| - 1];
      PlacedKeepsOrder(front, p);
      AppendLatest(front, last);
      assert s == front + [last];
      assert last in s;
      AppendLatest(Placed(front, p), last);
    }
  }

  method SortByTime(points: set<Sample>) returns (r: seq<Sample>)
    requires DistinctTimes(points)
    ensures r == ByTime(points)
  {
    r := [];
    var rest := points;
    while rest != {}
      invariant rest <= points
      invariant Increasing(r) && Elements(r) == points - rest
      decreases |rest|
    {
      var p :| p in rest;
      assert forall q :: q in r ==> q in Elements(r);
      PlacedKeepsOrder(r, p);
      r := Placed(r, p);
      rest := rest - {p};
    }
    IncreasingUnique(r, ByTime(points));
  }

  function Values(table: map<int, Sample>): set<Sample> {
    set k | k in table :: table[k]
  }

  /** normalizeSamples: the window filter, the bucket table, the sort and the cap. */
  method NormalizeSamples(values: seq<Option<Sample>>, now: int) returns (r: seq<Sample>)
    ensures r == Normal(values, now) && Rebuilt(values, now, r)
  {
    RebuildInNumbers(values, now);
    var table: map<int, Sample> := map[];
    for n := 0 to |values|
      invariant Values(table) == Survivors(values[..n], now)
      invariant forall k :: k in table ==> Key(table[k].time, now) == k
    {
      SurvivorsSnoc(values[..n], values[n], now);
      assert values[..n + 1] == values[..n] + [values[n]];
      if Admitted(values[n], now) {
        var point := values[n].value;
        TableUpdate(table, point, now);
        table := table[Key(point.time, now) := point];
      }
    }
    assert values[..|values|] == values;
    SurvivorsDistinct(values, now);
    r := SortByTime(Values(table));
    r := Trim(r);
  }

  lemma TableUpdate(table: map<int, Sample>, point: Sample, now: int)
    requires forall k :: k in table ==> Key(table[k].time, now) == k
    requires InWindow(point.time, now)
    ensures Values(table[Key(point.time, now) := point]) == Absorb(Values(table), Some(point), now)
  {
    var key := Key(point.time, now);
    var next := table[key := point];
    forall p ensures p in Values(next) <==> p in Absorb(Values(table), Some(point), now) {
      if p in Values(next) {
        var k :| k in next && next[k] == p;
        if k != key { assert table[k] == p; }
      }
      if p in Absorb(Values(table), Some(point), now) {
        if p == point {
          assert next[key] == p;
        } else {
          var k :| k in table && table[k] == p;
          assert next[k] == p;
        }
      }
    }
  }

  // ---------------------------------------------------------------- the fast insert

  ghost function Replace(s: set<Sample>, p: Sample): set<Sample> {
    (set q | q in s && q.time != p.time) + {p}
  }

  ghost function From(s: set<Sample>, cutoff: int): set<Sample> {
    set q | q in s && q.time >= cutoff
  }

  lemma ReplaceDistinct(s: seq<Sample>, p: Sample, cutoff: int)
    requires Increasing(s)
    ensures DistinctTimes(From(Replace(Elements(s), p), cutoff))
  {
  }

  /** The specification of the fast insert: put the point in, drop what is before the cutoff, cap. */
  ghost function Inserted(s: seq<Sample>, p: Sample, cutoff: int): seq<Sample>
    requires Increasing(s)
  {
    ReplaceDistinct(s, p, cutoff);
    Trim(ByTime(From(Replace(Elements(s), p), cutoff)))
  }

  /** The first index whose time is at least `bound`. */
  method LowerBound(s: seq<Sample>, bound: int) returns (low: nat)
    requires Increasing(s)
    ensures low <= |s|
    ensures forall i :: 0 <= i < low ==> s[i].time < bound
    ensures forall i :: low <= i < |s| ==> bound <= s[i].time
  {
    low := 0;
    var high := |s|;
    while low < high
      invariant 0 <= low <= high <= |s|
      invariant forall i :: 0 <= i < low ==> s[i].time < bound
      invariant forall i :: high <= i < |s| ==> bound <= s[i].time
    {
      var middle := (low + high) / 2;
      if s[middle].time < bound { low := middle + 1; } else { high := middle; }
    }
  }

  method InsertSample(samples: seq<Sample>, point: Sample, cutoff: int) returns (r: seq<Sample>)
    requires Increasing(samples)
    ensures r == Inserted(samples, point, cutoff)
  {
    var low := LowerBound(samples, point.time);
    var next: seq<Sample>;
    if low < |samples| && samples[low].time == point.time {
      next := samples[low := point];
    } else {
      next := samples[..low] + [point] + samples[low..];
    }
    PutElements(samples, point, low, next);
    low, r := DropAndCap(next, cutoff);
    DroppedIsInserted(samples, point, cutoff, next, low);
  }

  method DropAndCap(next: seq<Sample>, cutoff: int) returns (low: nat, r: seq<Sample>)
    requires Increasing(next)
    ensures low <= |next| && r == Trim(next[low..])
    ensures forall i :: 0 <= i < low ==> next[i].time < cutoff
    ensures forall i :: low <= i < |next| ==> cutoff <= next[i].time
  {
    low := LowerBound(next, cutoff);
    if low > 0 || |next| > CAP {
      var first := if low < |next| - CAP then |next| - CAP else low;
      r := next[first..];
    } else {
      r := next;
    }
  }

  lemma DroppedIsInserted(samples: seq<Sample>, point: Sample, cutoff: int, next: seq<Sample>, low: nat)
    requires Increasing(samples) && Increasing(next) && low <= |next|
    requires Elements(next) == Replace(Elements(samples), point)
    requires forall i :: 0 <= i < low ==> next[i].time < cutoff
    requires forall i :: low <= i < |next| ==> cutoff <= next[i].time
    ensures Trim(next[low..]) == Inserted(samples, point, cutoff)
  {
    DropElements(next, low, cutoff);
    ReplaceDistinct(samples, point, cutoff);
    IncreasingUnique(next[low..], ByTime(From(Replace(Elements(samples), point), cutoff)));
  }

  lemma PutElements(samples: seq<Sample>, point: Sample, low: nat, next: seq<Sample>)
    requires Increasing(samples) && low <= |samples|
    requires forall i :: 0 <= i < low ==> samples[i].time < point.time
    requires forall i :: low <= i < |samples| ==> point.time <= samples[i].time
    requires next == if low < |samples| && samples[low].time == point.time then samples[low := point]
                     else samples[..low] + [point] + samples[low..]
    ensures Increasing(next) && Elements(next) == Replace(Elements(samples), point)
  {
    forall p ensures p in next <==> p in Replace(Elements(samples), point) {
      if p in Replace(Elements(samples), point) {
        if p == point {
          assert next[low] == p;
        } else {
          var i :| 0 <= i < |samples| && samples[i] == p;
          assert next[i] == p || next[i + 1] == p;
        }
      }
    }
  }

  lemma DropElements(s: seq<Sample>, low: nat, cutoff: int)
    requires Increasing(s) && low <= |s|
    requires forall i :: 0 <= i < low ==> s[i].time < cutoff
    requires forall i :: low <= i < |s| ==> cutoff <= s[i].time
    ensures Increasing(s[low..]) && Elements(s[low..]) == From(Elements(s), cutoff)
  {
    forall p ensures p in s[low..] <==> p in s && p.time >= cutoff {
      if p in s && p.time >= cutoff {
        var i :| 0 <= i < |s| && s[i] == p;
        assert s[low..][i - low] == p;
      }
    }
  }
}
