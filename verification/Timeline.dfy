/** The chart pipeline: splitting a series at gaps, thinning it to the extrema of pixel buckets,
    and drawing polylines. Items are referred to by their index in the series, as the source
    refers to them by object identity. */
module Timeline {
  import opened Collections
  import opened Wrappers

  datatype Item = Item(time: int, breakBefore: bool, value: Option<real>)

  const RECENT := 900000
  const COARSE := 360000
  const FINE := 20000

  // ---------------------------------------------------------------- the cadence of a series

  /** The positive gaps between old samples. */
  function Gaps(data: seq<Item>, recent: int): seq<int> {
    if |data| < 2 then []
    else
      var n := |data| - 1;
      var gap := data[n].time - data[n - 1].time;
      Gaps(data[..n], recent) + if data[n].time < recent && gap > 0 && !data[n].breakBefore then [gap] else []
  }

  /** `from` lists, in order, the items before `recent` that time moved on to without an interruption, and `gaps`
      how far each lies from its predecessor. */
  ghost predicate GapsAt(data: seq<Item>, recent: int, from: seq<nat>, gaps: seq<int>) {
    && |from| == |gaps| && StrictlyRising(from)
    && (forall k :: 0 <= k < |from| ==>
          1 <= from[k] < |data| && gaps[k] == data[from[k]].time - data[from[k] - 1].time)
    && forall i: nat {:trigger i in from} :: i in from <==> EndsGap(data, recent, i)
  }

  predicate EndsGap(data: seq<Item>, recent: int, i: nat) {
    1 <= i < |data| && data[i - 1].time < data[i].time < recent && !data[i].breakBefore
  }

  lemma {:induction false} GapsAreDifferences(data: seq<Item>, recent: int) returns (from: seq<nat>)
    ensures GapsAt(data, recent, from, Gaps(data, recent))
  {
    from := [];
    if |data| >= 2 {
      var n := |data| - 1;
      var front := GapsAreDifferences(data[..n], recent);
      from := front + if EndsGap(data, recent, n) then [n] else [];
      OneMoreGap(data, recent, front, Gaps(data[..n], recent));
    }
  }

  lemma OneMoreGap(data: seq<Item>, recent: int, from: seq<nat>, gaps: seq<int>)
    requires |data| >= 2 && GapsAt(data[..|data| - 1], recent, from, gaps)
    ensures var n := |data| - 1;
            if EndsGap(data, recent, n)
            then GapsAt(data, recent, from + [n], gaps + [data[n].time - data[n - 1].time])
            else GapsAt(data, recent, from + [], gaps + [])
  {
    var n := |data| - 1;
    var front := data[..n];
    forall k | 0 <= k < |from|
      ensures 1 <= from[k] < n && gaps[k] == data[from[k]].time - data[from[k] - 1].time
    {
      assert from[k] in from;
    }
    forall i: nat ensures i in from <==> i < n && EndsGap(data, recent, i) {
      assert i < n ==> (EndsGap(front, recent, i) <==> EndsGap(data, recent, i));
    }
    hide EndsGap;
    if EndsGap(data, recent, n) {
      var more := from + [n];
      assert forall i: nat :: i in more <==> i in from || i == n;
    } else {
      assert from + [] == from && gaps + [] == gaps;
      assert forall i: nat :: i in from <==> EndsGap(data, recent, i);
    }
  }

  method CollectGaps(data: seq<Item>, recent: int) returns (gaps: seq<int>)
    ensures gaps == Gaps(data, recent) && exists from :: GapsAt(data, recent, from, gaps)
  {
    ghost var from := GapsAreDifferences(data, recent);
    gaps := [];
    var i := 1;
    while i < |data|
      invariant 1 <= i && (data != [] ==> i <= |data|)
      invariant gaps == Gaps(if data == [] then [] else data[..i], recent)
    {
      assert data[..i + 1][..i] == data[..i];
      var gap := data[i].time - data[i - 1].time;
      if data[i].time < recent && gap > 0 && !data[i].breakBefore { gaps := gaps + [gap]; }
      i := i + 1;
    }
    assert data != [] ==> data[..i] == data;
  }

  function InsertGap(s: seq<int>, x: int): seq<int> {
    if s == [] || s[|s| - 1] <= x then s + [x] else InsertGap(s[..|s| - 1], x) + [s[|s| - 1]]
  }

  /** Sorting in ascending order. */
  function Ascending(s: seq<int>): seq<int> {
    if s == [] then [] else InsertGap(Ascending(s[..|s| - 1]), s[|s| - 1])
  }

  lemma {:induction false} InsertGapKeeps(s: seq<int>, x: int)
    ensures multiset(InsertGap(s, x)) == multiset(s) + multiset{x}
    ensures |InsertGap(s, x)| == |s| + 1
  {
    if s == [] || s[|s| - 1] <= x {
    } else {
      InsertGapKeeps(s[..|s| - 1], x);
      assert s == s[..|s| - 1] + [s[|s| - 1]];
    }
  }

  lemma {:induction false} AscendingKeeps(s: seq<int>)
    ensures multiset(Ascending(s)) == multiset(s) && |Ascending(s)| == |s|
  {
    if s != [] {
      AscendingKeeps(s[..|s| - 1]);
      InsertGapKeeps(Ascending(s[..|s| - 1]), s[|s| - 1]);
      assert s == s[..|s| - 1] + [s[|s| - 1]];
    }
  }

  /** The lower median gap stretched by three quarters, and never less than six minutes. */
  function CoarseGap(gaps: seq<int>): real {
    AscendingKeeps(gaps);
    var cadence := if |gaps| >= 2 then Ascending(gaps)[(|gaps| - 1) / 2] else 300000;
    var stretched := cadence as real * 1.75;
    if stretched < COARSE as real then COARSE as real else stretched
  }

  // ---------------------------------------------------------------- the median

  function AtMost(s: seq<int>, m: int): nat {
    if s == [] then 0 else AtMost(s[..|s| - 1], m) + if s[|s| - 1] <= m then 1 else 0
  }

  function AtLeast(s: seq<int>, m: int): nat {
    if s == [] then 0 else AtLeast(s[..|s| - 1], m) + if s[|s| - 1] >= m then 1 else 0
  }

  /** At least half of the numbers are not above m and more than half are not below it. */
  ghost predicate LowerMedian(s: seq<int>, m: int) {
    m in s && 2 * AtMost(s, m) >= |s| && 2 * AtLeast(s, m) > |s|
  }

  ghost predicate Sorted(s: seq<int>) {
    forall i, j :: 0 <= i < j < |s| ==> s[i] <= s[j]
  }

  lemma {:induction false} InsertGapSorts(s: seq<int>, x: int)
    requires Sorted(s)
    ensures Sorted(InsertGap(s, x))
    ensures forall i :: 0 <= i < |InsertGap(s, x)| ==> InsertGap(s, x)[i] == x || InsertGap(s, x)[i] in s
  {
    if s != [] && x < s[|s| - 1] {
      var front, last := s[..|s| - 1], s[|s| - 1];
      InsertGapSorts(front, x);
      forall y | y in front ensures y in s && y <= last {
      }
    }
  }

  lemma {:induction false} InsertGapCounts(s: seq<int>, x: int, m: int)
    ensures AtMost(InsertGap(s, x), m) == AtMost(s, m) + if x <= m then 1 else 0
    ensures AtLeast(InsertGap(s, x), m) == AtLeast(s, m) + if x >= m then 1 else 0
  {
    if s == [] || s[|s| - 1] <= x {
      assert (s + [x])[..|s|] == s;
    } else {
      var front, last := s[..|s| - 1], s[|s| - 1];
      InsertGapCounts(front, x, m);
      assert (InsertGap(front, x) + [last])[..|InsertGap(front, x)|] == InsertGap(front, x);
    }
  }

  lemma {:induction false} AscendingSorts(s: seq<int>, m: int)
    ensures Sorted(Ascending(s)) && AtMost(Ascending(s), m) == AtMost(s, m) && AtLeast(Ascending(s), m) == AtLeast(s, m)
  {
    hide InsertGap, Sorted;
    if s != [] {
      var front, last := s[..|s| - 1], s[|s| - 1];
      AscendingSorts(front, m);
      InsertGapSorts(Ascending(front), last);
      InsertGapCounts(Ascending(front), last, m);
    } else {
      EmptyIsSorted();
    }
  }

  lemma EmptyIsSorted()
    ensures Sorted([])
  {
  }

  /** In a sorted list k + 1 numbers are not above entry k, and as many as follow it, with itself, are not below. */
  lemma {:induction false} SortedCounts(s: seq<int>, k: nat)
    requires Sorted(s) && k < |s|
    ensures AtMost(s, s[k]) >= k + 1 && AtLeast(s, s[k]) >= |s| - k
  {
    var n := |s| - 1;
    if k < n { SortedCounts(s[..n], k); } else { AllAtMost(s[..n], s[n]); }
  }

  lemma {:induction false} AllAtMost(s: seq<int>, m: int)
    requires forall i :: 0 <= i < |s| ==> s[i] <= m
    ensures AtMost(s, m) == |s|
  {
    if s != [] { AllAtMost(s[..|s| - 1], m); }
  }

  lemma {:induction false} NotBoth(s: seq<int>, a: int, b: int)
    requires a < b
    ensures AtMost(s, a) + AtLeast(s, b) <= |s|
  {
    if s != [] { NotBoth(s[..|s| - 1], a, b); }
  }

  lemma OneMedian(s: seq<int>, a: int, b: int)
    requires LowerMedian(s, a) && LowerMedian(s, b)
    ensures a == b
  {
    if a < b { NotBoth(s, a, b); }
    if b < a { NotBoth(s, b, a); }
  }

  /** With at least two gaps the allowance is seven quarters of their lower median, but at least six minutes; with
      fewer it is eight minutes and three quarters. */
  ghost predicate Allowance(gaps: seq<int>, coarse: real) {
    if |gaps| < 2 then coarse == 525000.0
    else
      exists m :: LowerMedian(gaps, m) &&
                  coarse == if m as real * 1.75 < 360000.0 then 360000.0 else m as real * 1.75
  }

  lemma CoarseGapIsTheMedian(gaps: seq<int>)
    ensures Allowance(gaps, CoarseGap(gaps))
  {
    if |gaps| >= 2 {
      AscendingKeeps(gaps);
      var k := (|gaps| - 1) / 2;
      var m := Ascending(gaps)[k];
      AscendingSorts(gaps, m);
      SortedCounts(Ascending(gaps), k);
      assert m in multiset(Ascending(gaps));
      assert LowerMedian(gaps, m);
    }
  }

  lemma OneAllowance(gaps: seq<int>, a: real, b: real)
    requires Allowance(gaps, a) && Allowance(gaps, b)
    ensures a == b
  {
    if |gaps| >= 2 {
      var m :| LowerMedian(gaps, m) && a == if m as real * 1.75 < 360000.0 then 360000.0 else m as real * 1.75;
      var n :| LowerMedian(gaps, n) && b == if n as real * 1.75 < 360000.0 then 360000.0 else n as real * 1.75;
      OneMedian(gaps, m, n);
    }
  }

  /** The order of the gaps does not matter. */
  lemma AllowanceIgnoresOrder(a: seq<int>, b: seq<int>)
    requires multiset(a) == multiset(b)
    ensures CoarseGap(a) == CoarseGap(b)
  {
    hide AtMost, AtLeast, Ascending;
    AscendingKeeps(a);
    AscendingKeeps(b);
    AscendingSorts(a, 0);
    AscendingSorts(b, 0);
    SortedIsUnique(Ascending(a), Ascending(b));
    assert |a| == |multiset(a)| == |multiset(b)| == |b|;
  }

  lemma LargestIsLast(a: seq<int>, x: int)
    requires Sorted(a) && x in multiset(a)
    ensures a != [] && x <= a[|a| - 1]
  {
    var i :| 0 <= i < |a| && a[i] == x;
  }

  lemma {:induction false} SortedIsUnique(a: seq<int>, b: seq<int>)
    requires Sorted(a) && Sorted(b) && multiset(a) == multiset(b)
    ensures a == b
  {
    hide Sorted;
    if a == [] {
      assert |multiset(b)| == 0;
    } else {
      SameLast(a, b);
      var x := a[|a| - 1];
      LastOff(a);
      LastOff(b);
      FrontIsSorted(a);
      FrontIsSorted(b);
      SortedIsUnique(a[..|a| - 1], b[..|b| - 1]);
      assert a == a[..|a| - 1] + [x] && b == b[..|b| - 1] + [x];
    }
  }

  lemma SameLast(a: seq<int>, b: seq<int>)
    requires Sorted(a) && Sorted(b) && multiset(a) == multiset(b) && a != []
    ensures b != [] && a[|a| - 1] == b[|b| - 1]
  {
    var x := a[|a| - 1];
    assert x in multiset(a);
    LargestIsLast(b, x);
    var y := b[|b| - 1];
    assert y in multiset(b);
    LargestIsLast(a, y);
  }

  lemma LastOff(a: seq<int>)
    requires a != []
    ensures multiset(a[..|a| - 1]) == multiset(a) - multiset{a[|a| - 1]}
  {
    assert a == a[..|a| - 1] + [a[|a| - 1]];
  }

  lemma FrontIsSorted(a: seq<int>)
    requires Sorted(a) && a != []
    ensures Sorted(a[..|a| - 1])
  {
  }

  // ---------------------------------------------------------------- segments

  /** What the rules below need to know of a series: where the recent part starts and how far apart
      two older samples may lie. */
  datatype Cadence = Cadence(recent: int, coarse: real)

  function CadenceOf(data: seq<Item>, end: int): Cadence {
    Cadence(end - RECENT, CoarseGap(Gaps(data, end - RECENT)))
  }

  function Allowed(c: Cadence, previous: int): real {
    if previous < c.recent then c.coarse else FINE as real
  }

  /** The two neighbours belong together: time moves on, nothing was interrupted, the gap is allowed. */
  predicate Joined(c: Cadence, previous: Item, item: Item) {
    && !item.breakBefore && previous.time < item.time
    && (item.time - previous.time) as real <= Allowed(c, previous.time)
  }

  /** Item i opens a new segment. */
  predicate Opens(c: Cadence, data: seq<Item>, i: nat)
    requires i < |data|
  {
    data[i].value.None? || (i > 0 && data[i - 1].value.Some? && !Joined(c, data[i - 1], data[i]))
  }

  function SegmentAt(c: Cadence, data: seq<Item>, i: nat): nat
    requires i < |data|
  {
    (if i == 0 then 0 else SegmentAt(c, data, i - 1)) + if Opens(c, data, i) then 1 else 0
  }

  function Segments(c: Cadence, data: seq<Item>): seq<nat> {
    seq(|data|, i requires 0 <= i < |data| => SegmentAt(c, data, i))
  }

  /** The two neighbours belong together, in the numbers of the clock: the allowance `coarse` holds up to a quarter
      of an hour before the end, twenty seconds from there on. */
  ghost predicate Linked(end: int, coarse: real, previous: Item, item: Item) {
    && !item.breakBefore && previous.time < item.time
    && (item.time - previous.time) as real <= if previous.time < end - 900000 then coarse else 20000.0
  }

  /** Numbers go up by one at a missing item and between two known ones that do not belong together, and stay the
      same everywhere else. */
  ghost predicate Numbered(data: seq<Item>, end: int, coarse: real, seg: seq<nat>) {
    && |seg| == |data|
    && forall i :: 0 <= i < |data| ==>
         seg[i] == (if i == 0 then 0 else seg[i - 1]) +
         if data[i].value.None? || (i > 0 && data[i - 1].value.Some? && !Linked(end, coarse, data[i - 1], data[i]))
         then 1 else 0
  }

  /** What the cadence of a series is: the allowance is that of its gaps. */
  ghost predicate Paced(data: seq<Item>, end: int, coarse: real) {
    exists from, gaps {:trigger GapsAt(data, end - 900000, from, gaps)} ::
      GapsAt(data, end - 900000, from, gaps) && Allowance(gaps, coarse)
  }

  lemma JoinedInNumbers(data: seq<Item>, end: int, previous: Item, item: Item)
    ensures Joined(CadenceOf(data, end), previous, item) <==>
            Linked(end, CadenceOf(data, end).coarse, previous, item)
  {
  }

  lemma SegmentsInNumbers(data: seq<Item>, end: int)
    ensures var c := CadenceOf(data, end);
            Paced(data, end, c.coarse) && Numbered(data, end, c.coarse, Segments(c, data))
  {
    hide CoarseGap, Gaps, Joined, Linked;
    var gaps := Gaps(data, end - RECENT);
    var from := GapsAreDifferences(data, end - RECENT);
    CoarseGapIsTheMedian(gaps);
    assert GapsAt(data, end - 900000, from, gaps) && Allowance(gaps, CadenceOf(data, end).coarse);
    forall i | 0 < i < |data|
      ensures Joined(CadenceOf(data, end), data[i - 1], data[i]) <==>
              Linked(end, CadenceOf(data, end).coarse, data[i - 1], data[i])
    {
      JoinedInNumbers(data, end, data[i - 1], data[i]);
    }
  }

  method SegmentSeries(data: seq<Item>, end: int) returns (segments: seq<nat>)
    ensures segments == Segments(CadenceOf(data, end), data)
    ensures exists coarse :: Paced(data, end, coarse) && Numbered(data, end, coarse, segments)
  {
    hide Paced, Numbered, CoarseGap, Allowance, GapsAt, Gaps, Joined;
    SegmentsInNumbers(data, end);
    var recent := end - RECENT;
    var gaps := CollectGaps(data, recent);
    var c := Cadence(recent, CoarseGap(gaps));
    var previous: Option<Item> := None;
    var segment: nat := 0;
    segments := [];
    for i := 0 to |data|
      invariant segments == Segments(c, data)[..i]
      invariant segment == if i == 0 then 0 else SegmentAt(c, data, i - 1)
      invariant previous == if i > 0 && data[i - 1].value.Some? then Some(data[i - 1]) else None
    {
      if data[i].value.None? {
        previous := None;
        segment := segment + 1;
      } else {
        if previous.Some? && !Joined(c, previous.value, data[i]) { segment := segment + 1; }
        previous := Some(data[i]);
      }
      segments := segments + [segment];
    }
  }

  /** What the thinning relies on: numbers never fall, a missing value opens a new number, and
      inside a number time strictly increases. */
  ghost predicate Segmented(data: seq<Item>, seg: seq<nat>) {
    && |seg| == |data|
    && forall i, j :: 0 <= i < j < |data| ==>
         && seg[i] <= seg[j]
         && (seg[i] == seg[j] ==> data[j].value.Some?)
         && (seg[i] == seg[j] && data[i].value.Some? ==> data[i].time < data[j].time)
  }

  /** A stretch of samples that a line may run through. */
  ghost predicate Gapless(c: Cadence, data: seq<Item>, first: nat, last: nat)
    requires first <= last < |data|
  {
    && (forall k :: first <= k <= last ==> data[k].value.Some?)
    && forall k :: first <= k < last ==> Joined(c, data[k], data[k + 1])
  }

  /** Two known samples have the same number exactly when no gap lies between them. */
  lemma {:induction false} SameSegmentIffGapless(c: Cadence, data: seq<Item>, first: nat, last: nat)
    requires first <= last < |data| && data[first].value.Some?
    ensures SegmentAt(c, data, first) <= SegmentAt(c, data, last)
    ensures SegmentAt(c, data, first) == SegmentAt(c, data, last) <==> Gapless(c, data, first, last)
    ensures Gapless(c, data, first, last) ==> first == last || data[first].time < data[last].time
    decreases last
  {
    if first < last {
      SameSegmentIffGapless(c, data, first, last - 1);
      if Gapless(c, data, first, last) {
        assert Gapless(c, data, first, last - 1);
        assert Joined(c, data[last - 1], data[last - 1 + 1]);
      }
    }
  }

  lemma {:induction false} SegmentsRise(c: Cadence, data: seq<Item>, first: nat, last: nat)
    requires first < last < |data|
    ensures SegmentAt(c, data, first) <= SegmentAt(c, data, last)
    ensures SegmentAt(c, data, first) == SegmentAt(c, data, last) ==> data[last].value.Some?
    decreases last
  {
    if first < last - 1 { SegmentsRise(c, data, first, last - 1); }
  }

  lemma SegmentsAreSegmented(c: Cadence, data: seq<Item>)
    ensures Segmented(data, Segments(c, data))
  {
    forall i, j | 0 <= i < j < |data|
      ensures SegmentAt(c, data, i) <= SegmentAt(c, data, j)
      ensures SegmentAt(c, data, i) == SegmentAt(c, data, j) ==> data[j].value.Some?
      ensures SegmentAt(c, data, i) == SegmentAt(c, data, j) && data[i].value.Some? ==> data[i].time < data[j].time
    {
      SegmentsRise(c, data, i, j);
      if data[i].value.Some? { SameSegmentIffGapless(c, data, i, j); }
    }
  }

  /** A regular series, however sparse, is one line: with at least two gaps, all of them equal, before
      the recent part, no item opens a new segment. */
  lemma RegularSeriesIsOneSegment(data: seq<Item>, end: int, gap: int)
    requires |data| >= 3 && gap > 0
    requires forall i :: 0 <= i < |data| ==> data[i].value.Some? && !data[i].breakBefore && data[i].time < end - RECENT
    requires forall i :: 0 <= i < |data| - 1 ==> data[i + 1].time - data[i].time == gap
    ensures forall i :: 0 <= i < |data| ==> Segments(CadenceOf(data, end), data)[i] == 0
  {
    EqualGaps(data, end - RECENT, gap);
    EqualGapsAreAllowed(Gaps(data, end - RECENT), gap);
    var c := CadenceOf(data, end);
    forall i | 0 <= i < |data| ensures SegmentAt(c, data, i) == 0 {
      assert forall k :: 0 <= k < i ==> Joined(c, data[k], data[k + 1]);
      SameSegmentIffGapless(c, data, 0, i);
    }
  }

  lemma EqualGapsAreAllowed(gaps: seq<int>, gap: int)
    requires |gaps| >= 2 && gap > 0 && forall g :: g in gaps ==> g == gap
    ensures CoarseGap(gaps) >= gap as real
  {
    AscendingKeeps(gaps);
    var median := Ascending(gaps)[(|gaps| - 1) / 2];
    assert median in multiset(Ascending(gaps));
    assert median in gaps;
  }

  lemma {:induction false} EqualGaps(data: seq<Item>, recent: int, gap: int)
    requires data != [] && gap > 0
    requires forall i :: 0 <= i < |data| ==> !data[i].breakBefore && data[i].time < recent
    requires forall i :: 0 <= i < |data| - 1 ==> data[i + 1].time - data[i].time == gap
    ensures |Gaps(data, recent)| == |data| - 1
    ensures forall g :: g in Gaps(data, recent) ==> g == gap
  {
    if |data| >= 2 {
      var n := |data| - 1;
      EqualGaps(data[..n], recent, gap);
      assert data[n - 1 + 1].time - data[n - 1].time == gap;
    }
  }

  // ---------------------------------------------------------------- thinning

  /** The plotted stretch of time and the number of pixel buckets it is divided into. */
  datatype Pixels = Pixels(start: int, end: int, buckets: nat)

  function Bucket(px: Pixels, time: int): int {
    var width := if px.end - px.start < 1 then 1 else px.end - px.start;
    var at := (time - px.start) * px.buckets / width;
    var low := if at < 0 then 0 else at;
    if px.buckets - 1 < low then px.buckets - 1 else low
  }

  /** Column k of the plot holds the times with k * width <= (time - start) * buckets < (k + 1) * width; what lies
      before the plot belongs to the first column and what lies behind it to the last. */
  ghost predicate Column(px: Pixels, time: int, k: int) {
    var width := if px.start < px.end then px.end - px.start else 1;
    var x := (time - px.start) * px.buckets;
    0 <= k < px.buckets && (k == 0 || k * width <= x) && (k == px.buckets - 1 || x < (k + 1) * width)
  }

  lemma BucketIsColumn(px: Pixels, time: int, k: int)
    requires px.buckets >= 1
    ensures Column(px, time, k) <==> k == Bucket(px, time)
  {
    var width := if px.end - px.start < 1 then 1 else px.end - px.start;
    var x := (time - px.start) * px.buckets;
    QuotientIff(x, width, k);
    QuotientBounds(x, width, k);
    if k == 0 { QuotientBounds(x, width, 1); }
  }

  lemma QuotientIff(x: int, d: int, k: int)
    requires d > 0
    ensures k == x / d <==> k * d <= x < (k + 1) * d
  {
    QuotientBounds(x, d, k);
    QuotientBounds(x, d, k + 1);
  }

  lemma QuotientBounds(x: int, d: int, k: int)
    requires d > 0
    ensures k * d <= x <==> k <= x / d
  {
    var q := x / d;
    assert q * d <= x < q * d + d;
    if k <= q {
      assert (q - k) * d >= 0;
    } else {
      assert (k - q - 1) * d >= 0;
    }
  }

  lemma BucketsRise(px: Pixels, a: int, b: int)
    requires a <= b
    ensures Bucket(px, a) <= Bucket(px, b)
  {
    var width := if px.end - px.start < 1 then 1 else px.end - px.start;
    var x, y := (a - px.start) * px.buckets, (b - px.start) * px.buckets;
    assert x <= y by { assert (b - a) * px.buckets >= 0; }
    QuotientsRise(x, y, width);
  }

  lemma QuotientsRise(x: int, y: int, d: int)
    requires x <= y && d > 0
    ensures x / d <= y / d
  {
    assert d * (y / d + 1) == d * (y / d) + d;
    var m := y / d + 1 - x / d;
    assert d * m == d * (y / d + 1) - d * (x / d);
    PositiveFactor(d, m);
  }

  lemma PositiveFactor(d: int, m: int)
    requires d > 0 && d * m > 0
    ensures m > 0
  {
    assert m <= 0 ==> d * m <= 0;
  }

  /** The bucket of every item. */
  function Buckets(px: Pixels, data: seq<Item>): seq<int> {
    seq(|data|, i requires 0 <= i < |data| => Bucket(px, data[i].time))
  }

  /** The bucket numbers a series has: in range, and never falling when the series is sorted by time. */
  ghost predicate Placing(data: seq<Item>, at: seq<int>, buckets: nat) {
    && |at| == |data|
    && (forall i :: 0 <= i < |at| ==> 0 <= at[i] < buckets)
    && (TimeSorted(data) ==> forall i, j :: 0 <= i < j < |at| ==> at[i] <= at[j])
  }

  lemma BucketsPlace(px: Pixels, data: seq<Item>)
    requires px.buckets >= 1
    ensures Placing(data, Buckets(px, data), px.buckets)
  {
    forall i, j | 0 <= i < j < |data| && TimeSorted(data)
      ensures Bucket(px, data[i].time) <= Bucket(px, data[j].time)
    {
      BucketsRise(px, data[i].time, data[j].time);
    }
  }

  ghost predicate Rising(s: seq<nat>) {
    forall i, j :: 0 <= i < j < |s| ==> s[i] <= s[j]
  }

  ghost predicate StrictlyRising(s: seq<nat>) {
    forall i, j :: 0 <= i < j < |s| ==> s[i] < s[j]
  }

  ghost predicate Below(s: seq<nat>, bound: nat) {
    forall i :: 0 <= i < |s| ==> s[i] < bound
  }

  predicate Known(data: seq<Item>, i: nat) {
    i < |data| && data[i].value.Some?
  }

  /** Items lo and hi of the same segment and pixel bucket bracket item j. */
  ghost predicate Bracket(data: seq<Item>, seg: seq<nat>, at: seq<int>, j: nat, lo: nat, hi: nat) {
    && |seg| == |data| == |at| && Known(data, j) && Known(data, lo) && Known(data, hi)
    && seg[lo] == seg[j] == seg[hi]
    && at[lo] == at[j] == at[hi]
    && data[lo].value.value <= data[j].value.value <= data[hi].value.value
  }

  ghost predicate Bracketed(data: seq<Item>, seg: seq<nat>, at: seq<int>, selected: seq<nat>, j: nat) {
    exists lo, hi :: lo in selected && hi in selected && Bracket(data, seg, at, j, lo, hi)
  }

  /** A group under construction: the items first..i, all known, of one segment and one bucket. */
  ghost predicate Group(data: seq<Item>, seg: seq<nat>, at: seq<int>, first: nat, i: nat) {
    && first <= i <= |data| == |seg| == |at|
    && forall k :: first <= k < i ==> Known(data, k) && seg[k] == seg[first] && at[k] == at[first]
  }

  /** A group cannot reach across `b`. */
  ghost predicate Boundary(data: seq<Item>, seg: seq<nat>, at: seq<int>, b: nat) {
    && |seg| == |at| == |data|
    && (b == 0 || b == |data| ||
        (b < |data| &&
         !(Known(data, b - 1) && Known(data, b) && seg[b - 1] == seg[b] && at[b - 1] == at[b])))
  }

  /** The items from lo to hi are known and of one segment and one bucket. */
  ghost predicate Alike(data: seq<Item>, seg: seq<nat>, at: seq<int>, lo: nat, hi: nat) {
    lo <= hi < |data| && Group(data, seg, at, lo, hi + 1)
  }

  ghost predicate Joint(data: seq<Item>, seg: seq<nat>, at: seq<int>, j: nat, k: nat) {
    Alike(data, seg, at, j, k) || Alike(data, seg, at, k, j)
  }

  /** Item j is the first of the lowest values of its group. */
  ghost predicate FirstLowest(data: seq<Item>, seg: seq<nat>, at: seq<int>, j: nat)
    requires Known(data, j)
  {
    forall k: nat :: Joint(data, seg, at, j, k) && Known(data, k) ==>
                  && data[j].value.value <= data[k].value.value
                  && (k < j ==> data[j].value.value < data[k].value.value)
  }

  ghost predicate FirstHighest(data: seq<Item>, seg: seq<nat>, at: seq<int>, j: nat)
    requires Known(data, j)
  {
    forall k: nat :: Joint(data, seg, at, j, k) && Known(data, k) ==>
                  && data[k].value.value <= data[j].value.value
                  && (k < j ==> data[k].value.value < data[j].value.value)
  }

  /** What the thinning keeps: of each group the first of the lowest and the first of the highest values, and a
      missing item right behind a known one. */
  ghost predicate Chosen(data: seq<Item>, seg: seq<nat>, at: seq<int>, j: nat) {
    && j < |data|
    && if Known(data, j) then FirstLowest(data, seg, at, j) || FirstHighest(data, seg, at, j)
       else j > 0 && Known(data, j - 1)
  }

  /** The same for a stretch of known items. */
  ghost predicate LowestOf(data: seq<Item>, first: nat, i: nat, j: nat) {
    && first <= j < i <= |data| && (forall k :: first <= k < i ==> data[k].value.Some?)
    && forall k :: first <= k < i ==>
         && data[j].value.value <= data[k].value.value && (k < j ==> data[j].value.value < data[k].value.value)
  }

  ghost predicate HighestOf(data: seq<Item>, first: nat, i: nat, j: nat) {
    && first <= j < i <= |data| && (forall k :: first <= k < i ==> data[k].value.Some?)
    && forall k :: first <= k < i ==>
         && data[k].value.value <= data[j].value.value && (k < j ==> data[k].value.value < data[j].value.value)
  }

  /** Between two boundaries a group is all there is. */
  lemma JointInGroup(data: seq<Item>, seg: seq<nat>, at: seq<int>, first: nat, i: nat, j: nat, k: nat)
    requires Group(data, seg, at, first, i) && Boundary(data, seg, at, first) && Boundary(data, seg, at, i)
    requires first <= j < i
    ensures Joint(data, seg, at, j, k) <==> first <= k < i
  {
    if first <= k < i {
      var lo, hi := if j < k then j else k, if j < k then k else j;
      assert Known(data, lo) && seg[lo] == seg[first] && at[lo] == at[first];
      assert Alike(data, seg, at, lo, hi);
    } else if k < first {
      if Alike(data, seg, at, k, j) { AlikeInside(data, seg, at, k, j, first); }
    } else {
      if Alike(data, seg, at, j, k) { AlikeInside(data, seg, at, j, k, i); }
    }
  }

  lemma AlikeInside(data: seq<Item>, seg: seq<nat>, at: seq<int>, lo: nat, hi: nat, b: nat)
    requires Alike(data, seg, at, lo, hi) && lo < b <= hi
    ensures !Boundary(data, seg, at, b)
  {
    assert Known(data, b - 1) && seg[b - 1] == seg[lo] && at[b - 1] == at[lo];
    assert Known(data, b) && seg[b] == seg[lo] && at[b] == at[lo];
  }

  lemma ChosenInGroup(data: seq<Item>, seg: seq<nat>, at: seq<int>, first: nat, i: nat, j: nat)
    requires Group(data, seg, at, first, i) && Boundary(data, seg, at, first) && Boundary(data, seg, at, i)
    requires first <= j < i
    ensures Chosen(data, seg, at, j) <==> LowestOf(data, first, i, j) || HighestOf(data, first, i, j)
  {
    hide Joint;
    GroupIsKnown(data, seg, at, first, i);
    forall k: nat ensures Joint(data, seg, at, j, k) <==> first <= k < i {
      JointInGroup(data, seg, at, first, i, j, k);
    }
    if FirstLowest(data, seg, at, j) {
      assert forall k: nat :: first <= k < i ==> Joint(data, seg, at, j, k) && Known(data, k);
    }
    if FirstHighest(data, seg, at, j) {
      assert forall k: nat :: first <= k < i ==> Joint(data, seg, at, j, k) && Known(data, k);
    }
  }

  lemma GroupIsKnown(data: seq<Item>, seg: seq<nat>, at: seq<int>, first: nat, i: nat)
    requires Group(data, seg, at, first, i)
    ensures forall k :: first <= k < i ==> data[k].value.Some?
  {
    forall k | first <= k < i ensures data[k].value.Some? { assert Known(data, k); }
  }

  /** The extrema of a group, in order of time. */
  method Flush(data: seq<Item>, ghost seg: seq<nat>, ghost at: seq<int>, first: nat, i: nat) returns (added: seq<nat>)
    requires Segmented(data, seg) && Group(data, seg, at, first, i)
    ensures first == i ==> added == []
    ensures first < i ==> |added| == 2 && first <= added[0] <= added[1] < i
    ensures forall k :: first <= k < i ==> Bracketed(data, seg, at, added, k)
    ensures forall k: nat :: k in added <==> LowestOf(data, first, i, k) || HighestOf(data, first, i, k)
  {
    if first == i { return []; }
    GroupIsKnown(data, seg, at, first, i);
    var low, high := first, first;
    for item := first to i
      invariant first <= low < i && first <= high < i
      invariant forall k :: first <= k < item ==> data[low].value.value <= data[k].value.value <= data[high].value.value
      invariant forall k :: first <= k < low ==> data[low].value.value < data[k].value.value
      invariant forall k :: first <= k < high ==> data[k].value.value < data[high].value.value
    {
      if data[item].value.value < data[low].value.value { low := item; }
      if data[high].value.value < data[item].value.value { high := item; }
    }
    if data[low].time <= data[high].time { added := [low, high]; } else { added := [high, low]; }
    assert low in added && high in added;
    assert LowestOf(data, first, i, low) && HighestOf(data, first, i, high);
    forall k | first <= k < i ensures Bracketed(data, seg, at, added, k) {
      assert Bracket(data, seg, at, k, low, high);
    }
  }

  lemma StillBracketed(data: seq<Item>, seg: seq<nat>, at: seq<int>, selected: seq<nat>, more: seq<nat>)
    ensures forall j :: Bracketed(data, seg, at, selected, j) || Bracketed(data, seg, at, more, j) ==>
                          Bracketed(data, seg, at, selected + more, j)
  {
    forall j | Bracketed(data, seg, at, selected, j) || Bracketed(data, seg, at, more, j)
      ensures Bracketed(data, seg, at, selected + more, j)
    {
      if Bracketed(data, seg, at, selected, j) {
        var lo, hi :| lo in selected && hi in selected && Bracket(data, seg, at, j, lo, hi);
        assert lo in selected + more && hi in selected + more;
      } else {
        var lo, hi :| lo in more && hi in more && Bracket(data, seg, at, j, lo, hi);
        assert lo in selected + more && hi in selected + more;
      }
    }
  }

  // ---------------------------------------------------------------- counting groups

  /** How many of the selected items carry a value. */
  ghost function KnownCount(data: seq<Item>, selected: seq<nat>): nat {
    if selected == [] then 0
    else KnownCount(data, selected[..|selected| - 1]) + if Known(data, selected[|selected| - 1]) then 1 else 0
  }

  lemma {:induction false} KnownCountAppends(data: seq<Item>, a: seq<nat>, b: seq<nat>)
    ensures KnownCount(data, a + b) == KnownCount(data, a) + KnownCount(data, b)
  {
    if b == [] {
      assert a + b == a;
    } else {
      assert (a + b)[..|a + b| - 1] == a + b[..|b| - 1];
      KnownCountAppends(data, a, b[..|b| - 1]);
    }
  }

  lemma {:induction false} KnownCountBound(data: seq<Item>, s: seq<nat>)
    ensures KnownCount(data, s) <= |s|
  {
    if s != [] { KnownCountBound(data, s[..|s| - 1]); }
  }

  /** The segments that hold a known item among the first n. */
  ghost function KnownSegments(data: seq<Item>, seg: seq<nat>, n: nat): set<nat>
    requires n <= |data| == |seg|
  {
    set i | 0 <= i < n && Known(data, i) :: seg[i]
  }

  ghost predicate TimeSorted(data: seq<Item>) {
    forall i, j :: 0 <= i < j < |data| ==> data[i].time <= data[j].time
  }

  /** Known item i cannot join its predecessor's group. */
  predicate Starts(data: seq<Item>, seg: seq<nat>, at: seq<int>, i: nat)
    requires i < |data| == |seg| == |at|
  {
    Known(data, i) && !(i > 0 && Known(data, i - 1) && seg[i - 1] == seg[i] && at[i - 1] == at[i])
  }

  ghost function GroupCount(data: seq<Item>, seg: seq<nat>, at: seq<int>, n: nat): nat
    requires n <= |data| == |seg| == |at|
  {
    if n == 0 then 0 else GroupCount(data, seg, at, n - 1) + if Starts(data, seg, at, n - 1) then 1 else 0
  }

  /** On a time-sorted series the groups are paid for by segments and bucket steps; `newest` is the
      last known item among the first n. */
  lemma {:induction false} GroupsArePaid(data: seq<Item>, seg: seq<nat>, at: seq<int>, buckets: nat, n: nat)
    returns (newest: Option<nat>)
    requires Segmented(data, seg) && Placing(data, at, buckets) && TimeSorted(data) && n <= |data|
    ensures match newest
            case None => GroupCount(data, seg, at, n) == 0 && forall j :: 0 <= j < n ==> !Known(data, j)
            case Some(m) => m < n && Known(data, m) && (forall j :: m < j < n ==> !Known(data, j))
                            && GroupCount(data, seg, at, n) <= |KnownSegments(data, seg, n)| + at[m]
  {
    if n == 0 { return None; }
    var i := n - 1;
    newest := GroupsArePaid(data, seg, at, buckets, i);
    var before, after := KnownSegments(data, seg, i), KnownSegments(data, seg, n);
    if !Known(data, i) {
      assert before == after;
      return;
    }
    assert seg[i] in after && before <= after;
    Smaller(before, after);
    if newest.None? {
      Smaller({seg[i]}, after);
    } else {
      var m := newest.value;
      if seg[m] != seg[i] {
        assert seg[i] !in before;
        Smaller(before + {seg[i]}, after);
      } else {
        assert Known(data, i - 1) && m == i - 1;
      }
    }
    newest := Some(i);
  }

  lemma GroupsFit(data: seq<Item>, seg: seq<nat>, at: seq<int>, buckets: nat)
    requires Segmented(data, seg) && Placing(data, at, buckets) && TimeSorted(data) && buckets >= 1
    ensures GroupCount(data, seg, at, |data|) <= buckets + |KnownSegments(data, seg, |data|)| - 1
  {
    var newest := GroupsArePaid(data, seg, at, buckets, |data|);
  }

  // ---------------------------------------------------------------- the thinning loop

  /** What has been selected speaks for all known items before `bound`. */
  ghost predicate Selected(data: seq<Item>, seg: seq<nat>, at: seq<int>, selected: seq<nat>, bound: nat) {
    && bound <= |data| == |seg| == |at|
    && Rising(selected) && Below(selected, bound)
    && (forall j {:trigger Bracketed(data, seg, at, selected, j)} ::
          0 <= j < bound && Known(data, j) ==> Bracketed(data, seg, at, selected, j))
    && Exactly(data, seg, at, selected, bound)
  }

  ghost predicate Exactly(data: seq<Item>, seg: seq<nat>, at: seq<int>, selected: seq<nat>, bound: nat) {
    forall j: nat :: j < bound ==> (j in selected <==> Chosen(data, seg, at, j))
  }

  /** The last item selected is known exactly if the last one before `bound` is. */
  predicate EndsKnown(data: seq<Item>, selected: seq<nat>, bound: nat) {
    (selected != [] && Known(data, selected[|selected| - 1])) <==> (bound > 0 && Known(data, bound - 1))
  }

  /** Where the loop stands: a selection for the closed part and a group that reaches up to item i. */
  ghost predicate Progress(data: seq<Item>, seg: seq<nat>, at: seq<int>, selected: seq<nat>, first: nat, i: nat) {
    && Group(data, seg, at, first, i) && Boundary(data, seg, at, first)
    && Selected(data, seg, at, selected, first) && EndsKnown(data, selected, first)
  }

  /** Closing the group under construction. */
  method Close(data: seq<Item>, ghost seg: seq<nat>, ghost at: seq<int>, selected: seq<nat>, first: nat, i: nat)
    returns (r: seq<nat>)
    requires Segmented(data, seg) && Progress(data, seg, at, selected, first, i) && Boundary(data, seg, at, i)
    ensures Progress(data, seg, at, r, i, i)
    ensures KnownCount(data, r) <= KnownCount(data, selected) + if first == i then 0 else 2
  {
    var added := Flush(data, seg, at, first, i);
    r := selected + added;
    KnownCountAppends(data, selected, added);
    KnownCountBound(data, added);
    RisingAppends(selected, added, first, i);
    StillBracketed(data, seg, at, selected, added);
    ClosedExactly(data, seg, at, selected, added, first, i);
  }

  lemma ClosedExactly(data: seq<Item>, seg: seq<nat>, at: seq<int>, selected: seq<nat>, added: seq<nat>,
                      first: nat, i: nat)
    requires Group(data, seg, at, first, i) && Boundary(data, seg, at, first) && Boundary(data, seg, at, i)
    requires Below(selected, first) && Exactly(data, seg, at, selected, first)
    requires forall k: nat :: k in added <==> LowestOf(data, first, i, k) || HighestOf(data, first, i, k)
    ensures Exactly(data, seg, at, selected + added, i)
  {
    hide LowestOf, HighestOf, Chosen, Group, Boundary;
    forall j: nat | j < i ensures j in selected + added <==> Chosen(data, seg, at, j) {
      if first <= j {
        ChosenInGroup(data, seg, at, first, i, j);
      } else {
        NotInGroup(data, first, i, j);
      }
    }
  }

  lemma NotInGroup(data: seq<Item>, first: nat, i: nat, j: nat)
    requires j < first
    ensures !LowestOf(data, first, i, j) && !HighestOf(data, first, i, j)
  {
  }

  lemma RisingAppends(a: seq<nat>, b: seq<nat>, middle: nat, bound: nat)
    requires Rising(a) && Below(a, middle) && Rising(b) && Below(b, bound) && middle <= bound
    requires forall k :: 0 <= k < |b| ==> middle <= b[k]
    ensures Rising(a + b) && Below(a + b, bound)
  {
  }

  lemma MissingPasses(data: seq<Item>, seg: seq<nat>, at: seq<int>, selected: seq<nat>, i: nat)
    requires Progress(data, seg, at, selected, i, i) && i < |data| && !Known(data, i)
    ensures var r := if i > 0 && Known(data, i - 1) then selected + [i] else selected;
            Progress(data, seg, at, r, i + 1, i + 1)
    ensures KnownCount(data, selected + [i]) == KnownCount(data, selected)
  {
    hide Bracketed, Boundary, Chosen;
    KnownCountAppends(data, selected, [i]);
    RisingAppends(selected, [i], i, i + 1);
    MissingIsBoundary(data, seg, at, i);
    MissingIsExact(data, seg, at, selected, i);
    MissingEnds(data, selected, i);
    MissingIsBracketed(data, seg, at, selected, i);
    hide Exactly, Group, EndsKnown, Rising, Below, KnownCount, Known;
  }

  lemma MissingEnds(data: seq<Item>, selected: seq<nat>, i: nat)
    requires EndsKnown(data, selected, i) && i < |data| && !Known(data, i)
    ensures EndsKnown(data, if i > 0 && Known(data, i - 1) then selected + [i] else selected, i + 1)
  {
  }

  lemma MissingIsBracketed(data: seq<Item>, seg: seq<nat>, at: seq<int>, selected: seq<nat>, i: nat)
    requires i < |data| && !Known(data, i)
    requires forall j {:trigger Bracketed(data, seg, at, selected, j)} ::
               0 <= j < i && Known(data, j) ==> Bracketed(data, seg, at, selected, j)
    ensures forall j {:trigger Bracketed(data, seg, at, selected, j)} ::
              0 <= j < i + 1 && Known(data, j) ==> Bracketed(data, seg, at, selected, j)
    ensures forall j {:trigger Bracketed(data, seg, at, selected + [i], j)} ::
              0 <= j < i + 1 && Known(data, j) ==> Bracketed(data, seg, at, selected + [i], j)
  {
    StillBracketed(data, seg, at, selected, [i]);
    hide Bracketed;
    forall j | 0 <= j < i + 1 && Known(data, j)
      ensures Bracketed(data, seg, at, selected, j) && Bracketed(data, seg, at, selected + [i], j)
    {
      assert Bracketed(data, seg, at, selected, j);
    }
  }

  lemma MissingIsExact(data: seq<Item>, seg: seq<nat>, at: seq<int>, selected: seq<nat>, i: nat)
    requires Exactly(data, seg, at, selected, i) && Below(selected, i) && i < |data| && !Known(data, i)
    ensures Exactly(data, seg, at, if i > 0 && Known(data, i - 1) then selected + [i] else selected, i + 1)
  {
    assert Chosen(data, seg, at, i) <==> i > 0 && Known(data, i - 1);
    hide Chosen;
    assert forall k :: 0 <= k < |selected| ==> selected[k] != i;
    var r := if i > 0 && Known(data, i - 1) then selected + [i] else selected;
    forall j: nat | j < i + 1 ensures j in r <==> Chosen(data, seg, at, j) {
      if j < i { assert j in r <==> j in selected; }
    }
  }

  lemma MissingIsBoundary(data: seq<Item>, seg: seq<nat>, at: seq<int>, i: nat)
    requires i < |data| == |seg| == |at| && !Known(data, i)
    ensures Group(data, seg, at, i + 1, i + 1) && Boundary(data, seg, at, i + 1)
  {
  }

  /** Drops an item that repeats its predecessor. */
  function Dedup(s: seq<nat>): seq<nat> {
    if |s| < 2 then s
    else
      var n := |s| - 1;
      Dedup(s[..n]) + if s[n] == s[n - 1] then [] else [s[n]]
  }

  lemma {:induction false} DedupKeeps(s: seq<nat>)
    ensures forall x :: x in Dedup(s) <==> x in s
    ensures s != [] ==> Dedup(s) != [] && Dedup(s)[|Dedup(s)| - 1] == s[|s| - 1]
  {
    if |s| >= 2 {
      var n := |s| - 1;
      DedupKeeps(s[..n]);
      assert s == s[..n] + [s[n]];
      assert s[n - 1] in s[..n];
    }
  }

  lemma {:induction false} DedupIsStrict(s: seq<nat>)
    requires Rising(s)
    ensures StrictlyRising(Dedup(s))
  {
    if |s| >= 2 {
      var n := |s| - 1;
      DedupIsStrict(s[..n]);
      DedupKeeps(s[..n]);
      var d := Dedup(s[..n]);
      assert forall i :: 0 <= i < |d| ==> d[i] <= d[|d| - 1];
    }
  }

  lemma {:induction false} DedupCounts(data: seq<Item>, s: seq<nat>)
    ensures KnownCount(data, Dedup(s)) <= KnownCount(data, s)
  {
    if |s| >= 2 {
      var n := |s| - 1;
      DedupCounts(data, s[..n]);
      var d := Dedup(s[..n]);
      assert d + [] == d;
      assert s[n] != s[n - 1] ==> Dedup(s)[..|d|] == d && |Dedup(s)| == |d| + 1;
    }
  }

  /** The whole series, by index. */
  function All(n: nat): seq<nat> {
    seq(n, i => i)
  }

  /** What the thinned series promises of the full one. */
  ghost predicate Faithful(data: seq<Item>, seg: seq<nat>, at: seq<int>, out: seq<nat>) {
    && StrictlyRising(out) && Below(out, |data|)
    && forall j {:trigger Bracketed(data, seg, at, out, j)} ::
         0 <= j < |data| && Known(data, j) ==> Bracketed(data, seg, at, out, j)
  }

  /** The bucket of each item is its column of the plot. */
  ghost predicate InColumns(px: Pixels, data: seq<Item>, at: seq<int>) {
    |at| == |data| && forall i :: 0 <= i < |data| ==> Column(px, data[i].time, at[i])
  }

  lemma BucketsAreColumns(px: Pixels, data: seq<Item>)
    requires px.buckets >= 1
    ensures InColumns(px, data, Buckets(px, data))
  {
    forall i | 0 <= i < |data| ensures Column(px, data[i].time, Bucket(px, data[i].time)) {
      BucketIsColumn(px, data[i].time, Bucket(px, data[i].time));
    }
  }

  method DecimateSeries(data: seq<Item>, seg: seq<nat>, px: Pixels) returns (out: seq<nat>)
    requires px.buckets >= 1 && Segmented(data, seg)
    ensures Faithful(data, seg, Buckets(px, data), out) && InColumns(px, data, Buckets(px, data))
    ensures if |data| <= 2 * px.buckets then out == All(|data|)
            else forall j: nat :: j in out <==> Chosen(data, seg, Buckets(px, data), j)
    ensures TimeSorted(data) ==>
              KnownCount(data, out) <= 2 * (px.buckets + |KnownSegments(data, seg, |data|)| - 1)
  {
    hide Chosen, Bracketed, Column;
    BucketsPlace(px, data);
    BucketsAreColumns(px, data);
    if |data| <= px.buckets * 2 {
      out := All(|data|);
      AllIsFaithful(data, seg, Buckets(px, data));
      AllCounts(data, seg, px.buckets);
    } else {
      var selected := Select(data, seg, Buckets(px, data));
      if TimeSorted(data) { GroupsFit(data, seg, Buckets(px, data), px.buckets); }
      out := Dedup(selected);
      DedupIsFaithful(data, seg, Buckets(px, data), selected);
      DedupCounts(data, selected);
      DedupKeeps(selected);
      SelectedIsChosen(data, seg, Buckets(px, data), selected);
    }
  }

  lemma SelectedIsChosen(data: seq<Item>, seg: seq<nat>, at: seq<int>, selected: seq<nat>)
    requires Selected(data, seg, at, selected, |data|)
    ensures forall j: nat :: j in selected <==> Chosen(data, seg, at, j)
  {
    forall j: nat ensures j in selected <==> Chosen(data, seg, at, j) {
      if j < |data| { assert j in selected <==> Chosen(data, seg, at, j); }
    }
  }

  /** A known item joins the group under construction, or closes it and starts another. */
  method Place(data: seq<Item>, ghost seg: seq<nat>, ghost at: seq<int>, selected: seq<nat>, first: nat,
               i: nat, bucket: int, next: int) returns (selected': seq<nat>, first': nat)
    requires Segmented(data, seg) && Progress(data, seg, at, selected, first, i)
    requires i < |data| && Known(data, i) && next == at[i] && 0 <= next
    requires bucket == if first == i then -1 else at[first]
    requires first < i ==> seg[first] == seg[i]
    ensures Progress(data, seg, at, selected', first', i + 1) && first' == if bucket == next then first else i
    ensures KnownCount(data, selected') <=
            KnownCount(data, selected) + if first == i || bucket == next then 0 else 2
  {
    selected', first' := selected, first;
    if bucket != next {
      selected' := Close(data, seg, at, selected, first, i);
      first' := i;
    }
  }

  lemma LastSelected(data: seq<Item>, seg: seq<nat>, at: seq<int>, selected: seq<nat>, i: nat)
    requires Progress(data, seg, at, selected, i, i)
    ensures EndsKnown(data, selected, i)
  {
  }

  /** A missing item is kept only behind a known one. */
  method Skip(data: seq<Item>, ghost seg: seq<nat>, ghost at: seq<int>, selected: seq<nat>, i: nat)
    returns (selected': seq<nat>)
    requires Progress(data, seg, at, selected, i, i) && i < |data| && !Known(data, i)
    ensures Progress(data, seg, at, selected', i + 1, i + 1)
    ensures KnownCount(data, selected') == KnownCount(data, selected)
  {
    hide Progress;
    MissingPasses(data, seg, at, selected, i);
    LastSelected(data, seg, at, selected, i);
    selected' := if selected != [] && Known(data, selected[|selected| - 1]) then selected + [i] else selected;
  }

  /** The loop over a series that has to be thinned. The buffered group is the stretch from `first` on. */
  method Select(data: seq<Item>, seg: seq<nat>, at: seq<int>) returns (selected: seq<nat>)
    requires Segmented(data, seg) && |at| == |data| && forall i :: 0 <= i < |at| ==> 0 <= at[i]
    ensures Selected(data, seg, at, selected, |data|)
    ensures KnownCount(data, selected) <= 2 * GroupCount(data, seg, at, |data|)
  {
    selected := [];
    var bucket := -1;
    var segment: Option<nat> := None;
    var first: nat := 0;
    for i := 0 to |data|
      invariant Progress(data, seg, at, selected, first, i)
      invariant segment == if i == 0 then None else Some(seg[i - 1])
      invariant first < i <==> i > 0 && Known(data, i - 1)
      invariant bucket == if first == i then -1 else at[first]
      invariant KnownCount(data, selected) + (if first == i then 0 else 2) <= 2 * GroupCount(data, seg, at, i)
    {
      if segment != Some(seg[i]) {
        selected := Close(data, seg, at, selected, first, i);
        first, bucket, segment := i, -1, Some(seg[i]);
      }
      if data[i].value.None? {
        selected := Skip(data, seg, at, selected, i);
        first := i + 1;
      } else {
        selected, first := Place(data, seg, at, selected, first, i, bucket, at[i]);
        bucket := at[i];
      }
    }
    selected := Close(data, seg, at, selected, first, |data|);
  }

  lemma DedupIsFaithful(data: seq<Item>, seg: seq<nat>, at: seq<int>, selected: seq<nat>)
    requires Selected(data, seg, at, selected, |data|)
    ensures Faithful(data, seg, at, Dedup(selected))
  {
    var out := Dedup(selected);
    DedupIsStrict(selected);
    DedupKeeps(selected);
    forall i | 0 <= i < |out| ensures out[i] < |data| {
      assert out[i] in selected;
    }
    forall j | 0 <= j < |data| && Known(data, j) ensures Bracketed(data, seg, at, out, j) {
      assert Bracketed(data, seg, at, selected, j);
      var lo, hi :| lo in selected && hi in selected && Bracket(data, seg, at, j, lo, hi);
      assert lo in out && hi in out;
    }
  }

  lemma AllIsFaithful(data: seq<Item>, seg: seq<nat>, at: seq<int>)
    requires |at| == |seg| == |data|
    ensures Faithful(data, seg, at, All(|data|))
  {
    var all := All(|data|);
    forall j | 0 <= j < |data| && Known(data, j) ensures Bracketed(data, seg, at, all, j) {
      assert all[j] == j && Bracket(data, seg, at, j, j, j);
    }
  }

  lemma AllCounts(data: seq<Item>, seg: seq<nat>, buckets: nat)
    requires |seg| == |data| <= buckets * 2 && buckets >= 1
    ensures KnownCount(data, All(|data|)) <= 2 * (buckets + |KnownSegments(data, seg, |data|)| - 1)
  {
    if j :| 0 <= j < |data| && Known(data, j) {
      KnownCountBound(data, All(|data|));
      Smaller({seg[j]}, KnownSegments(data, seg, |data|));
    } else {
      NoneKnown(data, All(|data|));
    }
  }

  lemma {:induction false} NoneKnown(data: seq<Item>, s: seq<nat>)
    requires forall j :: 0 <= j < |data| ==> !Known(data, j)
    ensures KnownCount(data, s) == 0
  {
    if s != [] { NoneKnown(data, s[..|s| - 1]); }
  }

  /** The extreme values of every segment, hence of the whole series, survive the thinning. */
  lemma ExtremaSurvive(data: seq<Item>, seg: seq<nat>, at: seq<int>, out: seq<nat>, j: nat)
    requires Faithful(data, seg, at, out) && Known(data, j) && |seg| == |data| == |at|
    ensures (forall k :: 0 <= k < |data| && Known(data, k) && seg[k] == seg[j] ==>
               data[j].value.value <= data[k].value.value) ==>
              exists lo :: lo in out && Known(data, lo) && seg[lo] == seg[j] && data[lo].value == data[j].value
    ensures (forall k :: 0 <= k < |data| && Known(data, k) && seg[k] == seg[j] ==>
               data[k].value.value <= data[j].value.value) ==>
              exists hi :: hi in out && Known(data, hi) && seg[hi] == seg[j] && data[hi].value == data[j].value
  {
    assert Bracketed(data, seg, at, out, j);
    var lo, hi :| lo in out && hi in out && Bracket(data, seg, at, j, lo, hi);
    assert Known(data, lo) && Known(data, hi);
  }

  // ---------------------------------------------------------------- drawing

  datatype Stroke = MoveTo(at: nat) | LineTo(start: nat, at: nat)

  function StrokesAt(data: seq<Item>, seg: seq<nat>, visible: seq<nat>, k: nat): seq<Stroke>
    requires |seg| == |data| && k < |visible| && forall i :: 0 <= i < |visible| ==> visible[i] < |data|
  {
    if !Known(data, visible[k]) then []
    else if k > 0 && Known(data, visible[k - 1]) && seg[visible[k - 1]] == seg[visible[k]]
    then [LineTo(visible[k - 1], visible[k])]
    else [MoveTo(visible[k])]
  }

  ghost function Strokes(data: seq<Item>, seg: seq<nat>, visible: seq<nat>, n: nat): seq<Stroke>
    requires |seg| == |data| && n <= |visible| && forall i :: 0 <= i < |visible| ==> visible[i] < |data|
  {
    if n == 0 then [] else Strokes(data, seg, visible, n - 1) + StrokesAt(data, seg, visible, n - 1)
  }

  /** The draw loop: lift the pen at a missing item and at a new segment. */
  method DrawSeries(data: seq<Item>, seg: seq<nat>, visible: seq<nat>) returns (strokes: seq<Stroke>)
    requires |seg| == |data| && forall i :: 0 <= i < |visible| ==> visible[i] < |data|
    ensures strokes == Strokes(data, seg, visible, |visible|)
  {
    strokes := [];
    var previous: Option<nat> := None;
    for k := 0 to |visible|
      invariant strokes == Strokes(data, seg, visible, k)
      invariant previous == if k > 0 && Known(data, visible[k - 1]) then Some(visible[k - 1]) else None
    {
      var item := visible[k];
      if data[item].value.None? {
        previous := None;
        assert StrokesAt(data, seg, visible, k) == [];
      } else {
        if previous.None? || seg[item] != seg[previous.value] {
          strokes := strokes + [MoveTo(item)];
        } else {
          strokes := strokes + [LineTo(previous.value, item)];
        }
        previous := Some(item);
      }
    }
  }

  lemma {:induction false} StrokeOrigin(data: seq<Item>, seg: seq<nat>, visible: seq<nat>, n: nat, s: Stroke)
    requires |seg| == |data| && n <= |visible| && forall i :: 0 <= i < |visible| ==> visible[i] < |data|
    ensures s in Strokes(data, seg, visible, n) <==> exists k :: 0 <= k < n && s in StrokesAt(data, seg, visible, k)
  {
    if n > 0 { StrokeOrigin(data, seg, visible, n - 1, s); }
  }

  /** A line is drawn between two neighbouring visible points exactly when no gap lies between them in
      the full series, however many points the thinning left out; and no other line is drawn. */
  lemma DrawnIffGapless(c: Cadence, data: seq<Item>, visible: seq<nat>)
    requires StrictlyRising(visible) && Below(visible, |data|)
    ensures var strokes := Strokes(data, Segments(c, data), visible, |visible|);
            && (forall k :: 0 <= k < |visible| - 1 && Known(data, visible[k]) && Known(data, visible[k + 1]) ==>
                 (LineTo(visible[k], visible[k + 1]) in strokes <==> Gapless(c, data, visible[k], visible[k + 1])))
            && forall a: nat, b: nat :: LineTo(a, b) in strokes ==> a < b < |data| && Gapless(c, data, a, b)
  {
    var seg := Segments(c, data);
    var strokes := Strokes(data, seg, visible, |visible|);
    forall a: nat, b: nat | LineTo(a, b) in strokes ensures a < b < |data| && Gapless(c, data, a, b) {
      StrokeOrigin(data, seg, visible, |visible|, LineTo(a, b));
      var k :| 0 <= k < |visible| && LineTo(a, b) in StrokesAt(data, seg, visible, k);
      SameSegmentIffGapless(c, data, a, b);
    }
    forall k | 0 <= k < |visible| - 1 && Known(data, visible[k]) && Known(data, visible[k + 1])
      ensures LineTo(visible[k], visible[k + 1]) in strokes <==> Gapless(c, data, visible[k], visible[k + 1])
    {
      StrokeOrigin(data, seg, visible, |visible|, LineTo(visible[k], visible[k + 1]));
      SameSegmentIffGapless(c, data, visible[k], visible[k + 1]);
      assert seg[visible[k]] == seg[visible[k + 1]] ==>
               StrokesAt(data, seg, visible, k + 1) == [LineTo(visible[k], visible[k + 1])];
    }
  }

  /** Item a reaches item b without a missing value, an interruption or a gap above the allowance. */
  ghost predicate Reaches(data: seq<Item>, end: int, coarse: real, a: nat, b: nat) {
    && a <= b < |data| && (forall k :: a <= k <= b ==> data[k].value.Some?)
    && forall k :: a <= k < b ==> Linked(end, coarse, data[k], data[k + 1])
  }

  /** One stroke for each known visible item, in order: a line from the visible item before it if that one is known
      and reaches it in the full series, and otherwise a lifted pen. */
  ghost predicate Drawn(data: seq<Item>, end: int, coarse: real, visible: seq<nat>, strokes: seq<Stroke>) {
    && |strokes| == KnownCount(data, visible)
    && forall k :: 0 <= k < |visible| && Known(data, visible[k]) ==>
         && KnownCount(data, visible[..k]) < |strokes|
         && strokes[KnownCount(data, visible[..k])] ==
            if k > 0 && Known(data, visible[k - 1]) && Reaches(data, end, coarse, visible[k - 1], visible[k])
            then LineTo(visible[k - 1], visible[k]) else MoveTo(visible[k])
  }

  lemma {:induction false} StrokesInOrder(data: seq<Item>, seg: seq<nat>, visible: seq<nat>, n: nat)
    requires |seg| == |data| && n <= |visible| && forall i :: 0 <= i < |visible| ==> visible[i] < |data|
    ensures |Strokes(data, seg, visible, n)| == KnownCount(data, visible[..n])
    ensures forall k :: 0 <= k < n && Known(data, visible[k]) ==>
              && KnownCount(data, visible[..k]) < |Strokes(data, seg, visible, n)|
              && [Strokes(data, seg, visible, n)[KnownCount(data, visible[..k])]] == StrokesAt(data, seg, visible, k)
  {
    if n > 0 {
      StrokesInOrder(data, seg, visible, n - 1);
      assert visible[..n][..n - 1] == visible[..n - 1];
      assert |StrokesAt(data, seg, visible, n - 1)| == if Known(data, visible[n - 1]) then 1 else 0;
      hide StrokesAt, Known;
      var before, all := Strokes(data, seg, visible, n - 1), Strokes(data, seg, visible, n);
      assert all == before + StrokesAt(data, seg, visible, n - 1);
      forall k | 0 <= k < n && Known(data, visible[k])
        ensures KnownCount(data, visible[..k]) < |all|
        ensures [all[KnownCount(data, visible[..k])]] == StrokesAt(data, seg, visible, k)
      {
        if k < n - 1 { assert all[KnownCount(data, visible[..k])] == before[KnownCount(data, visible[..k])]; }
      }
    }
  }

  lemma StrokesAreDrawn(data: seq<Item>, end: int, visible: seq<nat>)
    requires StrictlyRising(visible) && Below(visible, |data|)
    ensures var c := CadenceOf(data, end);
            Drawn(data, end, c.coarse, visible, Strokes(data, Segments(c, data), visible, |visible|))
  {
    var c := CadenceOf(data, end);
    var seg := Segments(c, data);
    StrokesInOrder(data, seg, visible, |visible|);
    assert visible[..|visible|] == visible;
    hide StrictlyRising;
    forall k: nat | k < |visible| && Known(data, visible[k])
      ensures StrokesAt(data, seg, visible, k) ==
              [if k > 0 && Known(data, visible[k - 1]) && Reaches(data, end, c.coarse, visible[k - 1], visible[k])
               then LineTo(visible[k - 1], visible[k]) else MoveTo(visible[k])]
    {
      OneStroke(data, end, visible, k);
    }
    hide *;
    StrokesMakeUp(data, end, c.coarse, seg, visible);
  }

  lemma StrokesMakeUp(data: seq<Item>, end: int, coarse: real, seg: seq<nat>, visible: seq<nat>)
    requires |seg| == |data| && forall i :: 0 <= i < |visible| ==> visible[i] < |data|
    requires |Strokes(data, seg, visible, |visible|)| == KnownCount(data, visible)
    requires forall k :: 0 <= k < |visible| && Known(data, visible[k]) ==>
               && KnownCount(data, visible[..k]) < |Strokes(data, seg, visible, |visible|)|
               && [Strokes(data, seg, visible, |visible|)[KnownCount(data, visible[..k])]] ==
                  StrokesAt(data, seg, visible, k)
    requires forall k: nat :: k < |visible| && Known(data, visible[k]) ==>
               StrokesAt(data, seg, visible, k) ==
               [if k > 0 && Known(data, visible[k - 1]) && Reaches(data, end, coarse, visible[k - 1], visible[k])
                then LineTo(visible[k - 1], visible[k]) else MoveTo(visible[k])]
    ensures Drawn(data, end, coarse, visible, Strokes(data, seg, visible, |visible|))
  {
    hide Strokes, StrokesAt, Reaches, KnownCount, Known;
  }

  lemma OneStroke(data: seq<Item>, end: int, visible: seq<nat>, k: nat)
    requires StrictlyRising(visible) && Below(visible, |data|) && k < |visible| && Known(data, visible[k])
    ensures var c := CadenceOf(data, end);
            StrokesAt(data, Segments(c, data), visible, k) ==
            [if k > 0 && Known(data, visible[k - 1]) && Reaches(data, end, c.coarse, visible[k - 1], visible[k])
             then LineTo(visible[k - 1], visible[k]) else MoveTo(visible[k])]
  {
    hide CoarseGap, Linked, Reaches, Gapless;
    var c := CadenceOf(data, end);
    if k > 0 && Known(data, visible[k - 1]) {
      SameSegmentIffGapless(c, data, visible[k - 1], visible[k]);
      GaplessReaches(data, end, visible[k - 1], visible[k]);
    }
  }

  lemma GaplessReaches(data: seq<Item>, end: int, a: nat, b: nat)
    requires a <= b < |data|
    ensures Gapless(CadenceOf(data, end), data, a, b) <==> Reaches(data, end, CadenceOf(data, end).coarse, a, b)
  {
    hide CoarseGap;
    forall k | a <= k < b
      ensures Joined(CadenceOf(data, end), data[k], data[k + 1]) <==>
              Linked(end, CadenceOf(data, end).coarse, data[k], data[k + 1])
    {
      JoinedInNumbers(data, end, data[k], data[k + 1]);
    }
  }

  /** One series of `render`: split, thin, draw. Lines never bridge a gap of the full series, every known sample is
      bracketed by drawn ones of its own segment and pixel column, and of a series too long for the plot exactly the
      first extremes of each group are drawn. */
  method Polyline(data: seq<Item>, px: Pixels) returns (visible: seq<nat>, strokes: seq<Stroke>)
    requires px.buckets >= 1
    ensures var c := CadenceOf(data, px.end);
            && Paced(data, px.end, c.coarse) && Numbered(data, px.end, c.coarse, Segments(c, data))
            && Faithful(data, Segments(c, data), Buckets(px, data), visible) && InColumns(px, data, Buckets(px, data))
            && (if |data| <= 2 * px.buckets then visible == All(|data|)
                else forall j: nat :: j in visible <==> Chosen(data, Segments(c, data), Buckets(px, data), j))
            && Drawn(data, px.end, c.coarse, visible, strokes)
  {
    hide Paced, Numbered, InColumns, Chosen, Bracketed, Drawn, CoarseGap, Gaps;
    var c := CadenceOf(data, px.end);
    var seg := SegmentSeries(data, px.end);
    SegmentsInNumbers(data, px.end);
    SegmentsAreSegmented(c, data);
    visible := DecimateSeries(data, seg, px);
    strokes := DrawSeries(data, seg, visible);
    StrokesAreDrawn(data, px.end, visible);
  }
}
