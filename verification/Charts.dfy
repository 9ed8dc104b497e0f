/** The Charts object: how a telemetry payload changes the store, what every reachable store
    satisfies, and why incremental upkeep equals compacting the whole log at once. */
module ChartsModel {
  import opened Collections
  import opened Wrappers
  import opened TelemetryStore

  /** A cheap fingerprint of the history list: its length and its first and last stamps. */
  datatype Revision = Revision(length: nat, first: Option<int>, last: Option<int>)

  function Stamp(value: Option<Sample>): Option<int> {
    if value.Some? then Some(value.value.time) else None
  }

  function HistoryRevision(history: seq<Option<Sample>>): Revision {
    if history == [] then Revision(0, None, None)
    else Revision(|history|, Stamp(history[0]), Stamp(history[|history| - 1]))
  }

  datatype Store = Store(samples: seq<Sample>, revision: Option<Revision>, maintenanceAt: int)

  const FRESH := Store([], None, 0)

  predicate Rebuilds(store: Store, now: int, history: seq<Option<Sample>>) {
    Some(HistoryRevision(history)) != store.revision || now >= store.maintenanceAt
  }

  /** The values a rebuild reads: the store, a history that changed, and the new point. */
  function Sources(store: Store, history: seq<Option<Sample>>, point: Option<Sample>): seq<Option<Sample>> {
    Wrap(store.samples)
    + (if Some(HistoryRevision(history)) != store.revision then history else [])
    + [point]
  }

  /** The specification of one update. */
  ghost function Updated(store: Store, now: int, history: seq<Option<Sample>>, point: Option<Sample>): Store
    requires Increasing(store.samples)
  {
    if Rebuilds(store, now, history) then
      Store(Normal(Sources(store, history, point), now), Some(HistoryRevision(history)), now + BUCKET)
    else if Admitted(point, now) then
      store.(samples := if point.value.time < now - RECENT
                        then Normal(Wrap(store.samples) + [point], now)
                        else Inserted(store.samples, point.value, now - WINDOW))
    else store
  }

  /** Equal fingerprints mean lists of one length whose first and last entries have the same times. */
  lemma RevisionTells(a: seq<Option<Sample>>, b: seq<Option<Sample>>)
    ensures HistoryRevision(a) == HistoryRevision(b) <==>
            |a| == |b| && (a != [] ==> SameTime(a[0], b[0]) && SameTime(a[|a| - 1], b[|b| - 1]))
  {
  }

  predicate SameTime(a: Option<Sample>, b: Option<Sample>) {
    a.Some? == b.Some? && (a.Some? ==> a.value.time == b.value.time)
  }

  /** The point is put in, one of the same time makes room for it, and what is older than thirty days goes, as does
      what has 9000 later ones. */
  ghost predicate PutIn(s: seq<Sample>, p: Sample, now: int, r: seq<Sample>) {
    && Increasing(r) && |r| <= 9000
    && (forall q :: q in r ==> q.time >= now - 2592000000 && (q == p || (q in s && q.time != p.time)))
    && forall q: Sample :: q.time >= now - 2592000000 && (q == p || (q in s && q.time != p.time)) ==>
                     q in r || (|r| == 9000 && q.time < r[0].time)
  }

  /** One update in the numbers of the clock: when it rebuilds and from what, when it only puts the point in, and
      when the next rebuild is due. */
  ghost predicate Upkept(store: Store, now: int, history: seq<Option<Sample>>, point: Option<Sample>, r: Store) {
    var changed := store.revision != Some(HistoryRevision(history));
    && r.revision == Some(HistoryRevision(history))
    && (if changed || now >= store.maintenanceAt then
          && r.maintenanceAt == now + 300000
          && Rebuilt(Wrap(store.samples) + (if changed then history else []) + [point], now, r.samples)
        else
          && r.maintenanceAt == store.maintenanceAt
          && if point.None? || !InTime(point.value.time, now) then r.samples == store.samples
             else if point.value.time < now - 900000 then Rebuilt(Wrap(store.samples) + [point], now, r.samples)
             else PutIn(store.samples, point.value, now, r.samples))
  }

  lemma InsertedIsPutIn(s: seq<Sample>, p: Sample, now: int)
    requires Increasing(s)
    ensures PutIn(s, p, now, Inserted(s, p, now - WINDOW))
  {
    hide ByTime, Trim, Increasing, Replace, From, DistinctTimes;
    var kept := From(Replace(Elements(s), p), now - WINDOW);
    ReplaceDistinct(s, p, now - WINDOW);
    InsertedIsSound(s, p, now - WINDOW);
    KeptInNumbers(s, p, now);
    TrimmedKeeps(kept);
    hide Inserted, Elements;
  }

  lemma KeptInNumbers(s: seq<Sample>, p: Sample, now: int)
    ensures forall q :: q in From(Replace(Elements(s), p), now - WINDOW) <==>
              q.time >= now - 2592000000 && (q == p || (q in s && q.time != p.time))
  {
  }

  lemma TrimmedKeeps(kept: set<Sample>)
    requires DistinctTimes(kept)
    ensures var r := Trim(ByTime(kept));
            && (forall q :: q in r ==> q in kept)
            && forall q :: q in kept ==> q in r || (|r| == 9000 && q.time < r[0].time)
  {
    hide ByTime, DistinctTimes;
    var all := ByTime(kept);
    forall q | q in kept ensures q in Trim(all) || (|Trim(all)| == 9000 && q.time < Trim(all)[0].time) {
      hide Trim;
      assert q in Elements(all);
      TrimDropsTheOldest(all, q);
    }
    forall q | q in Trim(all) ensures q in kept {
      assert q in Elements(all);
    }
  }

  lemma UpdateInNumbers(store: Store, now: int, history: seq<Option<Sample>>, point: Option<Sample>)
    requires Increasing(store.samples)
    ensures Upkept(store, now, history, point, Updated(store, now, history, point))
  {
    hide Normal, Inserted, HistoryRevision, Wrap, Rebuilt, PutIn;
    RebuildInNumbers(Sources(store, history, point), now);
    RebuildInNumbers(Wrap(store.samples) + [point], now);
    if point.Some? { InsertedIsPutIn(store.samples, point.value, now); }
  }

  class Charts {
    var samples: seq<Sample>
    var historyRevision: Option<Revision>
    var maintenanceAt: int
    ghost var latest: int  // the latest clock reading seen so far

    ghost predicate Valid()
      reads this
    {
      && Increasing(samples) && |samples| <= CAP
      && forall p :: p in samples ==> p.time <= latest + AHEAD
    }

    ghost function State(): Store
      reads this
    {
      Store(samples, historyRevision, maintenanceAt)
    }

    constructor ()
      ensures Valid() && State() == FRESH
    {
      samples, historyRevision, maintenanceAt, latest := [], None, 0, 0;
    }

    /** `payload.history`, `payload.sample` after the snapshot reader, and the clock are the arguments. */
    method Update(now: int, history: seq<Option<Sample>>, point: Option<Sample>)
      requires Valid()
      modifies this
      ensures Valid() && State() == Updated(old(State()), now, history, point)
      ensures Upkept(old(State()), now, history, point, State())
      ensures latest == if old(latest) < now then now else old(latest)
    {
      hide Normal, Inserted, HistoryRevision, Wrap, Rebuilt, Upkept;
      ghost var store := State();
      UpdateInNumbers(store, now, history, point);
      UpdatedIsSound(store, now, history, point);
      var revision := HistoryRevision(history);
      var historyChanged := Some(revision) != historyRevision;
      if historyChanged || now >= maintenanceAt {
        var values := Wrap(samples) + (if historyChanged then history else []) + [point];
        samples := NormalizeSamples(values, now);
        historyRevision := Some(revision);
        maintenanceAt := now + BUCKET;
      } else if Admitted(point, now) {
        if point.value.time < now - RECENT {
          samples := NormalizeSamples(Wrap(samples) + [point], now);
        } else {
          samples := InsertSample(samples, point.value, now - WINDOW);
        }
      }
      latest := if latest < now then now else latest;
    }

    method Clear()
      modifies this
      ensures Valid() && State() == FRESH && latest == old(latest)
    {
      samples, historyRevision, maintenanceAt := [], None, 0;
    }

    /** The samples with start <= time, and time <= end when an end is given. */
    method PointsBetween(start: int, end: Option<int>) returns (r: seq<Sample>)
      requires Valid()
      ensures r == Between(samples, start, end) && Increasing(r)
      ensures forall p :: p in r <==> p in samples && start <= p.time && (end.Some? ==> p.time <= end.value)
    {
      hide Between;
      var first := LowerBound(samples, start);
      var low := UpperBound(samples, first, end);
      r := samples[first..low];
      BetweenIsSlice(samples, start, end, first, low);
      SliceHolds(samples, start, end, first, low);
    }
  }

  /** The first index from `first` on whose time is after the end. */
  method UpperBound(s: seq<Sample>, first: nat, end: Option<int>) returns (low: nat)
    requires Increasing(s) && first <= |s|
    ensures first <= low <= |s|
    ensures forall i :: first <= i < low ==> NotAfter(s[i].time, end)
    ensures forall i :: low <= i < |s| ==> !NotAfter(s[i].time, end)
  {
    low := first;
    var high := |s|;
    while low < high
      invariant first <= low <= high <= |s|
      invariant forall i :: first <= i < low ==> NotAfter(s[i].time, end)
      invariant forall i :: high <= i < |s| ==> !NotAfter(s[i].time, end)
    {
      var middle := (low + high) / 2;
      if NotAfter(s[middle].time, end) { low := middle + 1; } else { high := middle; }
    }
  }

  // ---------------------------------------------------------------- reachable stores

  lemma NormalIsSound(values: seq<Option<Sample>>, now: int)
    ensures Increasing(Normal(values, now)) && |Normal(values, now)| <= CAP
    ensures forall p :: p in Normal(values, now) ==> InWindow(p.time, now)
  {
    SurvivorsDistinct(values, now);
    TrimKeeps(ByTime(Survivors(values, now)));
  }

  lemma TrimKeeps(s: seq<Sample>)
    requires Increasing(s)
    ensures Increasing(Trim(s)) && |Trim(s)| <= CAP
    ensures forall p :: p in Trim(s) ==> p in Elements(s)
  {
  }

  lemma InsertedIsSound(s: seq<Sample>, p: Sample, cutoff: int)
    requires Increasing(s)
    ensures Increasing(Inserted(s, p, cutoff)) && |Inserted(s, p, cutoff)| <= CAP
    ensures forall q :: q in Inserted(s, p, cutoff) ==> q.time >= cutoff && (q in s || q == p)
  {
    hide ByTime, Trim, Increasing, DistinctTimes;
    ReplaceDistinct(s, p, cutoff);
    TrimKeeps(ByTime(From(Replace(Elements(s), p), cutoff)));
  }

  /** What an update leaves: an increasing, capped store of points that were there or fit the window. */
  lemma UpdatedIsSound(store: Store, now: int, history: seq<Option<Sample>>, point: Option<Sample>)
    requires Increasing(store.samples)
    ensures var r := Updated(store, now, history, point).samples;
            && Increasing(r)
            && (|store.samples| <= CAP ==> |r| <= CAP)
            && forall p :: p in r ==> p in store.samples || InWindow(p.time, now)
  {
    NormalIsSound(Sources(store, history, point), now);
    NormalIsSound(Wrap(store.samples) + [point], now);
    if point.Some? { InsertedIsSound(store.samples, point.value, now - WINDOW); }
  }

  // ---------------------------------------------------------------- range queries

  predicate NotAfter(time: int, end: Option<int>) {
    end.None? || time <= end.value
  }

  /** The plain filter that the two binary searches stand for. */
  function Between(s: seq<Sample>, start: int, end: Option<int>): seq<Sample> {
    if s == [] then []
    else if start <= s[0].time && NotAfter(s[0].time, end) then [s[0]] + Between(s[1..], start, end)
    else Between(s[1..], start, end)
  }

  lemma SliceHolds(s: seq<Sample>, start: int, end: Option<int>, first: nat, last: nat)
    requires Increasing(s) && first <= last <= |s|
    requires forall i :: 0 <= i < first ==> s[i].time < start
    requires forall i :: first <= i < |s| ==> start <= s[i].time
    requires forall i :: first <= i < last ==> NotAfter(s[i].time, end)
    requires forall i :: last <= i < |s| ==> !NotAfter(s[i].time, end)
    ensures Increasing(s[first..last])
    ensures forall p :: p in s[first..last] <==> p in s && start <= p.time && (end.Some? ==> p.time <= end.value)
  {
    forall p | p in s && start <= p.time && (end.Some? ==> p.time <= end.value) ensures p in s[first..last] {
      var i :| 0 <= i < |s| && s[i] == p;
      assert s[first..last][i - first] == p;
    }
  }

  lemma {:induction false} BetweenIsSlice(s: seq<Sample>, start: int, end: Option<int>, first: nat, last: nat)
    requires first <= last <= |s|
    requires forall i :: 0 <= i < first ==> s[i].time < start
    requires forall i :: first <= i < |s| ==> start <= s[i].time
    requires forall i :: first <= i < last ==> NotAfter(s[i].time, end)
    requires forall i :: last <= i < |s| ==> !NotAfter(s[i].time, end)
    ensures Between(s, start, end) == s[first..last]
  {
    if s == [] {
    } else if first > 0 {
      BetweenIsSlice(s[1..], start, end, first - 1, last - 1);
      assert s[1..][first - 1..last - 1] == s[first..last];
    } else if last > 0 {
      BetweenIsSlice(s[1..], start, end, 0, last - 1);
      assert [s[0]] + s[1..][0..last - 1] == s[0..last];
    } else {
      BetweenIsSlice(s[1..], start, end, 0, 0);
    }
  }

  // ---------------------------------------------------------------- the fast insert refines the rebuild

  /** A store that a rebuild at `now` would leave alone. */
  ghost predicate Normalised(s: seq<Sample>, now: int) {
    && Increasing(s) && |s| <= CAP
    && (forall p :: p in s ==> InWindow(p.time, now))
    && forall i, j :: 0 <= i < j < |s| ==> Key(s[i].time, now) != Key(s[j].time, now)
  }

  lemma NormalisedSurvive(s: seq<Sample>, now: int)
    requires Normalised(s, now)
    ensures Survivors(Wrap(s), now) == Elements(s)
  {
    forall p | p in s ensures p in Survivors(Wrap(s), now) {
      var i :| 0 <= i < |s| && s[i] == p;
      assert Survives(Wrap(s), i, now) && Wrap(s)[i].value == p;
    }
  }

  /** Normalised stores are exactly the fixed points of the rebuild. */
  lemma NormalisedIffFixed(s: seq<Sample>, now: int)
    ensures Normalised(s, now) <==> Normal(Wrap(s), now) == s
  {
    if Normalised(s, now) {
      NormalisedSurvive(s, now);
      SurvivorsDistinct(Wrap(s), now);
      IncreasingUnique(ByTime(Survivors(Wrap(s), now)), s);
    }
    if Normal(Wrap(s), now) == s {
      RebuildNormalises(Wrap(s), now);
    }
  }

  lemma SurvivorsKeys(values: seq<Option<Sample>>, now: int, p: Sample, q: Sample)
    requires p in Survivors(values, now) && q in Survivors(values, now) && p != q
    ensures Key(p.time, now) != Key(q.time, now)
  {
    var i :| 0 <= i < |values| && Survives(values, i, now) && values[i].value == p;
    var j :| 0 <= j < |values| && Survives(values, j, now) && values[j].value == q;
  }

  /** Every rebuild ends in a normalised store. */
  lemma RebuildNormalises(values: seq<Option<Sample>>, now: int)
    ensures Normalised(Normal(values, now), now)
  {
    var r := Normal(values, now);
    SurvivorsDistinct(values, now);
    NormalIsSound(values, now);
    var all := ByTime(Survivors(values, now));
    forall i, j | 0 <= i < j < |r| ensures Key(r[i].time, now) != Key(r[j].time, now) {
      assert r[i] in all && r[j] in all;
      assert r[i] in Elements(all) && r[j] in Elements(all);
      SurvivorsKeys(values, now, r[i], r[j]);
    }
  }

  /** On a normalised store the fast insert of a recent point is the full rebuild with that point. */
  lemma FastInsertIsRebuild(s: seq<Sample>, p: Sample, now: int)
    requires Normalised(s, now) && now - RECENT <= p.time <= now + AHEAD
    ensures Inserted(s, p, now - WINDOW) == Normal(Wrap(s) + [Some(p)], now)
  {
    var values := Wrap(s) + [Some(p)];
    SurvivorsSnoc(Wrap(s), Some(p), now);
    NormalisedSurvive(s, now);
    ReplaceDistinct(s, p, now - WINDOW);
    SurvivorsDistinct(values, now);
    assert forall q :: q in Elements(s) ==> (Key(q.time, now) == Key(p.time, now) <==> q.time == p.time);
    assert From(Replace(Elements(s), p), now - WINDOW) == Survivors(values, now);
  }

  // ---------------------------------------------------------------- compaction of sets of points

  /** The survivors of a set of points with distinct times, where later means larger time. */
  ghost predicate Outlasts(s: set<Sample>, p: Sample, now: int) {
    && InWindow(p.time, now)
    && forall q :: q in s && InWindow(q.time, now) && p.time < q.time ==> Key(q.time, now) != Key(p.time, now)
  }

  ghost function Compact(s: set<Sample>, now: int): set<Sample> {
    set p | p in s && Outlasts(s, p, now)
  }

  lemma CompactIsSurvivors(s: seq<Sample>, now: int)
    requires Increasing(s)
    ensures Compact(Elements(s), now) == Survivors(Wrap(s), now)
  {
    forall p | p in Compact(Elements(s), now) ensures p in Survivors(Wrap(s), now) {
      CompactSurvives(s, p, now);
    }
    forall p | p in Survivors(Wrap(s), now) ensures p in Compact(Elements(s), now) {
      SurvivorOutlasts(s, p, now);
    }
  }

  lemma CompactSurvives(s: seq<Sample>, p: Sample, now: int)
    requires Increasing(s) && p in s && Outlasts(Elements(s), p, now)
    ensures p in Survivors(Wrap(s), now)
  {
    var i :| 0 <= i < |s| && s[i] == p;
    var values := Wrap(s);
    forall j | i < j < |values| && Admitted(values[j], now) ensures Key(s[j].time, now) != Key(p.time, now) {
      assert s[j] in Elements(s);
    }
    assert Survives(values, i, now) && values[i].value == p;
  }

  lemma SurvivorOutlasts(s: seq<Sample>, p: Sample, now: int)
    requires Increasing(s) && p in Survivors(Wrap(s), now)
    ensures p in s && Outlasts(Elements(s), p, now)
  {
    var values := Wrap(s);
    var i :| 0 <= i < |values| && Survives(values, i, now) && values[i].value == p;
    assert s[i] == p;
    forall q | q in Elements(s) && InWindow(q.time, now) && p.time < q.time
      ensures Key(q.time, now) != Key(p.time, now)
    {
      var j :| 0 <= j < |s| && s[j] == q;
      assert i < j && values[j] == Some(q);
    }
  }

  /** Points that shared a key at an earlier clock still share it at a later one. */
  lemma KeysStayShared(a: int, b: int, now1: int, now2: int)
    requires a <= b && now1 <= now2 && Key(a, now1) == Key(b, now1)
    ensures Key(a, now2) == Key(b, now2)
  {
  }

  lemma {:induction false} LastWithKey(s: set<Sample>, p: Sample, now: int) returns (z: Sample)
    requires p in s && InWindow(p.time, now)
    ensures z in Compact(s, now) && p.time <= z.time && Key(z.time, now) == Key(p.time, now)
    decreases |set w | w in s && w.time > p.time|
  {
    if Outlasts(s, p, now) {
      z := p;
    } else {
      var q :| q in s && InWindow(q.time, now) && p.time < q.time && Key(q.time, now) == Key(p.time, now);
      FewerLater(s, p, q);
      z := LastWithKey(s, q, now);
    }
  }

  lemma FewerLater(s: set<Sample>, p: Sample, q: Sample)
    requires q in s && p.time < q.time
    ensures |set w | w in s && w.time > q.time| < |set w | w in s && w.time > p.time|
  {
    var after := set w | w in s && w.time > p.time;
    var fewer := set w | w in s && w.time > q.time;
    assert fewer <= after - {q};
    Smaller(fewer, after - {q});
  }

  /** Compacting at one clock and again at a later one is compacting once at the later one. */
  lemma CompactTwice(s: set<Sample>, now1: int, now2: int)
    requires now1 <= now2 && forall p :: p in s ==> p.time <= now1 + AHEAD
    ensures Compact(Compact(s, now1), now2) == Compact(s, now2)
  {
    var once := Compact(s, now1);
    forall p ensures p in Compact(once, now2) <==> p in Compact(s, now2) {
      if p in Compact(once, now2) {
        forall q | q in s && InWindow(q.time, now2) && p.time < q.time
          ensures Key(q.time, now2) != Key(p.time, now2)
        {
          var z := LastWithKey(s, q, now1);
          KeysStayShared(q.time, z.time, now1, now2);
          assert z in once && InWindow(z.time, now2);
        }
      }
      if p in Compact(s, now2) {
        forall q | q in s && InWindow(q.time, now1) && p.time < q.time
          ensures Key(q.time, now1) != Key(p.time, now1)
        {
          if Key(q.time, now1) == Key(p.time, now1) {
            KeysStayShared(p.time, q.time, now1, now2);
          }
        }
        assert p in once;
      }
    }
  }

  /** Appending the newest point commutes with compaction. */
  lemma CompactAppend(s: set<Sample>, p: Sample, now: int)
    requires forall q :: q in s ==> q.time <= p.time
    ensures Compact(Replace(s, p), now) == Absorb(Compact(s, now), Some(p), now)
  {
    var next := Replace(s, p);
    forall x ensures x in Compact(next, now) <==> x in Absorb(Compact(s, now), Some(p), now) {
      if x in Compact(next, now) && x != p {
        assert x in s && x.time < p.time;
        assert forall q :: q in s && q.time > x.time && q.time != p.time ==> q in next;
        forall q | q in s && InWindow(q.time, now) && x.time < q.time
          ensures Key(q.time, now) != Key(x.time, now)
        {
          if q.time == p.time { assert p in next; }
        }
      }
      if x in Absorb(Compact(s, now), Some(p), now) && x != p {
        assert x.time != p.time;
        assert forall q :: q in next ==> q in s || q == p;
      }
    }
  }

  /** Points that have left the window can be dropped. */
  lemma CompactIgnoresOld(s: set<Sample>, cutoff: int, now: int)
    requires cutoff <= now - WINDOW
    ensures Compact(From(s, cutoff), now) == Compact(s, now)
  {
  }

  // ---------------------------------------------------------------- whole runs

  /** One update of a run in which every payload carries the same history. */
  datatype Tick = Tick(now: int, point: Option<Sample>)

  ghost predicate Accepted(tick: Tick) {
    Admitted(tick.point, tick.now)
  }

  /** The history, then the accepted points in order of arrival. */
  ghost function Log(history: seq<Sample>, ticks: seq<Tick>): seq<Sample> {
    if ticks == [] then history else
      var t := ticks[|ticks| - 1];
      Log(history, ticks[..|ticks| - 1]) + if Accepted(t) then [t.point.value] else []
  }

  ghost function After(history: seq<Sample>, ticks: seq<Tick>): (r: Store)
    ensures Increasing(r.samples)
  {
    if ticks == [] then FRESH else
      var t := ticks[|ticks| - 1];
      var before := After(history, ticks[..|ticks| - 1]);
      UpdatedIsSound(before, t.now, Wrap(history), t.point);
      Updated(before, t.now, Wrap(history), t.point)
  }

  /** The store that an update without any history would have to start from to do the same. */
  ghost function Seen(history: seq<Sample>, store: Store): Store {
    if store.revision.None? then Store(history, None, 0) else store.(revision := Some(HistoryRevision([])))
  }

  lemma SeesHistory(history: seq<Sample>, store: Store, now: int, point: Option<Sample>)
    requires Increasing(history) && Increasing(store.samples)
    requires store == FRESH || store.revision == Some(HistoryRevision(Wrap(history)))
    ensures Updated(store, now, Wrap(history), point).samples == Updated(Seen(history, store), now, [], point).samples
    ensures Updated(store, now, Wrap(history), point).revision == Some(HistoryRevision(Wrap(history)))
    ensures Rebuilds(store, now, Wrap(history)) <==> Rebuilds(Seen(history, store), now, [])
  {
    hide Normal, Inserted, HistoryRevision;
    if store == FRESH {
      assert Sources(store, Wrap(history), point) == Wrap(history) + [point]
          == Sources(Seen(history, store), [], point);
    } else {
      assert Sources(store, Wrap(history), point) == Sources(Seen(history, store), [], point);
    }
  }

  /** How many points the store would hold after this update if it were not capped. */
  ghost function Uncapped(store: Store, now: int, point: Option<Sample>): nat
    requires Increasing(store.samples)
  {
    if Rebuilds(store, now, []) || (Admitted(point, now) && point.value.time < now - RECENT)
    then |Survivors(Wrap(store.samples) + [point], now)|
    else if Admitted(point, now)
    then |From(Replace(Elements(store.samples), point.value), now - WINDOW)|
    else |store.samples|
  }

  /** The history is not later than the first clock allows, the clock does not run backwards, accepted points
      arrive in order of time, and the cap never bites. */
  ghost predicate Orderly(history: seq<Sample>, ticks: seq<Tick>) {
    ticks == [] ||
    (var n := |ticks| - 1;
     var front := ticks[..n];
     && Orderly(history, front)
     && (n == 0 ==> Increasing(history) && forall p :: p in history ==> p.time <= ticks[0].now + AHEAD)
     && (n > 0 ==> ticks[n - 1].now <= ticks[n].now)
     && (Accepted(ticks[n]) ==> forall p :: p in Log(history, front) ==> p.time <= ticks[n].point.value.time)
     && Fits(Seen(history, After(history, front)), ticks[n]))
  }

  ghost predicate Fits(store: Store, tick: Tick) {
    Increasing(store.samples) ==> Uncapped(store, tick.now, tick.point) <= CAP
  }

  lemma {:induction false} SizeOfByTime(s: set<Sample>)
    requires DistinctTimes(s)
    ensures |ByTime(s)| == |s|
  {
    if s != {} {
      LatestExists(s);
      var r := ByTime(s);
      var m := r[|r| - 1];
      assert m in Elements(r);
      ElementsButLast(r);
      IncreasingUnique(ByTime(s - {m}), r[..|r| - 1]);
      SizeOfByTime(s - {m});
    }
  }

  /** The points a store holds after an update whose uncapped size fits, as a set. */
  lemma UpdatedElements(store: Store, now: int, point: Option<Sample>)
    requires Increasing(store.samples) && Uncapped(store, now, point) <= CAP
    ensures var r := Elements(Updated(store, now, [], point).samples);
            if Rebuilds(store, now, []) || (Admitted(point, now) && point.value.time < now - RECENT)
            then r == Absorb(Compact(Elements(store.samples), now), point, now)
            else if Admitted(point, now)
            then r == From(Replace(Elements(store.samples), point.value), now - WINDOW)
            else r == Elements(store.samples)
  {
    if Rebuilds(store, now, []) || (Admitted(point, now) && point.value.time < now - RECENT) {
      var values := Wrap(store.samples) + [point];
      assert Sources(store, [], point) == values;
      SurvivorsDistinct(values, now);
      SizeOfByTime(Survivors(values, now));
      SurvivorsSnoc(Wrap(store.samples), point, now);
      CompactIsSurvivors(store.samples, now);
    } else if Admitted(point, now) {
      ReplaceDistinct(store.samples, point.value, now - WINDOW);
      SizeOfByTime(From(Replace(Elements(store.samples), point.value), now - WINDOW));
    }
  }

  /** The store and the log compact alike at every clock from `clock` on. */
  ghost predicate Equivalent(s: seq<Sample>, log: seq<Sample>, clock: int) {
    forall now :: clock <= now ==> Compact(Elements(s), now) == Survivors(Wrap(log), now)
  }

  /** Seen from any later clock, an update is the old store with the accepted point absorbed. */
  lemma UpdatedCompacts(store: Store, now: int, point: Option<Sample>, later: int)
    requires Increasing(store.samples) && Uncapped(store, now, point) <= CAP && now <= later
    requires forall p :: p in store.samples ==> p.time <= now + AHEAD
    requires Admitted(point, now) ==> forall p :: p in store.samples ==> p.time <= point.value.time
    ensures var s := Compact(Elements(store.samples), later);
            Compact(Elements(Updated(store, now, [], point).samples), later) ==
            if Admitted(point, now) then Absorb(s, point, later) else s
  {
    var s := Elements(store.samples);
    UpdatedElements(store, now, point);
    CompactTwice(s, now, later);
    if Admitted(point, now) {
      var p := point.value;
      CompactAppend(s, p, now);
      CompactAppend(s, p, later);
      CompactTwice(Replace(s, p), now, later);
      CompactIgnoresOld(Replace(s, p), now - WINDOW, later);
    }
  }

  lemma WrapSnoc(s: seq<Sample>, p: Sample)
    ensures Wrap(s + [p]) == Wrap(s) + [Some(p)]
  {
  }

  lemma UpdatedIsKnown(store: Store, now: int, point: Option<Sample>)
    requires Increasing(store.samples) && Uncapped(store, now, point) <= CAP
    ensures forall p :: p in Updated(store, now, [], point).samples ==>
              p in store.samples || (Admitted(point, now) && p == point.value && p.time <= now + AHEAD)
  {
    hide Updated, Uncapped, Increasing, Rebuilds;
    UpdatedElements(store, now, point);
    assert forall p :: p in Updated(store, now, [], point).samples ==>
                         p in Elements(Updated(store, now, [], point).samples);
  }

  lemma EquivalentStep(store: Store, log: seq<Sample>, clock: int, now: int, point: Option<Sample>)
    requires Increasing(store.samples) && Uncapped(store, now, point) <= CAP
    requires clock <= now && Equivalent(store.samples, log, clock)
    requires forall p :: p in store.samples ==> p in log && p.time <= now + AHEAD
    requires Admitted(point, now) ==> forall p :: p in log ==> p.time <= point.value.time
    ensures var log' := log + if Admitted(point, now) then [point.value] else [];
            var r := Updated(store, now, [], point).samples;
            && Equivalent(r, log', now)
            && forall p :: p in r ==> p in log' && p.time <= now + AHEAD
  {
    hide Updated, Uncapped, Compact, Survivors, Absorb, Wrap, InWindow;
    var log' := log + if Admitted(point, now) then [point.value] else [];
    var r := Updated(store, now, [], point).samples;
    UpdatedIsKnown(store, now, point);
    forall later | now <= later ensures Compact(Elements(r), later) == Survivors(Wrap(log'), later) {
      UpdatedCompacts(store, now, point, later);
      assert Compact(Elements(store.samples), later) == Survivors(Wrap(log), later);
      if Admitted(point, now) {
        WrapSnoc(log, point.value);
        SurvivorsSnoc(Wrap(log), point, later);
      } else {
        assert log' == log;
      }
    }
  }

  /** Before anything was read, the history stands for itself. */
  lemma HistoryIsItsOwnLog(history: seq<Sample>, clock: int)
    requires Increasing(history)
    ensures Equivalent(history, history, clock)
  {
    forall now | clock <= now ensures Compact(Elements(history), now) == Survivors(Wrap(history), now) {
      CompactIsSurvivors(history, now);
    }
  }

  /** One update more: what the run, its log and its order say of it. */
  lemma LastTick(history: seq<Sample>, ticks: seq<Tick>)
    requires Orderly(history, ticks) && ticks != []
    ensures var n := |ticks| - 1;
            var front, t := ticks[..n], ticks[n];
            var before, log := After(history, front), Log(history, front);
            && Orderly(history, front) && After(history, ticks) == Updated(before, t.now, Wrap(history), t.point)
            && Log(history, ticks) == log + (if Accepted(t) then [t.point.value] else [])
            && Fits(Seen(history, before), t) && (Accepted(t) ==> forall p :: p in log ==> p.time <= t.point.value.time)
            && (if n == 0
                then Increasing(history) && before == FRESH && log == history
                     && forall p :: p in history ==> p.time <= t.now + AHEAD
                else ticks[n - 1].now <= t.now && front[n - 1] == ticks[n - 1])
  {
    hide Updated, Uncapped, HistoryRevision, Accepted, Admitted, Fits, Increasing;
  }

  lemma {:induction false} RunIsEquivalent(history: seq<Sample>, ticks: seq<Tick>, clock: int)
    requires Orderly(history, ticks) && ticks != [] && ticks[|ticks| - 1].now <= clock
    ensures Increasing(history)
    ensures After(history, ticks).revision == Some(HistoryRevision(Wrap(history)))
    ensures Equivalent(After(history, ticks).samples, Log(history, ticks), clock)
    ensures forall p :: p in After(history, ticks).samples ==> p in Log(history, ticks) && p.time <= clock + AHEAD
  {
    hide Updated, Uncapped, HistoryRevision, Compact, Survivors, Accepted, Admitted, Fits, Equivalent, Rebuilds;
    hide Orderly, After, Log, Increasing;
    var n := |ticks| - 1;
    var front, t := ticks[..n], ticks[n];
    var before, log := After(history, front), Log(history, front);
    LastTick(history, ticks);
    if n == 0 {
      HistoryIsItsOwnLog(history, t.now);
    } else {
      RunIsEquivalent(history, front, t.now);
    }
    SeesHistory(history, before, t.now, t.point);
    StepFromSeen(Seen(history, before), log, t, clock);
  }

  lemma StepFromSeen(seen: Store, log: seq<Sample>, t: Tick, clock: int)
    requires Increasing(seen.samples) && Fits(seen, t) && t.now <= clock && Equivalent(seen.samples, log, t.now)
    requires forall p :: p in seen.samples ==> p in log && p.time <= t.now + AHEAD
    requires Accepted(t) ==> forall p :: p in log ==> p.time <= t.point.value.time
    ensures var log' := log + if Accepted(t) then [t.point.value] else [];
            var r := Updated(seen, t.now, [], t.point).samples;
            && Equivalent(r, log', clock) && forall p :: p in r ==> p in log' && p.time <= clock + AHEAD
  {
    hide Updated, Uncapped, Compact, Survivors;
    EquivalentStep(seen, log, t.now, t.now, t.point);
  }

  /** Incremental compaction equals one-shot compaction of the whole log, history included: at every later clock
      a rebuild of the store is a rebuild of the log, and an update that rebuilds leaves exactly that. */
  lemma IncrementalEqualsOneShot(history: seq<Sample>, ticks: seq<Tick>, now: int)
    requires Orderly(history, ticks) && ticks != [] && ticks[|ticks| - 1].now <= now
    ensures Normal(Wrap(After(history, ticks).samples), now) == Normal(Wrap(Log(history, ticks)), now)
    ensures var n := |ticks| - 1;
            Rebuilds(After(history, ticks[..n]), ticks[n].now, Wrap(history)) ==>
              After(history, ticks).samples == Normal(Wrap(Log(history, ticks)), ticks[n].now)
  {
    hide Updated, Uncapped, HistoryRevision, Compact, Survivors, Accepted, Admitted;
    var s, log := After(history, ticks).samples, Log(history, ticks);
    RunIsEquivalent(history, ticks, now);
    SameNormal(s, log, now);
    var n := |ticks| - 1;
    if Rebuilds(After(history, ticks[..n]), ticks[n].now, Wrap(history)) {
      RunIsEquivalent(history, ticks, ticks[n].now);
      SameNormal(s, log, ticks[n].now);
      RebuiltIsFixed(After(history, ticks[..n]), ticks[n].now, Wrap(history), ticks[n].point);
    }
  }

  lemma SameNormal(s: seq<Sample>, log: seq<Sample>, now: int)
    requires Increasing(s) && Equivalent(s, log, now)
    ensures Survivors(Wrap(s), now) == Survivors(Wrap(log), now) && Normal(Wrap(s), now) == Normal(Wrap(log), now)
  {
    CompactIsSurvivors(s, now);
  }

  lemma RebuiltIsFixed(store: Store, now: int, history: seq<Option<Sample>>, point: Option<Sample>)
    requires Increasing(store.samples) && Rebuilds(store, now, history)
    ensures var r := Updated(store, now, history, point).samples; Normal(Wrap(r), now) == r
  {
    RebuildNormalises(Sources(store, history, point), now);
    NormalisedIffFixed(Normal(Sources(store, history, point), now), now);
  }

  /** What follows is absorbed alike by two lists with the same survivors. */
  lemma {:induction false} SameTail(a: seq<Option<Sample>>, b: seq<Option<Sample>>, tail: seq<Option<Sample>>, now: int)
    requires Survivors(a, now) == Survivors(b, now)
    ensures Survivors(a + tail, now) == Survivors(b + tail, now)
  {
    hide Survivors;
    if tail == [] {
      assert a + tail == a && b + tail == b;
    } else {
      var front, last := tail[..|tail| - 1], tail[|tail| - 1];
      SameTail(a, b, front, now);
      assert a + tail == a + front + [last] && b + tail == b + front + [last];
      SurvivorsSnoc(a + front, last, now);
      SurvivorsSnoc(b + front, last, now);
    }
  }

  /** When a later payload brings another history, of whatever kind, the rebuild is that of the whole log with the
      new history and the new point behind it. */
  lemma HistoryChangeEqualsOneShot(history: seq<Sample>, ticks: seq<Tick>, now: int, changed: seq<Option<Sample>>,
                                   point: Option<Sample>)
    requires Orderly(history, ticks) && ticks != [] && ticks[|ticks| - 1].now <= now
    requires HistoryRevision(changed) != HistoryRevision(Wrap(history))
    ensures Updated(After(history, ticks), now, changed, point).samples ==
            Normal(Wrap(Log(history, ticks)) + changed + [point], now)
  {
    hide Uncapped, HistoryRevision, Compact, Survivors, Accepted, Admitted;
    var s, log := After(history, ticks), Log(history, ticks);
    RunIsEquivalent(history, ticks, now);
    SameNormal(s.samples, log, now);
    SameTail(Wrap(s.samples), Wrap(log), changed + [point], now);
    assert Wrap(s.samples) + (changed + [point]) == Sources(s, changed, point);
    assert Wrap(log) + (changed + [point]) == Wrap(log) + changed + [point];
  }
}
