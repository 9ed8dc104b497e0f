/** Traffic accounting over a list of samples: rates, totals, averages and peaks.
    Rates are exact reals; a second is a thousand ticks of the sample clock. */
module Traffic {
  import opened Wrappers
  import opened TelemetryStore

  datatype Side = Wan | Lan
  datatype Direction = Rx | Tx

  function InterfaceOf(s: Sample, side: Side): Option<Iface> {
    match side case Wan => s.wan case Lan => s.lan
  }

  function Counter(s: Sample, side: Side, direction: Direction): Option<real> {
    match InterfaceOf(s, side)
    case None => None
    case Some(i) => (match direction case Rx => i.rx case Tx => i.tx)
  }

  /** The device name; a missing interface and an empty name both mean unknown. */
  function Device(s: Sample, side: Side): string {
    match InterfaceOf(s, side) case None => "" case Some(i) => i.device
  }

  predicate Continuous(previous: Option<Sample>, current: Sample) {
    && previous.Some? && previous.value.time < current.time
    && (previous.value.uptime.Some? && current.uptime.Some? ==> previous.value.uptime.value <= current.uptime.value)
  }

  function Seconds(previous: Sample, current: Sample): real {
    (current.time - previous.time) as real / 1000.0
  }

  function Rate(previous: Option<Sample>, current: Sample, side: Side, direction: Direction): Option<real> {
    var before := if previous.Some? then Counter(previous.value, side, direction) else None;
    var after := Counter(current, side, direction);
    var seconds := if previous.Some? then Seconds(previous.value, current) else 0.0;
    if before.None? || after.None? || seconds <= 0.0 || after.value < before.value
       || !Continuous(previous, current)
       || (Device(previous.value, side) != "" && Device(current, side) != "" &&
           Device(previous.value, side) != Device(current, side))
    then None
    else Some((after.value - before.value) / seconds)
  }

  // ---------------------------------------------------------------- what a link is worth

  /** The two samples bound a stretch of counted traffic: both counters are known, time moved on, no
      counter went back, no reboot happened and the device did not change. */
  ghost predicate Link(a: Sample, b: Sample, side: Side, direction: Direction) {
    && Counter(a, side, direction).Some? && Counter(b, side, direction).Some?
    && a.time < b.time
    && Counter(a, side, direction).value <= Counter(b, side, direction).value
    && !(a.uptime.Some? && b.uptime.Some? && b.uptime.value < a.uptime.value)
    && (Device(a, side) == "" || Device(b, side) == "" || Device(a, side) == Device(b, side))
  }

  ghost function Increment(a: Sample, b: Sample, side: Side, direction: Direction): real {
    if Link(a, b, side, direction)
    then Counter(b, side, direction).value - Counter(a, side, direction).value else 0.0
  }

  ghost function Linked(a: Sample, b: Sample, side: Side, direction: Direction): real {
    if Link(a, b, side, direction) then Seconds(a, b) else 0.0
  }

  /** A rate exists exactly on links, is never negative, and gives back the counter increment. */
  lemma RateIsIncrement(a: Sample, b: Sample, side: Side, direction: Direction)
    ensures Rate(Some(a), b, side, direction).Some? <==> Link(a, b, side, direction)
    ensures var r := Rate(Some(a), b, side, direction);
            r.Some? ==> r.value >= 0.0 && Seconds(a, b) > 0.0 &&
                        r.value * Seconds(a, b) == Increment(a, b, side, direction)
  {
    var r := Rate(Some(a), b, side, direction);
    if r.Some? {
      Quotient(Counter(b, side, direction).value - Counter(a, side, direction).value, Seconds(a, b));
    }
  }

  lemma Quotient(x: real, d: real)
    requires x >= 0.0 && d > 0.0
    ensures x / d >= 0.0 && x / d * d == x
  {
  }

  /** A rate exists exactly on links. */
  lemma RateIffLink(a: Sample, b: Sample, side: Side, direction: Direction)
    ensures Rate(Some(a), b, side, direction).Some? <==> Link(a, b, side, direction)
  {
  }

  // ---------------------------------------------------------------- rates from the fields of the samples

  /** The rate between two samples of one interface, from its counters `x` and `y` and its two device names: per
      second, with times in milliseconds. There is one exactly if both counters are known and did not fall, time moved
      on, the uptime, where known, did not fall, and two known names agree. */
  ghost predicate RateOf(r: Option<real>, a: Sample, b: Sample, x: Option<real>, y: Option<real>,
                         before: string, after: string)
  {
    && (r.Some? <==>
          && x.Some? && y.Some? && x.value <= y.value && a.time < b.time
          && (a.uptime.None? || b.uptime.None? || a.uptime.value <= b.uptime.value)
          && (before == "" || after == "" || before == after))
    && (r.Some? ==> r.value * (b.time - a.time) as real == (y.value - x.value) * 1000.0)
  }

  function Received(i: Option<Iface>): Option<real> { if i.Some? then i.value.rx else None }

  function Sent(i: Option<Iface>): Option<real> { if i.Some? then i.value.tx else None }

  function NameOf(i: Option<Iface>): string { if i.Some? then i.value.device else "" }

  /** Which field each of the four rates is read from. */
  lemma RatesFromFields(a: Sample, b: Sample)
    ensures RateOf(Rate(Some(a), b, Wan, Rx), a, b, Received(a.wan), Received(b.wan), NameOf(a.wan), NameOf(b.wan))
    ensures RateOf(Rate(Some(a), b, Wan, Tx), a, b, Sent(a.wan), Sent(b.wan), NameOf(a.wan), NameOf(b.wan))
    ensures RateOf(Rate(Some(a), b, Lan, Rx), a, b, Received(a.lan), Received(b.lan), NameOf(a.lan), NameOf(b.lan))
    ensures RateOf(Rate(Some(a), b, Lan, Tx), a, b, Sent(a.lan), Sent(b.lan), NameOf(a.lan), NameOf(b.lan))
    ensures forall side, direction :: Rate(None, b, side, direction) == None
  {
    forall side, direction
      ensures RateOf(Rate(Some(a), b, side, direction), a, b, Counter(a, side, direction), Counter(b, side, direction),
                     Device(a, side), Device(b, side))
    {
      RateFromCounters(a, b, side, direction);
    }
  }

  lemma RateFromCounters(a: Sample, b: Sample, side: Side, direction: Direction)
    ensures RateOf(Rate(Some(a), b, side, direction), a, b, Counter(a, side, direction), Counter(b, side, direction),
                   Device(a, side), Device(b, side))
  {
    hide Counter, Device;
    var r := Rate(Some(a), b, side, direction);
    if r.Some? {
      var x, seconds := Counter(b, side, direction).value - Counter(a, side, direction).value, Seconds(a, b);
      Quotient(x, seconds);
      assert r.value * (b.time - a.time) as real == r.value * seconds * 1000.0;
    }
  }

  // ---------------------------------------------------------------- adjacent pairs

  ghost function Sum(s: seq<real>): real {
    if s == [] then 0.0 else Sum(s[..|s| - 1]) + s[|s| - 1]
  }

  /** How many adjacent pairs a list has. */
  function Links(points: seq<Sample>): nat {
    if points == [] then 0 else |points| - 1
  }

  /** What the loop of `stats` reads from two adjacent samples. */
  datatype Pair = Pair(rate: Option<real>, seconds: real)

  function PairsOf(points: seq<Sample>, side: Side, direction: Direction): seq<Pair> {
    seq(Links(points), i requires 0 <= i < Links(points) =>
      Pair(Rate(Some(points[i]), points[i + 1], side, direction), Seconds(points[i], points[i + 1])))
  }

  ghost function Increments(points: seq<Sample>, side: Side, direction: Direction): seq<real> {
    seq(Links(points), i requires 0 <= i < Links(points) => Increment(points[i], points[i + 1], side, direction))
  }

  ghost function Times(points: seq<Sample>, side: Side, direction: Direction): seq<real> {
    seq(Links(points), i requires 0 <= i < Links(points) => Linked(points[i], points[i + 1], side, direction))
  }

  /** The counted traffic: the counter increments over the admissible pairs, and nothing else. */
  ghost function Total(points: seq<Sample>, side: Side, direction: Direction): real {
    Sum(Increments(points, side, direction))
  }

  /** The time covered by admissible pairs. */
  ghost function Elapsed(points: seq<Sample>, side: Side, direction: Direction): real {
    Sum(Times(points, side, direction))
  }

  ghost predicate HasLink(points: seq<Sample>, side: Side, direction: Direction) {
    exists i :: 0 <= i < Links(points) && Link(points[i], points[i + 1], side, direction)
  }

  function Higher(peak: Option<real>, rate: Option<real>): Option<real> {
    if rate.None? then peak
    else
      var top := if peak.Some? then peak.value else 0.0;
      Some(if top < rate.value then rate.value else top)
  }

  ghost function Peak(pairs: seq<Pair>): Option<real> {
    if pairs == [] then None else Higher(Peak(pairs[..|pairs| - 1]), pairs[|pairs| - 1].rate)
  }

  datatype Stat = Stat(total: Option<real>, average: Option<real>, peak: Option<real>)

  /** What a cell of the statistics says of a total, the time it covers and the peak rate. */
  ghost predicate Describes(s: Stat, total: real, elapsed: real, peak: Option<real>) {
    && s.peak == peak && (s.total.Some? <==> peak.Some?) && (s.average.Some? <==> peak.Some?)
    && (peak.Some? ==>
          && s.total.value == total && 0.0 < elapsed
          && s.average.value * elapsed == total
          && 0.0 <= s.average.value <= peak.value)
  }

  /** One cell of `stats`: the totals are exactly the counted increments and the linked time, and the
      average lies between zero and the peak; PeakIsLargest and CountsIffLinked say what the peak is. */
  method StatOf(points: seq<Sample>, side: Side, direction: Direction) returns (s: Stat)
    ensures Describes(s, Total(points, side, direction), Elapsed(points, side, direction),
                      Peak(PairsOf(points, side, direction)))
  {
    hide *;
    RatesAreSound(points, side, direction);
    var total, elapsed, peak := Accumulate(PairsOf(points, side, direction));
    PairsAddUp(points, side, direction);
    if peak.Some? { CarriedBelowPeak(PairsOf(points, side, direction)); }
    s := Finish(total, elapsed, peak);
  }

  method Finish(total: real, elapsed: real, peak: Option<real>) returns (s: Stat)
    requires 0.0 <= elapsed && (elapsed == 0.0 <==> peak.None?)
    requires peak.Some? ==> 0.0 <= total <= peak.value * elapsed
    ensures Describes(s, total, elapsed, peak)
  {
    s := Stat(if peak.None? then None else Some(total), if elapsed == 0.0 then None else Some(total / elapsed), peak);
    if peak.Some? { DivideBelow(total, elapsed, peak.value); }
  }

  /** There is a total exactly when some adjacent pair counts. */
  lemma CountsIffLinked(points: seq<Sample>, side: Side, direction: Direction)
    ensures Peak(PairsOf(points, side, direction)).Some? <==> HasLink(points, side, direction)
  {
    hide Rate, Link, Peak;
    var pairs := PairsOf(points, side, direction);
    PeakIffRate(pairs);
    forall i | 0 <= i < |pairs|
      ensures pairs[i].rate.Some? <==> Link(points[i], points[i + 1], side, direction)
    {
      RateIffLink(points[i], points[i + 1], side, direction);
    }
  }

  lemma {:induction false} PeakIffRate(pairs: seq<Pair>)
    ensures Peak(pairs).Some? <==> exists i :: 0 <= i < |pairs| && pairs[i].rate.Some?
  {
    if pairs != [] { PeakIffRate(pairs[..|pairs| - 1]); }
  }

  /** The peak is one of the rates and no rate is above it, as long as rates are never negative. */
  lemma {:induction false} PeakIsLargest(pairs: seq<Pair>)
    requires forall i :: 0 <= i < |pairs| && pairs[i].rate.Some? ==> 0.0 <= pairs[i].rate.value
    requires Peak(pairs).Some?
    ensures 0.0 <= Peak(pairs).value
    ensures forall i :: 0 <= i < |pairs| && pairs[i].rate.Some? ==> pairs[i].rate.value <= Peak(pairs).value
    ensures exists i :: 0 <= i < |pairs| && pairs[i].rate == Peak(pairs)
  {
    var n := |pairs| - 1;
    var front := pairs[..n];
    if Peak(front).Some? {
      PeakIsLargest(front);
      var i :| 0 <= i < |front| && front[i].rate == Peak(front);
      assert pairs[i].rate == Peak(front);
    } else {
      PeakIffRate(front);
      assert forall i :: 0 <= i < n ==> front[i] == pairs[i];
    }
    assert pairs[n].rate == Peak(pairs) || Peak(front) == Peak(pairs);
  }

  /** What the pairs carry: each rate held for its time. */
  ghost function Carried(pairs: seq<Pair>): real {
    if pairs == [] then 0.0
    else
      var p := pairs[|pairs| - 1];
      Carried(pairs[..|pairs| - 1]) + if p.rate.Some? then p.rate.value * p.seconds else 0.0
  }

  ghost function Covered(pairs: seq<Pair>): real {
    if pairs == [] then 0.0
    else
      var p := pairs[|pairs| - 1];
      Covered(pairs[..|pairs| - 1]) + if p.rate.Some? then p.seconds else 0.0
  }

  ghost predicate Sound(pairs: seq<Pair>) {
    forall i :: 0 <= i < |pairs| && pairs[i].rate.Some? ==> 0.0 <= pairs[i].rate.value && 0.0 < pairs[i].seconds
  }

  lemma RatesAreSound(points: seq<Sample>, side: Side, direction: Direction)
    ensures Sound(PairsOf(points, side, direction))
  {
    hide Rate, Link, Increment;
    forall i | 0 <= i < Links(points) && PairsOf(points, side, direction)[i].rate.Some?
      ensures 0.0 <= PairsOf(points, side, direction)[i].rate.value
      ensures 0.0 < PairsOf(points, side, direction)[i].seconds
    {
      RateIsIncrement(points[i], points[i + 1], side, direction);
    }
  }

  /** Rates held for their times are the counter increments. */
  lemma PairsAddUp(points: seq<Sample>, side: Side, direction: Direction)
    ensures Carried(PairsOf(points, side, direction)) == Total(points, side, direction)
    ensures Covered(PairsOf(points, side, direction)) == Elapsed(points, side, direction)
  {
    PrefixAddsUp(points, |points|, side, direction);
    assert points[..|points|] == points;
  }

  lemma {:induction false} PrefixAddsUp(points: seq<Sample>, n: nat, side: Side, direction: Direction)
    requires n <= |points|
    ensures Carried(PairsOf(points[..n], side, direction)) == Total(points[..n], side, direction)
    ensures Covered(PairsOf(points[..n], side, direction)) == Elapsed(points[..n], side, direction)
  {
    hide Rate, Link, Seconds, Counter;
    if n >= 2 {
      PrefixAddsUp(points, n - 1, side, direction);
      var pairs, front := PairsOf(points[..n], side, direction), PairsOf(points[..n - 1], side, direction);
      PairsSnoc(points, n, side, direction);
      RateIsIncrement(points[n - 2], points[n - 1], side, direction);
    }
  }

  lemma PairsSnoc(points: seq<Sample>, n: nat, side: Side, direction: Direction)
    requires 2 <= n <= |points|
    ensures var p := PairsOf(points[..n], side, direction);
            && |p| == n - 1 && p[..n - 2] == PairsOf(points[..n - 1], side, direction)
            && p[n - 2].rate == Rate(Some(points[n - 2]), points[n - 1], side, direction)
            && p[n - 2].seconds == Seconds(points[n - 2], points[n - 1])
    ensures Total(points[..n], side, direction) ==
            Total(points[..n - 1], side, direction) + Increment(points[n - 2], points[n - 1], side, direction)
    ensures Elapsed(points[..n], side, direction) ==
            Elapsed(points[..n - 1], side, direction) + Linked(points[n - 2], points[n - 1], side, direction)
  {
    hide Rate, Link, Seconds;
    assert PairsOf(points[..n], side, direction)[..n - 2] == PairsOf(points[..n - 1], side, direction);
    assert Increments(points[..n], side, direction)[..n - 2] == Increments(points[..n - 1], side, direction);
    assert Times(points[..n], side, direction)[..n - 2] == Times(points[..n - 1], side, direction);
  }

  /** The loop of `stats` over adjacent samples. */
  method Accumulate(pairs: seq<Pair>) returns (total: real, elapsed: real, peak: Option<real>)
    requires Sound(pairs)
    ensures total == Carried(pairs) && elapsed == Covered(pairs) && peak == Peak(pairs)
    ensures 0.0 <= elapsed && (elapsed == 0.0 <==> peak.None?)
  {
    total, elapsed, peak := 0.0, 0.0, None;
    for i := 0 to |pairs|
      invariant total == Carried(pairs[..i]) && elapsed == Covered(pairs[..i]) && peak == Peak(pairs[..i])
      invariant 0.0 <= elapsed && (elapsed == 0.0 <==> peak.None?)
    {
      assert pairs[..i + 1][..i] == pairs[..i];
      var rate := pairs[i].rate;
      if rate.Some? {
        total := total + rate.value * pairs[i].seconds;
        elapsed := elapsed + pairs[i].seconds;
      }
      peak := Higher(peak, rate);
    }
    assert pairs[..|pairs|] == pairs;
  }

  // ---------------------------------------------------------------- the average and the peak

  /** No total exceeds the peak rate held for the linked time. */
  lemma CarriedBelowPeak(pairs: seq<Pair>)
    requires Sound(pairs) && Peak(pairs).Some?
    ensures 0.0 <= Carried(pairs) <= Peak(pairs).value * Covered(pairs)
  {
    PeakIsLargest(pairs);
    CarriedBelowBound(pairs, Peak(pairs).value);
  }

  lemma {:induction false} CarriedBelowBound(pairs: seq<Pair>, bound: real)
    requires Sound(pairs) && 0.0 <= bound
    requires forall i :: 0 <= i < |pairs| && pairs[i].rate.Some? ==> pairs[i].rate.value <= bound
    ensures 0.0 <= Carried(pairs) <= bound * Covered(pairs)
  {
    if pairs != [] {
      var n := |pairs| - 1;
      var p := pairs[n];
      CarriedBelowBound(pairs[..n], bound);
      if p.rate.Some? {
        Scale(p.rate.value, bound, p.seconds);
        Distribute(bound, Covered(pairs[..n]), p.seconds);
      }
    }
  }

  lemma Scale(a: real, b: real, c: real)
    requires 0.0 <= a <= b && 0.0 <= c
    ensures 0.0 <= a * c <= b * c
  {
    assert (b - a) * c >= 0.0;
  }

  lemma Distribute(a: real, b: real, c: real)
    ensures a * (b + c) == a * b + a * c
  {
  }

  lemma DivideBelow(total: real, elapsed: real, peak: real)
    requires 0.0 < elapsed && 0.0 <= total <= peak * elapsed
    ensures total / elapsed * elapsed == total && 0.0 <= total / elapsed <= peak
  {
    var q := total / elapsed;
    assert q * elapsed == total;
    assert (peak - q) * elapsed >= 0.0;
    assert peak - q >= 0.0;
  }

  // ---------------------------------------------------------------- conservation

  /** A run without a reset, a reboot, a gap or a device change. */
  ghost predicate Unbroken(points: seq<Sample>, side: Side, direction: Direction) {
    forall i :: 0 <= i < Links(points) ==> Link(points[i], points[i + 1], side, direction)
  }

  /** On an unbroken run the total telescopes to the last counter minus the first, and the
      linked time to the length of the run. */
  lemma {:induction false} TotalTelescopes(points: seq<Sample>, side: Side, direction: Direction)
    requires |points| >= 2 && Unbroken(points, side, direction)
    ensures Counter(points[0], side, direction).Some? && Counter(points[|points| - 1], side, direction).Some?
    ensures Total(points, side, direction) ==
            Counter(points[|points| - 1], side, direction).value - Counter(points[0], side, direction).value
    ensures Elapsed(points, side, direction) == Seconds(points[0], points[|points| - 1])
  {
    hide Link, Rate;
    var n := |points| - 1;
    var front := points[..n];
    LinkGives(points[n - 1], points[n], side, direction);
    PairsSnoc(points, n + 1, side, direction);
    assert points[..n + 1] == points;
    if n == 1 {
      assert Increments(front, side, direction) == [] && Times(front, side, direction) == [];
    } else {
      FrontUnbroken(points, side, direction);
      TotalTelescopes(front, side, direction);
    }
  }

  lemma LinkGives(a: Sample, b: Sample, side: Side, direction: Direction)
    requires Link(a, b, side, direction)
    ensures Counter(a, side, direction).Some? && Counter(b, side, direction).Some?
    ensures Increment(a, b, side, direction) == Counter(b, side, direction).value - Counter(a, side, direction).value
    ensures Linked(a, b, side, direction) == Seconds(a, b)
  {
  }

  lemma FrontUnbroken(points: seq<Sample>, side: Side, direction: Direction)
    requires |points| >= 2 && Unbroken(points, side, direction)
    ensures Unbroken(points[..|points| - 1], side, direction)
  {
    var front := points[..|points| - 1];
    forall i | 0 <= i < Links(front) ensures Link(front[i], front[i + 1], side, direction) {
      assert front[i] == points[i] && front[i + 1] == points[i + 1];
    }
  }

  /** Accounting is additive: two lists that share their boundary sample add up. */
  lemma TotalSplits(points: seq<Sample>, at: nat, side: Side, direction: Direction)
    requires at < |points|
    ensures Total(points, side, direction) ==
            Total(points[..at + 1], side, direction) + Total(points[at..], side, direction)
  {
    hide Increment, Link;
    var left, right := Increments(points[..at + 1], side, direction), Increments(points[at..], side, direction);
    assert Increments(points, side, direction) == left + right;
    SumAppends(left, right);
  }

  lemma {:induction false} SumAppends(a: seq<real>, b: seq<real>)
    ensures Sum(a + b) == Sum(a) + Sum(b)
  {
    if b == [] {
      assert a + b == a;
    } else {
      assert (a + b)[..|a + b| - 1] == a + b[..|b| - 1];
      SumAppends(a, b[..|b| - 1]);
    }
  }
}
