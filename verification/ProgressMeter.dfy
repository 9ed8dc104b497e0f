/** The progress meter of the recovery fetcher: clamping, scaling, the bar, the unit and the remaining time.
    File offsets are 64-bit, clocks and sizes in the record are 32-bit and wrap. */
module ProgressMeter {
  import opened Wrappers

  const TWO31 := 0x8000_0000
  const TWO32 := 0x1_0000_0000
  const TWO63 := 0x8000_0000_0000_0000
  const STALLTIME := 5

  /** The sizes of one call; a `total` of zero is unknown. */
  datatype Sizes = Sizes(beg: nat, transferred: nat, total: nat)

  datatype Scaled = Scaled(sizes: Sizes, kiloscale: nat)

  datatype Status = Stalled | Unknown | Remaining(seconds: nat)

  datatype Display =
    | Skipped
    | Shown(ratio: Option<nat>, stars: Option<nat>, amount: nat, unit: nat, status: Status)

  datatype State = State(start: nat, lastUpdate: nat, lastChange: nat, lastSize: nat)

  /** Sizes of the type of the source; an offset lies inside a known total, and without one the sum of what
      is there is of that type, too. */
  predicate Sane(s: Sizes) {
    && s.total < TWO63 && s.beg < TWO63 && s.transferred < TWO63
    && (if s.total != 0 then s.beg <= s.total else s.beg + s.transferred < TWO63)
  }

  function Sum(s: Sizes): nat { s.beg + s.transferred }

  // ---------------------------------------------------------------- clamping and scaling

  predicate LastCall(s: Sizes) {
    s.total != 0 && s.transferred >= s.total - s.beg
  }

  function Clamp(s: Sizes): (r: Sizes)
    requires Sane(s)
    ensures r.total == s.total && r.beg == s.beg && r.transferred <= s.transferred
    ensures s.total != 0 ==> Sum(r) <= r.total
    ensures Sane(r)
  {
    if LastCall(s) then s.(transferred := s.total - s.beg) else s
  }

  function Shift(s: Sizes, unit: nat): Sizes
    requires unit > 0
  {
    Sizes(s.beg / unit, s.transferred / unit, s.total / unit)
  }

  const KILO := 1024
  const TERA := 0x100_0000_0000

  /** `wide` selects the variant for 64-bit processors. */
  function Scale(s: Sizes, wide: bool): Scaled {
    if wide && s.total >= 0x40_0000 then Scaled(Shift(s, KILO), 1)
    else if !wide && s.total >= 0x40_0000_0000_0000 then Scaled(Shift(s, TERA), 4)
    else Scaled(s, 0)
  }

  lemma Cancel(a: int, b: int, d: nat)
    ensures a * d < b * d ==> a < b
  {
    if a >= b { assert a * d >= b * d; }
  }

  /** Rounding each part down never rounds their sum up. */
  lemma FloorOfSum(a: nat, b: nat, total: nat, unit: nat)
    requires a + b <= total && unit > 0
    ensures a / unit + b / unit <= total / unit
  {
    var p, q, t := a / unit, b / unit, total / unit;
    QuotientBounds(a, unit);
    QuotientBounds(b, unit);
    QuotientBounds(total, unit);
    Successor(t, unit);
    assert (p + q) * unit == p * unit + q * unit;
    Cancel(p + q, t + 1, unit);
  }

  /** After clamping and scaling the known total still covers what is there, and every size is small. */
  lemma ScaledFits(s: Sizes, wide: bool)
    requires Sane(s)
    ensures var c := Scale(Clamp(s), wide);
            && (if s.total != 0 then c.sizes.total != 0 && Sum(c.sizes) <= c.sizes.total else c.sizes.total == 0)
            && c.sizes.total < (if wide then 0x20_0000_0000_0000 else 0x40_0000_0000_0000)
            && c.kiloscale <= 4
            && (wide ==> c.kiloscale <= 1)
            && (c.kiloscale == 4 ==> c.sizes.total < 0x80_0000)
            && Sane(c.sizes)
  {
    var d := Clamp(s);
    if s.total != 0 {
      FloorOfSum(d.beg, d.transferred, d.total, KILO);
      FloorOfSum(d.beg, d.transferred, d.total, TERA);
    }
  }

  // ---------------------------------------------------------------- the percentage and the bar

  /** The part of `whole` that stands for what is there of the total. */
  function Share(whole: nat, s: Sizes): (r: nat)
    requires Sum(s) <= s.total && s.total > 0
    ensures r <= whole
  {
    Quotient(whole, Sum(s), s.total);
    whole * Sum(s) / s.total
  }

  function Percent(s: Sizes): nat
    requires Sum(s) <= s.total && s.total > 0
  {
    Share(100, s)
  }

  lemma QuotientBounds(x: nat, d: nat)
    requires d > 0
    ensures x / d * d <= x < x / d * d + d
  {
  }

  lemma QuotientIs(x: nat, d: nat, q: nat)
    requires d > 0 && q * d <= x < q * d + d
    ensures x / d == q
  {
    var p := x / d;
    QuotientBounds(x, d);
    Successor(p, d);
    Successor(q, d);
    Cancel(p, q + 1, d);
    Cancel(q, p + 1, d);
  }

  lemma Successor(k: nat, d: nat)
    ensures (k + 1) * d == k * d + d
  {
  }

  lemma Scaling(k: nat, n: nat, d: nat)
    requires n <= d
    ensures k * n <= k * d
  {
  }

  lemma Quotient(k: nat, n: nat, d: nat)
    requires n <= d && d > 0
    ensures k * n / d <= k
    ensures n == d ==> k * n / d == k
  {
    if n == d {
      QuotientIs(k * n, d, k);
    } else {
      Scaling(k, n, d);
      QuotientBounds(k * n, d);
      Successor(k, d);
      Cancel(k * n / d, k + 1, d);
    }
  }

  /** The percentage never exceeds 100 and its product stays inside 63 bits, for all inputs. */
  lemma PercentIsBounded(s: Sizes, wide: bool)
    requires Sane(s) && s.total != 0
    ensures var c := Scale(Clamp(s), wide).sizes;
            c.total > 0 && Sum(c) <= c.total && Percent(c) <= 100 && 100 * Sum(c) < TWO63
  {
    ScaledFits(s, wide);
    var c := Scale(Clamp(s), wide).sizes;
    Quotient(100, Sum(c), c.total);
  }

  /** The unit in which a call counts. */
  function Unit(s: Sizes, wide: bool): (r: nat)
    ensures r > 0
  {
    if wide && s.total >= 0x40_0000 then KILO
    else if !wide && s.total >= 0x40_0000_0000_0000 then TERA
    else 1
  }

  lemma ScaleIsShift(s: Sizes, wide: bool)
    ensures Scale(s, wide).sizes == Shift(s, Unit(s, wide))
  {
  }

  /** Two parts lose nothing by being rounded separately exactly if their low ends do not carry. */
  lemma NoCarryIff(a: nat, b: nat, unit: nat)
    requires unit > 0
    ensures a / unit + b / unit == (a + b) / unit <==> a % unit + b % unit < unit
  {
    var p, q, low := a / unit, b / unit, a % unit + b % unit;
    QuotientBounds(a, unit);
    QuotientBounds(b, unit);
    assert a == p * unit + a % unit && b == q * unit + b % unit;
    assert (p + q) * unit == p * unit + q * unit;
    Successor(p + q, unit);
    if low < unit { QuotientIs(a + b, unit, p + q); } else { QuotientIs(a + b, unit, p + q + 1); }
  }

  lemma HundredIff(n: nat, d: nat)
    requires n <= d && d > 0
    ensures 100 * n / d == 100 <==> n == d
  {
    if n < d {
      QuotientBounds(100 * n, d);
      assert 100 * n < 100 * d;
      Cancel(100 * n / d, 100, d);
    } else {
      QuotientIs(100 * n, d, 100);
    }
  }

  /** A finished transfer shows 100 percent exactly if the low ends of the offset and of the rest do not carry
      into a unit. The fetcher itself always meets this: it never resumes, so its offset is zero. */
  lemma FinishedIsHundredIff(s: Sizes, wide: bool)
    requires Sane(s) && LastCall(s)
    ensures var c := Scale(Clamp(s), wide).sizes;
            var u := Unit(s, wide);
            && c.total > 0 && Sum(c) <= c.total
            && (Percent(c) == 100 <==> s.beg % u + (s.total - s.beg) % u < u)
    ensures s.beg == 0 ==> s.beg % Unit(s, wide) + (s.total - s.beg) % Unit(s, wide) < Unit(s, wide)
  {
    ScaledFits(s, wide);
    ScaleIsShift(Clamp(s), wide);
    var c := Scale(Clamp(s), wide).sizes;
    NoCarryIff(s.beg, s.total - s.beg, Unit(s, wide));
    HundredIff(Sum(c), c.total);
  }

  /** With an offset of one byte a finished transfer of four mebibytes shows 99. */
  lemma FinishedMayShow99() returns (s: Sizes)
    ensures Sane(s) && s.beg + s.transferred == s.total
    ensures var c := Scale(Clamp(s), true).sizes;
            c.total > 0 && Sum(c) <= c.total && Percent(c) == 99
  {
    s := Sizes(1, 0x3F_FFFF, 0x40_0000);
    assert Clamp(s) == s;
    assert Scale(s, true) == Scaled(Sizes(0, 4095, 4096), 1);
  }

  function BarLength(width: nat): int { width - 49 }

  /** The largest bar whose product with any scaled size stays inside 63 bits. */
  function MaxBar(wide: bool): nat { if wide then 1024 else 512 }

  predicate BarFits(bar: nat, s: Sizes, wide: bool)
    requires Sane(s)
  {
    bar * Sum(Scale(Clamp(s), wide).sizes) < TWO63
  }

  /** The star product is safe for every known size exactly up to that bar length. */
  lemma BarProductIsSafeIff(bar: nat, wide: bool)
    ensures (forall s :: Sane(s) && s.total != 0 ==> BarFits(bar, s, wide)) <==> bar <= MaxBar(wide)
  {
    if bar <= MaxBar(wide) {
      forall s | Sane(s) && s.total != 0 ensures BarFits(bar, s, wide) { ShortBarFits(bar, s, wide); }
    } else {
      var s := WidestSizes(wide);
      LongBarOverflows(bar, s, wide);
    }
  }

  lemma ShortBarFits(bar: nat, s: Sizes, wide: bool)
    requires Sane(s) && s.total != 0 && bar <= MaxBar(wide)
    ensures BarFits(bar, s, wide)
  {
    ScaledFits(s, wide);
    ShortProduct(bar, Sum(Scale(Clamp(s), wide).sizes), wide);
  }

  lemma ShortProduct(bar: nat, n: nat, wide: bool)
    requires bar <= MaxBar(wide) && n < if wide then 0x20_0000_0000_0000 else 0x40_0000_0000_0000
    ensures bar * n < TWO63
  {
    Scaling(n, bar, MaxBar(wide));
  }

  lemma LongBarOverflows(bar: nat, s: Sizes, wide: bool)
    requires Sane(s) && bar > MaxBar(wide)
    requires Sum(Scale(Clamp(s), wide).sizes) == if wide then 0x1F_FFFF_FFFF_FFFF else 0x3F_FFFF_FFFF_FFFF
    ensures !BarFits(bar, s, wide)
  {
    hide Scale, Clamp;
    var n := Sum(Scale(Clamp(s), wide).sizes);
    assert bar * n >= (MaxBar(wide) + 1) * n;
  }

  lemma WidestSizes(wide: bool) returns (s: Sizes)
    ensures Sane(s) && s.total != 0
    ensures Sum(Scale(Clamp(s), wide).sizes) == if wide then 0x1F_FFFF_FFFF_FFFF else 0x3F_FFFF_FFFF_FFFF
  {
    var n := if wide then TWO63 - 1 else 0x3F_FFFF_FFFF_FFFF;
    s := Sizes(0, n, n);
    assert Clamp(s) == s;
  }

  // ---------------------------------------------------------------- the unit

  function Pow1024(k: nat): (r: nat)
    ensures r >= 1
  {
    if k == 0 then 1 else 1024 * Pow1024(k - 1)
  }

  lemma DivideAgain(n: nat, k: nat)
    ensures n / Pow1024(k + 1) == n / Pow1024(k) / 1024
  {
    DivideTwice(n, Pow1024(k));
  }

  lemma DivideTwice(n: nat, d: nat)
    requires d > 0
    ensures n / (1024 * d) == n / d / 1024
  {
    var q := n / d;
    var a := q / 1024;
    QuotientBounds(n, d);
    Successor(q, d);
    Scaling(d, 1024 * a, q);
    Scaling(d, q + 1, 1024 * a + 1024);
    Regroup(a, d);
    QuotientIs(n, 1024 * d, a);
  }

  lemma Regroup(a: nat, d: nat)
    ensures d * (1024 * a) == a * (1024 * d)
    ensures d * (1024 * a + 1024) == a * (1024 * d) + 1024 * d
  {
  }

  /** The amount is the sum in the first unit in which it has at most five digits. */
  method Reduce(sum: nat, kiloscale: nat) returns (amount: nat, unit: nat)
    ensures unit >= kiloscale && amount == sum / Pow1024(unit - kiloscale) < 100000
    ensures unit > kiloscale ==> sum / Pow1024(unit - kiloscale - 1) >= 100000
  {
    amount, unit := sum, kiloscale;
    while amount >= 100000
      invariant unit >= kiloscale && amount == sum / Pow1024(unit - kiloscale)
      invariant unit > kiloscale ==> sum / Pow1024(unit - kiloscale - 1) >= 100000
    {
      DivideAgain(sum, unit - kiloscale);
      amount := amount / 1024;
      unit := unit + 1;
    }
  }

  /** The unit always lies in the nine letters from none to yotta. */
  lemma UnitIsNamed(s: Sizes, wide: bool, unit: nat)
    requires Sane(s)
    requires var c := Scale(Clamp(s), wide);
             && unit >= c.kiloscale
             && (unit > c.kiloscale ==> Sum(c.sizes) / Pow1024(unit - c.kiloscale - 1) >= 100000)
    ensures unit <= 5
  {
    ScaledFits(s, wide);
    var c := Scale(Clamp(s), wide);
    if unit > c.kiloscale {
      var k := unit - c.kiloscale - 1;
      AtLeast(Sum(c.sizes), Pow1024(k), 100000);
      Powers();
      if k >= 1 { PowGrows(1, k); }
      if k >= 4 { PowGrows(4, k); }
      if k >= 5 { PowGrows(5, k); }
    }
  }

  lemma AtLeast(n: nat, d: nat, q: nat)
    requires d > 0 && n / d >= q
    ensures n >= q * d
  {
    assert n / d * d <= n;
    assert n / d * d >= q * d;
  }

  lemma Powers()
    ensures Pow1024(1) == 1024 && Pow1024(4) == 0x100_0000_0000 && Pow1024(5) == 0x4_0000_0000_0000
  {
    assert Pow1024(2) == 0x10_0000;
    assert Pow1024(3) == 0x4000_0000;
  }

  lemma {:induction false} PowGrows(j: nat, k: nat)
    requires j <= k
    ensures Pow1024(j) <= Pow1024(k)
  {
    if j < k { PowGrows(j, k - 1); }
  }

  // ---------------------------------------------------------------- the remaining time

  /** The estimate before it is narrowed to 32 bits and capped. */
  function Estimate(s: Sizes, elapsed: nat): int
    requires s.total >= s.beg && s.transferred > 0
  {
    (s.total - s.beg) * elapsed / s.transferred - elapsed
  }

  const CAP := 3600000

  function Narrowed(eta: int): nat {
    var e := eta % TWO32;
    if e >= CAP then CAP - 1 else e
  }

  /** The estimate is never negative. */
  lemma EstimateIsNonnegative(s: Sizes, elapsed: nat)
    requires Sum(s) <= s.total && s.transferred > 0
    ensures Estimate(s, elapsed) >= 0
  {
    var whole := s.total - s.beg;
    assert whole >= s.transferred;
    assert whole * elapsed >= s.transferred * elapsed;
    var q := whole * elapsed / s.transferred;
    assert (q + 1) * s.transferred > whole * elapsed;
    Cancel(elapsed, q + 1, s.transferred);
  }

  function Capped(eta: int): int {
    if eta < CAP then eta else CAP - 1
  }

  /** What is shown is the capped estimate exactly if the estimate fits 32 bits, or what is left of it there
      still reaches the cap. */
  lemma NarrowingIsExactIff(eta: int)
    requires 0 <= eta
    ensures Narrowed(eta) == Capped(eta) <==> eta < TWO32 || eta % TWO32 >= CAP - 1
  {
  }

  /** The product in the estimate fits 63 bits for every elapsed time exactly up to this scaled total. */
  lemma EstimateProductIsSafeIff(whole: nat)
    ensures (forall elapsed: nat :: elapsed < TWO31 ==> InRange(whole, elapsed)) <==> whole <= TWO32 + 2
  {
    if whole <= TWO32 + 2 {
      forall elapsed: nat | elapsed < TWO31 ensures InRange(whole, elapsed) {
        assert whole * elapsed <= (TWO32 + 2) * elapsed;
      }
    } else {
      assert whole * (TWO31 - 1) >= (TWO32 + 3) * (TWO31 - 1);
      assert !InRange(whole, TWO31 - 1);
    }
  }

  predicate InRange(whole: nat, elapsed: nat) { whole * elapsed < TWO63 }

  // ---------------------------------------------------------------- the record and its clock

  function Sub32(a: nat, b: nat): (r: nat)
    ensures r < TWO32
  {
    (a - b) % TWO32
  }

  /** The record after a call that is not skipped, when the scaled size is `size`. */
  function Changed(st: State, now: nat, size: nat): State {
    if size % TWO32 == st.lastSize then st.(lastUpdate := now)
    else
      var since := Sub32(now, st.lastChange);
      State(if since >= STALLTIME then (st.start + since) % TWO32 else st.start, now, now, size % TWO32)
  }

  predicate IsSkipped(st: State, s: Sizes, now: nat) {
    !LastCall(s) && Sub32(now, st.lastUpdate) == 0
  }

  function Next(st: State, s: Sizes, now: nat, wide: bool): State
    requires Sane(s)
  {
    if IsSkipped(st, s, now) then st.(lastUpdate := now)
    else Changed(st, now, Scale(Clamp(s), wide).sizes.transferred)
  }

  /** What is shown about time, given the record after the call. */
  function StatusOf(after: State, c: Sizes, now: nat): Status
    requires c.total != 0 ==> c.beg <= c.total
  {
    var elapsed := Sub32(now, after.start);
    if Sub32(now, after.lastChange) >= STALLTIME then Stalled
    else if c.total == 0 || c.transferred == 0 || elapsed >= TWO31 then Unknown
    else Remaining(Narrowed(Estimate(c, elapsed)))
  }

  /** The two products that this call forms fit 63 bits. */
  ghost predicate Defined(st: State, s: Sizes, now: nat, width: nat, wide: bool)
    requires Sane(s)
  {
    ScaledFits(s, wide);
    var c, after := Scale(Clamp(s), wide).sizes, Next(st, s, now, wide);
    !IsSkipped(st, s, now) ==>
      && (s.total != 0 && BarLength(width) > 0 ==> BarFits(BarLength(width), s, wide))
      && (StatusOf(after, c, now).Remaining? ==> InRange(c.total - c.beg, Sub32(now, after.start)))
  }

  ghost predicate BarShows(c: Sizes, bar: int, ratio: Option<nat>, stars: Option<nat>) {
    if c.total == 0 then ratio.None? && stars.None?
    else
      && Sum(c) <= c.total && ratio == Some(Percent(c)) && ratio.value <= 100
      && (if bar <= 0 then stars.None? else stars == Some(Share(bar, c)) && stars.value <= bar)
  }

  // ---------------------------------------------------------------- one call in numbers

  /** `part` is the whole number of `whole` parts that n makes of d. */
  ghost predicate IsPart(whole: nat, n: nat, d: nat, part: Option<nat>) {
    part.Some? && part.value * d <= whole * n < part.value * d + d
  }

  /** From four mebibytes on, 64-bit processors count kibibytes; from 2^54 on, the others count tebibytes. */
  function CountedIn(total: nat, wide: bool): (nat, nat) {
    if wide && total >= 4194304 then (1024, 1)
    else if !wide && total >= 18014398509481984 then (1099511627776, 4)
    else (1, 0)
  }

  /** The percentage and the stars are the whole parts of the total that are there. */
  ghost predicate BarInNumbers(b: nat, t: nat, total: nat, width: nat, d: Display)
    requires d.Shown?
  {
    if total == 0 then d.ratio.None? && d.stars.None?
    else
      && IsPart(100, b + t, total, d.ratio)
      && if width > 49 then IsPart(width - 49, b + t, total, d.stars) else d.stars.None?
  }

  /** The amount is what is there in the first unit, from the one counted in, that leaves at most five digits. */
  ghost predicate AmountInNumbers(sum: nat, scale: nat, d: Display)
    requires d.Shown?
  {
    && scale <= d.unit <= 5 && d.amount == sum / Pow1024(d.unit - scale) && d.amount < 100000
    && (d.unit > scale ==> sum / Pow1024(d.unit - scale - 1) >= 100000)
  }

  /** A size seen for the first time is noted with its moment, and a stall of five seconds or more before it is cut
      out of the time since the start. */
  ghost predicate Noted(st: State, now: nat, t: nat, r: State) {
    var gap := (now - st.lastChange) % 0x1_0000_0000;
    && r.lastUpdate == now
    && if t % 0x1_0000_0000 == st.lastSize then r == st.(lastUpdate := now)
       else r.lastChange == now && r.lastSize == t % 0x1_0000_0000
            && r.start == if gap >= 5 then (st.start + gap) % 0x1_0000_0000 else st.start
  }

  /** Five seconds without a change are a stall; without a total, without a byte or with a clock that ran back there
      is no estimate; otherwise it is the rest at the rate so far, in 32 bits, below 1000 hours. */
  ghost predicate TimeInNumbers(b: nat, t: nat, total: nat, now: nat, r: State, status: Status) {
    var gap, elapsed := (now - r.lastChange) % 0x1_0000_0000, (now - r.start) % 0x1_0000_0000;
    if gap >= 5 then status == Stalled
    else if total == 0 || t == 0 || elapsed >= 0x8000_0000 then status == Unknown
    else
      b <= total &&
      var eta := ((total - b) * elapsed / t - elapsed) % 0x1_0000_0000;
      status == Remaining(if eta >= 3600000 then 3599999 else eta)
  }

  /** One call: skipped within the same second, unless it is the last one; otherwise everything is shown. */
  ghost predicate Metered(st: State, s: Sizes, now: nat, width: nat, wide: bool, r: State, d: Display) {
    var last := s.total != 0 && s.transferred + s.beg >= s.total;
    if !last && (now - st.lastUpdate) % 0x1_0000_0000 == 0 then d == Skipped && r == st.(lastUpdate := now)
    else
      var (unit, scale) := CountedIn(s.total, wide);
      var b, total := s.beg / unit, s.total / unit;
      var t := (if last && s.beg <= s.total then s.total - s.beg else s.transferred) / unit;
      && d.Shown? && BarInNumbers(b, t, total, width, d) && AmountInNumbers(b + t, scale, d)
      && Noted(st, now, t, r) && TimeInNumbers(b, t, total, now, r, d.status)
  }

  lemma ScaleInNumbers(s: Sizes, wide: bool)
    requires Sane(s)
    ensures var c := Scale(Clamp(s), wide);
            var (unit, scale) := CountedIn(s.total, wide);
            && c.kiloscale == scale && c.sizes.beg == s.beg / unit && c.sizes.total == s.total / unit
            && c.sizes.transferred == (if s.total != 0 && s.transferred + s.beg >= s.total then s.total - s.beg
                                       else s.transferred) / unit
  {
  }

  lemma ShareIsPart(whole: nat, s: Sizes)
    requires Sum(s) <= s.total && s.total > 0
    ensures IsPart(whole, Sum(s), s.total, Some(Share(whole, s)))
  {
    QuotientBounds(whole * Sum(s), s.total);
  }

  lemma BarIsInNumbers(c: Sizes, width: nat, d: Display)
    requires d.Shown? && BarShows(c, BarLength(width), d.ratio, d.stars)
    ensures BarInNumbers(c.beg, c.transferred, c.total, width, d)
  {
    if c.total != 0 {
      ShareIsPart(100, c);
      if width > 49 { ShareIsPart(width - 49, c); }
      hide Share, IsPart;
    }
  }

  lemma TimeIsInNumbers(st: State, after: State, c: Sizes, now: nat)
    requires c.total != 0 ==> c.beg <= c.total
    requires after == Changed(st, now, c.transferred)
    ensures Noted(st, now, c.transferred, after)
    ensures TimeInNumbers(c.beg, c.transferred, c.total, now, after, StatusOf(after, c, now))
  {
  }

  lemma SkippedIsMetered(st: State, s: Sizes, now: nat, width: nat, wide: bool)
    requires Sane(s) && IsSkipped(st, s, now)
    ensures Metered(st, s, now, width, wide, st.(lastUpdate := now), Skipped)
  {
    hide CountedIn;
  }

  lemma ShownIsMetered(st: State, s: Sizes, now: nat, width: nat, wide: bool, r: State, d: Display)
    requires Sane(s) && d.Shown? && !IsSkipped(st, s, now)
    requires var c := Scale(Clamp(s), wide);
             && r == Changed(st, now, c.sizes.transferred)
             && (c.sizes.total != 0 ==> c.sizes.beg <= c.sizes.total)
             && BarShows(c.sizes, BarLength(width), d.ratio, d.stars)
             && c.kiloscale <= d.unit <= 5 && d.amount == Sum(c.sizes) / Pow1024(d.unit - c.kiloscale) < 100000
             && (d.unit > c.kiloscale ==> Sum(c.sizes) / Pow1024(d.unit - c.kiloscale - 1) >= 100000)
             && d.status == StatusOf(r, c.sizes, now)
    ensures Metered(st, s, now, width, wide, r, d)
  {
    var c := Scale(Clamp(s), wide);
    ScaleInNumbers(s, wide);
    BarIsInNumbers(c.sizes, width, d);
    AmountIsInNumbers(c.sizes.beg + c.sizes.transferred, c.kiloscale, d);
    TimeIsInNumbers(st, r, c.sizes, now);
    assert s.transferred + s.beg >= s.total <==> s.transferred >= s.total - s.beg;
    hide *;
    Together(st, s, now, width, wide, r, d, c);
  }

  lemma Together(st: State, s: Sizes, now: nat, width: nat, wide: bool, r: State, d: Display, c: Scaled)
    requires Sane(s) && d.Shown? && !IsSkipped(st, s, now)
    requires var (unit, scale) := CountedIn(s.total, wide);
             && c.kiloscale == scale && c.sizes.beg == s.beg / unit && c.sizes.total == s.total / unit
             && c.sizes.transferred == (if s.total != 0 && s.transferred + s.beg >= s.total then s.total - s.beg
                                        else s.transferred) / unit
    requires BarInNumbers(c.sizes.beg, c.sizes.transferred, c.sizes.total, width, d)
    requires AmountInNumbers(c.sizes.beg + c.sizes.transferred, c.kiloscale, d)
    requires Noted(st, now, c.sizes.transferred, r)
    requires TimeInNumbers(c.sizes.beg, c.sizes.transferred, c.sizes.total, now, r, d.status)
    ensures Metered(st, s, now, width, wide, r, d)
  {
    hide BarInNumbers, AmountInNumbers, TimeInNumbers, Noted, CountedIn;
  }

  lemma AmountIsInNumbers(sum: nat, scale: nat, d: Display)
    requires d.Shown? && scale <= d.unit <= 5 && d.amount == sum / Pow1024(d.unit - scale) < 100000
    requires d.unit > scale ==> sum / Pow1024(d.unit - scale - 1) >= 100000
    ensures AmountInNumbers(sum, scale, d)
  {
  }

  class Progress {
    var start: nat
    var lastUpdate: nat
    var lastChange: nat
    var lastSize: nat

    ghost function Now(): State
      reads this
    {
      State(start, lastUpdate, lastChange, lastSize)
    }

    constructor (now: nat)
      ensures Now() == State(now, now, now, 0)
    {
      start, lastUpdate, lastChange, lastSize := now, now, now, 0;
    }

    /** Signed products that leave 63 bits are undefined in the source, so a call must not form one. */
    method Update(s: Sizes, now: nat, width: nat, wide: bool) returns (d: Display)
      requires Sane(s) && now < TWO32 && 2 <= width < 30000 && Defined(Now(), s, now, width, wide)
      modifies this
      ensures Now() == Next(old(Now()), s, now, wide)
      ensures d.Skipped? <==> IsSkipped(old(Now()), s, now)
      ensures d.Shown? ==>
                var c := Scale(Clamp(s), wide).sizes;
                && BarShows(c, BarLength(width), d.ratio, d.stars)
                && (c.total != 0 ==> c.beg <= c.total)
                && d.status == StatusOf(Now(), c, now)
      ensures Metered(old(Now()), s, now, width, wide, Now(), d)
    {
      hide BarShows, StatusOf, Defined, Scale, BarInNumbers, AmountInNumbers, TimeInNumbers, Noted, CountedIn;
      hide Metered, Pow1024;
      ghost var before := Now();
      var since := Sub32(now, lastUpdate);
      lastUpdate := now;
      var sizes := s;
      if sizes.total != 0 && sizes.transferred >= sizes.total - sizes.beg {
        sizes := sizes.(transferred := sizes.total - sizes.beg);
      } else if since == 0 {
        SkippedIsMetered(before, s, now, width, wide);
        return Skipped;
      }
      var scaled := Scale(sizes, wide);
      ScaledFits(s, wide);
      var ratio, stars := DrawBar(scaled.sizes, BarLength(width));
      var amount, unit := Reduce(Sum(scaled.sizes), scaled.kiloscale);
      UnitIsNamed(s, wide, unit);
      var status := TakeTime(scaled.sizes, now);
      d := Shown(ratio, stars, amount, unit, status);
      ShownIsMetered(before, s, now, width, wide, Now(), d);
    }

    method TakeTime(c: Sizes, now: nat) returns (status: Status)
      requires now < TWO32 && (c.total != 0 ==> Sum(c) <= c.total) && lastUpdate == now
      modifies this
      ensures Now() == Changed(old(Now()), now, c.transferred)
      ensures c.total != 0 ==> c.beg <= c.total
      ensures status == StatusOf(Now(), c, now)
    {
      hide Estimate;
      var since := Sub32(now, lastChange);
      if c.transferred % TWO32 != lastSize {
        lastChange, lastSize := now, c.transferred % TWO32;
        if since >= STALLTIME { start := (start + since) % TWO32; }
        since := 0;
      }
      var elapsed := Sub32(now, start);
      if since >= STALLTIME { return Stalled; }
      if c.total == 0 || c.transferred == 0 || elapsed >= TWO31 { return Unknown; }
      var eta := Estimate(c, elapsed) % TWO32;
      if eta >= CAP { eta := CAP - 1; }
      return Remaining(eta);
    }
  }

  method DrawBar(c: Sizes, bar: int) returns (ratio: Option<nat>, stars: Option<nat>)
    requires c.total != 0 ==> Sum(c) <= c.total
    ensures BarShows(c, bar, ratio, stars)
  {
    ratio, stars := None, None;
    if c.total != 0 {
      ratio := Some(Percent(c));
      if bar > 0 { stars := Some(Share(bar, c)); }
    }
  }

  // ---------------------------------------------------------------- runs

  datatype Call = Call(sizes: Sizes, now: nat)

  ghost predicate AllSane(calls: seq<Call>) {
    forall k :: 0 <= k < |calls| ==> Sane(calls[k].sizes)
  }

  ghost function Run(st: State, calls: seq<Call>, wide: bool): State
    requires AllSane(calls)
    decreases |calls|
  {
    if calls == [] then st
    else
      var last := calls[|calls| - 1];
      Next(Run(st, calls[..|calls| - 1], wide), last.sizes, last.now, wide)
  }

  /** The clock never goes back and stays below 2^31. */
  ghost predicate Clocked(first: nat, calls: seq<Call>) {
    && (forall k :: 0 <= k < |calls| ==> first <= calls[k].now < TWO31)
    && forall j, k :: 0 <= j < k < |calls| ==> calls[j].now <= calls[k].now
  }

  ghost predicate Ordered(st: State) {
    st.start <= st.lastChange <= st.lastUpdate < TWO31
  }

  lemma {:induction false} RunKeepsOrder(first: nat, calls: seq<Call>, wide: bool)
    requires first < TWO31 && Clocked(first, calls) && AllSane(calls)
    ensures var st := Run(State(first, first, first, 0), calls, wide);
            Ordered(st) && first <= st.start && st.lastUpdate == if calls == [] then first else calls[|calls| - 1].now
    decreases |calls|
  {
    if calls != [] {
      var last := calls[|calls| - 1];
      RunKeepsOrder(first, calls[..|calls| - 1], wide);
      NextKeepsOrder(Run(State(first, first, first, 0), calls[..|calls| - 1], wide), last.sizes, last.now, wide);
    }
  }

  lemma NextKeepsOrder(st: State, s: Sizes, now: nat, wide: bool)
    requires Ordered(st) && st.lastUpdate <= now < TWO31 && Sane(s)
    ensures Ordered(Next(st, s, now, wide)) && Next(st, s, now, wide).lastUpdate == now
    ensures st.start <= Next(st, s, now, wide).start
  {
    hide Scale, Clamp;
  }

  /** So the time since the start is never negative: at any later call no subtraction wraps, the sign test of
      the source never fires, and a call reports a stall exactly if the size stood still for five seconds. */
  lemma ClocksNeverWrap(st: State, s: Sizes, now: nat, wide: bool)
    requires Ordered(st) && st.lastUpdate <= now < TWO31 && Sane(s) && !IsSkipped(st, s, now)
    ensures var after := Next(st, s, now, wide);
            var c := Scale(Clamp(s), wide).sizes;
            && Ordered(after) && Sub32(now, after.start) == now - after.start < TWO31
            && (c.total != 0 ==> c.beg <= c.total)
            && (StatusOf(after, c, now) == Stalled <==>
                  c.transferred % TWO32 == st.lastSize && now - st.lastChange >= STALLTIME)
  {
    hide Estimate, Narrowed;
    ScaledFits(s, wide);
  }

  /** When a stalled transfer moves again, the clock resumes where it stood at the last change. */
  lemma StallIsCutOut(st: State, s: Sizes, now: nat, wide: bool)
    requires Ordered(st) && st.lastUpdate <= now < TWO31 && Sane(s) && !IsSkipped(st, s, now)
    requires Scale(Clamp(s), wide).sizes.transferred % TWO32 != st.lastSize
    ensures var after := Next(st, s, now, wide);
            now - after.start == if now - st.lastChange >= STALLTIME then st.lastChange - st.start else now - st.start
  {
    hide Scale, Clamp;
  }

  // ---------------------------------------------------------------- the remaining time over runs

  /** What a call counts as received. */
  function Received(c: Call, wide: bool): nat
    requires Sane(c.sizes)
  {
    Scale(Clamp(c.sizes), wide).sizes.transferred
  }

  /** What is received never falls. */
  ghost predicate Growing(calls: seq<Call>, wide: bool)
    requires AllSane(calls)
  {
    forall j, k :: 0 <= j < k < |calls| ==> Received(calls[j], wide) <= Received(calls[k], wide)
  }

  /** So it is whenever more of one file arrives. */
  lemma MoreIsGrowing(a: Call, b: Call, wide: bool)
    requires Sane(a.sizes) && Sane(b.sizes)
    requires a.sizes.beg == b.sizes.beg && a.sizes.total == b.sizes.total && a.sizes.transferred <= b.sizes.transferred
    ensures Received(a, wide) <= Received(b, wide)
  {
    ScaleIsShift(Clamp(a.sizes), wide);
    ScaleIsShift(Clamp(b.sizes), wide);
    var x, y, u := Clamp(a.sizes).transferred, Clamp(b.sizes).transferred, Unit(a.sizes, wide);
    assert x <= y;
    FloorOfSum(x, 0, y, u);
  }

  /** Stalls are cut out, so each unit received has paid for at most four seconds up to the last change. */
  ghost predicate Paid(st: State, size: nat) {
    Ordered(st) && st.lastSize == size % TWO32 && st.lastChange - st.start <= 4 * size
  }

  lemma StepIsPaid(st: State, size: nat, now: nat, received: nat) returns (next: nat)
    requires Paid(st, size) && st.lastUpdate <= now < TWO31 && size <= received
    ensures Paid(Changed(st, now, received), next) && next <= received
  {
    next := if received % TWO32 == st.lastSize then size else received;
  }

  lemma {:induction false} RunIsPaid(first: nat, calls: seq<Call>, wide: bool) returns (size: nat)
    requires first < TWO31 && Clocked(first, calls) && AllSane(calls) && Growing(calls, wide)
    ensures Paid(Run(State(first, first, first, 0), calls, wide), size)
    ensures if calls == [] then size == 0 else size <= Received(calls[|calls| - 1], wide)
    decreases |calls|
  {
    if calls == [] { return 0; }
    var n := |calls| - 1;
    var front, last := calls[..n], calls[n];
    size := RunIsPaid(first, front, wide);
    RunKeepsOrder(first, front, wide);
    var st := Run(State(first, first, first, 0), front, wide);
    assert n > 0 ==> Received(calls[n - 1], wide) <= Received(last, wide);
    hide Scale, Clamp;
    if !IsSkipped(st, last.sizes, last.now) {
      size := StepIsPaid(st, size, last.now, Received(last, wide));
    }
  }

  /** In every run a remaining time is shown only while at most four seconds have passed for each unit
      received, and four more. */
  lemma RemainingIsPaid(first: nat, calls: seq<Call>, wide: bool)
    requires first < TWO31 && Clocked(first, calls) && AllSane(calls) && Growing(calls, wide) && calls != []
    requires Shows(first, calls, wide).Remaining?
    ensures var c := Scale(Clamp(calls[|calls| - 1].sizes), wide).sizes;
            var elapsed := Sub32(calls[|calls| - 1].now, Run(State(first, first, first, 0), calls, wide).start);
            c.beg <= c.total && c.transferred > 0 && elapsed <= 4 * c.transferred + 4
  {
    var size := RunIsPaid(first, calls, wide);
    var last := calls[|calls| - 1];
    RunKeepsOrder(first, calls, wide);
    ScaledFits(last.sizes, wide);
    hide Scale, Clamp, StatusOf, Run, Paid, Ordered;
    StateIsPaid(Run(State(first, first, first, 0), calls, wide), size, Scale(Clamp(last.sizes), wide).sizes, last.now);
  }

  lemma StateIsPaid(st: State, size: nat, c: Sizes, now: nat)
    requires Paid(st, size) && st.lastUpdate == now && size <= c.transferred && (c.total != 0 ==> c.beg <= c.total)
    requires StatusOf(st, c, now).Remaining?
    ensures c.beg <= c.total && c.transferred > 0 && Sub32(now, st.start) <= 4 * c.transferred + 4
  {
    hide Estimate, Narrowed;
  }

  /** What the last call of a run says about time. */
  ghost function Shows(first: nat, calls: seq<Call>, wide: bool): Status
    requires calls != [] && AllSane(calls)
  {
    var last := calls[|calls| - 1];
    ScaledFits(last.sizes, wide);
    StatusOf(Run(State(first, first, first, 0), calls, wide), Scale(Clamp(last.sizes), wide).sizes, last.now)
  }

  const SAFE := 0x2000_0000

  lemma EstimateIsSmall(s: Sizes, elapsed: nat)
    requires s.beg <= s.total && s.transferred > 0 && s.total - s.beg <= SAFE && elapsed <= 4 * s.transferred + 4
    ensures Estimate(s, elapsed) < TWO32
  {
    var whole, t := s.total - s.beg, s.transferred;
    assert elapsed <= 8 * t;
    Scaling(whole, elapsed, 8 * t);
    Scaling(8 * t, whole, SAFE);
    QuotientBounds(whole * elapsed, t);
    Times(whole, t);
    var q := whole * elapsed / t;
    Cancel(q, 8 * whole + 1, t);
    if elapsed == 0 { QuotientIs(0, t, 0); }
  }

  lemma Times(whole: nat, t: nat)
    ensures whole * (8 * t) == 8 * whole * t && (8 * whole + 1) * t == 8 * whole * t + t
  {
  }

  /** Up to this scaled size no estimate of any run leaves 32 bits: what is shown is the capped estimate. */
  lemma ShownTimeIsRight(first: nat, calls: seq<Call>, wide: bool)
    requires first < TWO31 && Clocked(first, calls) && AllSane(calls) && Growing(calls, wide) && calls != []
    requires Shows(first, calls, wide).Remaining?
    requires var c := Scale(Clamp(calls[|calls| - 1].sizes), wide).sizes; c.total - c.beg <= SAFE
    ensures var c := Scale(Clamp(calls[|calls| - 1].sizes), wide).sizes;
            var elapsed := Sub32(calls[|calls| - 1].now, Run(State(first, first, first, 0), calls, wide).start);
            && c.beg <= c.total && c.transferred > 0 && 0 <= Estimate(c, elapsed) < TWO32
            && Shows(first, calls, wide) == Remaining(Capped(Estimate(c, elapsed)))
  {
    RemainingIsPaid(first, calls, wide);
    var c := Scale(Clamp(calls[|calls| - 1].sizes), wide).sizes;
    var elapsed := Sub32(calls[|calls| - 1].now, Run(State(first, first, first, 0), calls, wide).start);
    ScaledFits(calls[|calls| - 1].sizes, wide);
    EstimateIsNonnegative(c, elapsed);
    EstimateIsSmall(c, elapsed);
    hide Scale, Clamp, Run, Estimate;
    NarrowingIsExactIff(Estimate(c, elapsed));
  }

  /** One unit above that size the shown time can be wrong: the first unit arrives after four seconds, and after
      eight the meter shows zero, while almost 50 days remain. */
  lemma EstimateMayWrap() returns (calls: seq<Call>)
    ensures Clocked(0, calls) && AllSane(calls) && Growing(calls, true) && calls != []
    ensures var c := Scale(Clamp(calls[|calls| - 1].sizes), true).sizes;
            c.total - c.beg == SAFE + 1 && Shows(0, calls, true) == Remaining(0)
  {
    var s := Sizes(0, 1024, 0x2000_0001 * 1024);
    var c := Sizes(0, 1, 0x2000_0001);
    calls := [Call(s, 4), Call(s, 8)];
    assert Clamp(s) == s && Scale(s, true) == Scaled(c, 1);
    var st := State(0, 0, 0, 0);
    assert calls[..0] == [] && calls[..1][..0] == [] && calls[..1] == [Call(s, 4)];
    assert Run(st, calls[..1], true) == State(0, 4, 4, 1);
    assert Run(st, calls, true) == State(0, 8, 4, 1);
    assert Estimate(c, 8) == TWO32;
  }
}
