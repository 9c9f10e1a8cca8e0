/** Delivery pricing: surge windows over local clock times, and a fee rounded twice. */
module Pricing {
  import opened Wrappers

  /** A surge window; times are local "HH:mm" strings and days run from 0, Sunday, to 6. */
  datatype Window = Window(days: seq<int>, startTime: string, endTime: string, multiplier: real)

  datatype Rule = Rule(
    baseFeeMinor: int,
    perKmMinor: int,
    minOrderMinor: int,
    freeDeliveryThresholdMinor: Option<int>,
    surgeWindows: seq<Window>
  )

  datatype Snapshot = Snapshot(
    subtotalMinor: int,
    baseFeeMinor: int,
    distanceFeeMinor: int,
    surgeMultiplier: real,
    surgeFeeMinor: int,
    freeDeliveryApplied: bool,
    deliveryFeeMinor: int,
    minOrderMinor: int,
    minOrderMet: bool,
    totalMinor: int
  )

  // --- Clock labels ----------------------------------------------------------

  function Digit(d: nat): char
    requires d < 10
  {
    ('0' as int + d) as char
  }

  function DigitValue(c: char): int {
    c as int - '0' as int
  }

  /** `String(n).padStart(2, '0')`. */
  function Pad2(n: nat): string
    requires n < 100
  {
    [Digit(n / 10), Digit(n % 10)]
  }

  function ClockLabel(hours: nat, minutes: nat): string
    requires hours < 24 && minutes < 60
  {
    Pad2(hours) + ":" + Pad2(minutes)
  }

  /** The pattern every stored window time matches. */
  predicate ValidTime(s: string) {
    && |s| == 5 && s[2] == ':'
    && ((s[0] in "01" && '0' <= s[1] <= '9') || (s[0] == '2' && '0' <= s[1] <= '3'))
    && '0' <= s[3] <= '5' && '0' <= s[4] <= '9'
  }

  function MinuteOfDay(s: string): int
    requires ValidTime(s)
  {
    60 * (10 * DigitValue(s[0]) + DigitValue(s[1])) + 10 * DigitValue(s[3]) + DigitValue(s[4])
  }

  /** `a <= b` on strings, by code units. */
  predicate StringLe(a: string, b: string) {
    a == "" || (b != "" && (a[0] < b[0] || (a[0] == b[0] && StringLe(a[1..], b[1..]))))
  }

  lemma ClockLabelIsValid(hours: nat, minutes: nat)
    requires hours < 24 && minutes < 60
    ensures ValidTime(ClockLabel(hours, minutes))
    ensures MinuteOfDay(ClockLabel(hours, minutes)) == 60 * hours + minutes
  {
    var s := ClockLabel(hours, minutes);
    assert s[0] == Digit(hours / 10) && s[1] == Digit(hours % 10);
    assert s[3] == Digit(minutes / 10) && s[4] == Digit(minutes % 10);
  }

  /** Comparing zero-padded labels as strings is comparing minutes of the day. */
  lemma StringOrderIsClockOrder(a: string, b: string)
    requires ValidTime(a) && ValidTime(b)
    ensures StringLe(a, b) <==> MinuteOfDay(a) <= MinuteOfDay(b)
  {
    hide StringLe;
    StringLeStep(a, b);
    StringLeStep(a[1..], b[1..]);
    StringLeStep(a[2..], b[2..]);
    StringLeStep(a[3..], b[3..]);
    StringLeStep(a[4..], b[4..]);
    EmptyStringIsLeast(a[5..], b[5..]);
  }

  lemma StringLeStep(a: string, b: string)
    requires a != "" && b != ""
    ensures StringLe(a, b) <==> a[0] < b[0] || (a[0] == b[0] && StringLe(a[1..], b[1..]))
    ensures forall i :: 1 <= i < |a| ==> a[1..][i - 1..] == a[i..]
    ensures forall i :: 1 <= i < |b| ==> b[1..][i - 1..] == b[i..]
  {
  }

  lemma EmptyStringIsLeast(a: string, b: string)
    requires a == ""
    ensures StringLe(a, b)
  {
  }

  // --- Surge -----------------------------------------------------------------

  predicate ActiveAt(w: Window, day: int, hhmm: string) {
    day in w.days && StringLe(w.startTime, hhmm) && StringLe(hhmm, w.endTime)
  }

  /** `m` is the largest of 1 and the multipliers of the active windows. */
  ghost predicate IsSurge(m: real, windows: seq<Window>, day: int, hhmm: string) {
    && m >= 1.0
    && (forall w :: w in windows && ActiveAt(w, day, hhmm) ==> w.multiplier <= m)
    && (m == 1.0 || exists w :: w in windows && ActiveAt(w, day, hhmm) && w.multiplier == m)
  }

  function Surge(windows: seq<Window>, day: int, hhmm: string): real {
    if windows == [] then 1.0
    else
      var rest := Surge(windows[1..], day, hhmm);
      if ActiveAt(windows[0], day, hhmm) && windows[0].multiplier > rest then windows[0].multiplier else rest
  }

  lemma {:induction false} SurgeIsMaximum(windows: seq<Window>, day: int, hhmm: string)
    ensures IsSurge(Surge(windows, day, hhmm), windows, day, hhmm)
  {
    if windows != [] {
      SurgeIsMaximum(windows[1..], day, hhmm);
      assert forall w :: w in windows <==> w == windows[0] || w in windows[1..];
    }
  }

  /** The loop computes the maximum. */
  method ResolveSurgeMultiplier(windows: seq<Window>, day: int, hours: nat, minutes: nat) returns (mult: real)
    requires hours < 24 && minutes < 60
    ensures IsSurge(mult, windows, day, ClockLabel(hours, minutes))
    ensures mult == Surge(windows, day, ClockLabel(hours, minutes))
  {
    var hhmm := ClockLabel(hours, minutes);
    mult := 1.0;
    for i := 0 to |windows|
      invariant IsSurge(mult, windows[..i], day, hhmm)
    {
      var w := windows[i];
      assert forall x :: x in windows[..i + 1] <==> x == w || x in windows[..i];
      if day !in w.days {
        continue;
      }
      if StringLe(w.startTime, hhmm) && StringLe(hhmm, w.endTime) {
        mult := if w.multiplier > mult then w.multiplier else mult;
      }
    }
    assert windows[..|windows|] == windows;
    SurgeIsMaximum(windows, day, hhmm);
    SurgeIsUnique(mult, Surge(windows, day, hhmm), windows, windows, day, hhmm);
  }

  /** Order and repetition of the windows do not matter, only which windows there are. */
  lemma SurgeIsUnique(m: real, n: real, a: seq<Window>, b: seq<Window>, day: int, hhmm: string)
    requires IsSurge(m, a, day, hhmm) && IsSurge(n, b, day, hhmm)
    requires forall w :: w in a <==> w in b
    ensures m == n
  {
    if m != 1.0 {
      var w :| w in a && ActiveAt(w, day, hhmm) && w.multiplier == m;
      assert w in b;
    }
    if n != 1.0 {
      var w :| w in b && ActiveAt(w, day, hhmm) && w.multiplier == n;
      assert w in a;
    }
  }

  lemma SurgeIgnoresOrderAndRepeats(a: seq<Window>, b: seq<Window>, day: int, hhmm: string)
    requires forall w :: w in a <==> w in b
    ensures Surge(a, day, hhmm) == Surge(b, day, hhmm)
  {
    SurgeIsMaximum(a, day, hhmm);
    SurgeIsMaximum(b, day, hhmm);
    SurgeIsUnique(Surge(a, day, hhmm), Surge(b, day, hhmm), a, b, day, hhmm);
  }

  /** On valid times a window is active exactly from its start minute to its end minute, so never across midnight. */
  lemma ActiveBetweenMinutes(w: Window, day: int, hours: nat, minutes: nat)
    requires ValidTime(w.startTime) && ValidTime(w.endTime) && hours < 24 && minutes < 60
    ensures ActiveAt(w, day, ClockLabel(hours, minutes))
            <==> day in w.days && MinuteOfDay(w.startTime) <= 60 * hours + minutes <= MinuteOfDay(w.endTime)
  {
    ClockLabelIsValid(hours, minutes);
    StringOrderIsClockOrder(w.startTime, ClockLabel(hours, minutes));
    StringOrderIsClockOrder(ClockLabel(hours, minutes), w.endTime);
  }

  // --- The fee ---------------------------------------------------------------

  /** `Math.round`: halves go up. */
  function Round(x: real): int {
    (x + 0.5).Floor
  }

  /** The product as one named term, so that a proof can treat it as a unit. */
  function Times(x: real, y: real): real {
    x * y
  }

  /** What the distance costs before rounding. */
  function DistanceCharge(r: Rule, distanceKm: real): real {
    Times(r.perKmMinor as real, distanceKm)
  }

  /** The delivery fee before any waiver, from the unrounded distance charge. */
  function SurgedFee(baseFeeMinor: int, distanceCharge: real, mult: real): int {
    Round(Times((baseFeeMinor + Round(distanceCharge)) as real, mult))
  }

  function ComputePricing(rule: Option<Rule>, subtotalMinor: int, distanceKm: real, day: int, hhmm: string): Snapshot {
    match rule
    case None => Snapshot(subtotalMinor, 0, 0, 1.0, 0, false, 0, 0, true, subtotalMinor)
    case Some(r) =>
      var distanceFeeMinor := Round(DistanceCharge(r, distanceKm));
      var mult := Surge(r.surgeWindows, day, hhmm);
      var preSurge := r.baseFeeMinor + distanceFeeMinor;
      var surged := SurgedFee(r.baseFeeMinor, DistanceCharge(r, distanceKm), mult);
      var free := r.freeDeliveryThresholdMinor.Some? && subtotalMinor >= r.freeDeliveryThresholdMinor.value;
      var fee := if free then 0 else surged;
      Snapshot(subtotalMinor, r.baseFeeMinor, distanceFeeMinor, mult, surged - preSurge, free, fee,
               r.minOrderMinor, subtotalMinor >= r.minOrderMinor, subtotalMinor + fee)
  }

  /** The ranges the rule schema enforces. */
  predicate ValidRule(r: Rule) {
    && r.baseFeeMinor >= 0 && r.perKmMinor >= 0
    && forall w :: w in r.surgeWindows ==> 1.0 <= w.multiplier <= 5.0
  }

  lemma SurgeRange(r: Rule, day: int, hhmm: string)
    requires ValidRule(r)
    ensures 1.0 <= Surge(r.surgeWindows, day, hhmm) <= 5.0
  {
    SurgeIsMaximum(r.surgeWindows, day, hhmm);
  }

  lemma RoundIsNear(x: real)
    ensures x - 0.5 < Round(x) as real <= x + 0.5
  {
  }

  lemma ZeroRoundsToZero()
    ensures Round(0.0) == 0
  {
  }

  lemma RoundIsMonotone(x: real, y: real)
    requires x <= y
    ensures Round(x) <= Round(y)
  {
  }

  lemma TimesIsMonotone(a: real, b: real, x: real, y: real)
    requires 0.0 <= a <= b && 0.0 <= x <= y
    ensures 0.0 <= Times(a, x) <= Times(b, y)
  {
    assert a * x <= b * x;
    assert b * x <= b * y;
  }

  lemma TimesDistributes(a: real, b: real, m: real)
    ensures Times(a + b, m) == Times(a, m) + Times(b, m)
  {
  }

  lemma SlipScales(slip: real, mult: real)
    requires -0.5 <= slip <= 0.5 && mult >= 0.0
    ensures -(mult / 2.0) <= Times(slip, mult) <= mult / 2.0
  {
    TimesIsMonotone(0.0, slip + 0.5, 0.0, mult);
    TimesDistributes(slip, 0.5, mult);
    TimesIsMonotone(0.0, 0.5 - slip, 0.0, mult);
    TimesDistributes(0.5 - slip, slip, mult);
  }

  lemma RoundedTwice(baseFeeMinor: int, distanceCharge: real, mult: real)
    requires mult >= 0.0
    ensures -(mult / 2.0 + 0.5)
            <= SurgedFee(baseFeeMinor, distanceCharge, mult) as real
               - Times(baseFeeMinor as real + distanceCharge, mult)
            <= mult / 2.0 + 0.5
  {
    hide Times, Round;
    var exact := baseFeeMinor as real + distanceCharge;
    var slip := Round(distanceCharge) as real - distanceCharge;
    var pre := (baseFeeMinor + Round(distanceCharge)) as real;
    RoundIsNear(distanceCharge);
    SlipScales(slip, mult);
    TimesDistributes(exact, slip, mult);
    assert pre == exact + slip;
    RoundIsNear(Times(pre, mult));
  }

  /** Rounding twice costs at most half the multiplier plus a half: three minor units in all. */
  lemma FeeIsNearExact(r: Rule, subtotalMinor: int, distanceKm: real, day: int, hhmm: string)
    requires ValidRule(r) && distanceKm >= 0.0
    ensures var s := ComputePricing(Some(r), subtotalMinor, distanceKm, day, hhmm);
            var exact := Times(r.baseFeeMinor as real + DistanceCharge(r, distanceKm), s.surgeMultiplier);
            !s.freeDeliveryApplied ==>
              && -(s.surgeMultiplier / 2.0 + 0.5) <= s.deliveryFeeMinor as real - exact <= s.surgeMultiplier / 2.0 + 0.5
              && -3.0 <= s.deliveryFeeMinor as real - exact <= 3.0
  {
    hide SurgedFee, Surge, Times;
    SurgeRange(r, day, hhmm);
    RoundedTwice(r.baseFeeMinor, DistanceCharge(r, distanceKm), Surge(r.surgeWindows, day, hhmm));
  }

  /** The unwaived fee never falls when the base fee, the distance charge or the multiplier grows. */
  lemma SurgedFeeIsMonotone(base1: int, charge1: real, mult1: real, base2: int, charge2: real, mult2: real)
    requires 0 <= base1 <= base2 && 0.0 <= charge1 <= charge2 && 0.0 <= mult1 <= mult2
    ensures 0 <= SurgedFee(base1, charge1, mult1) <= SurgedFee(base2, charge2, mult2)
  {
    hide Times, Round;
    ZeroRoundsToZero();
    RoundIsMonotone(0.0, charge1);
    RoundIsMonotone(charge1, charge2);
    var pre1 := (base1 + Round(charge1)) as real;
    var pre2 := (base2 + Round(charge2)) as real;
    TimesIsMonotone(pre1, pre2, mult1, mult2);
    RoundIsMonotone(0.0, Times(pre1, mult1));
    RoundIsMonotone(Times(pre1, mult1), Times(pre2, mult2));
  }

  /** So a longer trip, a dearer rule or a busier hour never makes an unwaived delivery cheaper. */
  lemma FeeIsMonotone(r1: Rule, km1: real, day1: int, t1: string, r2: Rule, km2: real, day2: int, t2: string,
                      subtotalMinor: int)
    requires ValidRule(r1) && ValidRule(r2)
    requires r1.baseFeeMinor <= r2.baseFeeMinor && r1.perKmMinor <= r2.perKmMinor && 0.0 <= km1 <= km2
    requires Surge(r1.surgeWindows, day1, t1) <= Surge(r2.surgeWindows, day2, t2)
    ensures var s1 := ComputePricing(Some(r1), subtotalMinor, km1, day1, t1);
            var s2 := ComputePricing(Some(r2), subtotalMinor, km2, day2, t2);
            !s1.freeDeliveryApplied && !s2.freeDeliveryApplied ==> 0 <= s1.deliveryFeeMinor <= s2.deliveryFeeMinor
  {
    hide SurgedFee, Surge, Times;
    SurgeRange(r1, day1, t1);
    TimesIsMonotone(r1.perKmMinor as real, r2.perKmMinor as real, km1, km2);
    SurgedFeeIsMonotone(r1.baseFeeMinor, DistanceCharge(r1, km1), Surge(r1.surgeWindows, day1, t1),
                        r2.baseFeeMinor, DistanceCharge(r2, km2), Surge(r2.surgeWindows, day2, t2));
  }

  lemma NoSurgeNoSurcharge(baseFeeMinor: int, distanceCharge: real)
    ensures SurgedFee(baseFeeMinor, distanceCharge, 1.0) == baseFeeMinor + Round(distanceCharge)
  {
  }

  /** Surge never discounts: the surge part is non-negative, and so are the fee and what it adds to the basket. */
  lemma SurgeFeeIsNonNegative(r: Rule, subtotalMinor: int, distanceKm: real, day: int, hhmm: string)
    requires ValidRule(r) && distanceKm >= 0.0
    ensures var s := ComputePricing(Some(r), subtotalMinor, distanceKm, day, hhmm);
            s.surgeFeeMinor >= 0 && s.deliveryFeeMinor >= 0 && s.totalMinor >= subtotalMinor
  {
    hide Surge, Times, SurgedFee;
    SurgeRange(r, day, hhmm);
    var charge := DistanceCharge(r, distanceKm);
    TimesIsMonotone(0.0, r.perKmMinor as real, 0.0, distanceKm);
    RoundIsMonotone(0.0, charge);
    SurgedFeeIsMonotone(r.baseFeeMinor, charge, 1.0, r.baseFeeMinor, charge, Surge(r.surgeWindows, day, hhmm));
    NoSurgeNoSurcharge(r.baseFeeMinor, charge);
  }

  /** What the customer pays grows with the basket, except across the free-delivery line by less than the fee. */
  lemma TotalGrowsUnlessFeeIsWaived(r: Rule, smaller: int, larger: int, distanceKm: real, day: int, hhmm: string)
    requires ValidRule(r) && distanceKm >= 0.0 && smaller <= larger
    ensures var fee := SurgedFee(r.baseFeeMinor, DistanceCharge(r, distanceKm), Surge(r.surgeWindows, day, hhmm));
            ComputePricing(Some(r), smaller, distanceKm, day, hhmm).totalMinor
              <= ComputePricing(Some(r), larger, distanceKm, day, hhmm).totalMinor
            <==> !(r.freeDeliveryThresholdMinor.Some? && smaller < r.freeDeliveryThresholdMinor.value <= larger
                   && larger - smaller < fee)
  {
    hide SurgedFee, Surge, Times;
    SurgeFeeIsNonNegative(r, smaller, distanceKm, day, hhmm);
    SurgeFeeIsNonNegative(r, larger, distanceKm, day, hhmm);
  }

  /** Ordering for exactly the threshold can be cheaper than ordering for less. */
  lemma TotalFallsAtTheThreshold()
    ensures var r := Rule(500, 0, 0, Some(1000), []);
            && ValidRule(r)
            && ComputePricing(Some(r), 900, 3.0, 0, "12:00").totalMinor == 1400
            && ComputePricing(Some(r), 1000, 3.0, 0, "12:00").totalMinor == 1000
  {
    NoSurgeNoSurcharge(500, 0.0);
    ZeroRoundsToZero();
  }

  /** The integer nearest to `x`, the upper one of two. */
  predicate IsRounded(n: int, x: real) {
    x - 0.5 < n as real <= x + 0.5
  }

  /** Everything a quote says, in terms of the rule, the distance, the basket and the surge in force. */
  lemma QuoteInFull(r: Rule, subtotalMinor: int, distanceKm: real, day: int, hhmm: string)
    ensures var s := ComputePricing(Some(r), subtotalMinor, distanceKm, day, hhmm);
            var exactFee := (r.baseFeeMinor + s.distanceFeeMinor) as real * s.surgeMultiplier;
            && s.subtotalMinor == subtotalMinor && s.baseFeeMinor == r.baseFeeMinor
            && IsRounded(s.distanceFeeMinor, r.perKmMinor as real * distanceKm)
            && IsSurge(s.surgeMultiplier, r.surgeWindows, day, hhmm)
            && IsRounded(r.baseFeeMinor + s.distanceFeeMinor + s.surgeFeeMinor, exactFee)
            && (s.freeDeliveryApplied
                <==> r.freeDeliveryThresholdMinor.Some? && subtotalMinor >= r.freeDeliveryThresholdMinor.value)
            && s.deliveryFeeMinor
               == (if s.freeDeliveryApplied then 0 else r.baseFeeMinor + s.distanceFeeMinor + s.surgeFeeMinor)
            && s.minOrderMinor == r.minOrderMinor && (s.minOrderMet <==> subtotalMinor >= r.minOrderMinor)
            && s.totalMinor == subtotalMinor + s.deliveryFeeMinor
  {
    hide Surge;
    SurgeIsMaximum(r.surgeWindows, day, hhmm);
  }

  /** Without a rule delivery is free and any basket is enough. */
  lemma QuoteWithoutRule(subtotalMinor: int, distanceKm: real, day: int, hhmm: string)
    ensures var s := ComputePricing(None, subtotalMinor, distanceKm, day, hhmm);
            && s.deliveryFeeMinor == s.baseFeeMinor == s.distanceFeeMinor == s.surgeFeeMinor == s.minOrderMinor == 0
            && s.surgeMultiplier == 1.0 && !s.freeDeliveryApplied && s.minOrderMet
            && s.subtotalMinor == s.totalMinor == subtotalMinor
  {
  }
}
