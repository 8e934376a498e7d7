/**
 How often a feed is worth re-checking: crawl/schedule.go. The float factors 1.5 and 2.0 are
 exact or floored on the intervals used here, so they are integer arithmetic; the random draw
 of the jitter is an argument in [0, 1).
 */
module Schedule {
  import opened Prelude
  import Cadence
  import Sorting

  datatype Policy = Policy(min: int, max: int, deadRecheck: int, maxFailures: int) {
    /** What a sensible configuration satisfies. */
    predicate Valid() {
      0 < min <= max && 0 < deadRecheck
    }
  }

  const DEFAULT_CADENCE := 6 * HOUR

  function Clamp(p: Policy, d: int): int {
    if p.min > 0 && d < p.min then p.min
    else if p.max > 0 && d > p.max then p.max
    else d
  }

  function OrDefault(current: int): int {
    if current <= 0 then DEFAULT_CADENCE else current
  }

  function IntervalAfterChange(p: Policy, pubDates: seq<int>): int {
    Clamp(p, OrDefault(Cadence.MedianGap(pubDates)))
  }

  function IntervalAfterNoChange(p: Policy, current: int): int {
    Clamp(p, OrDefault(current) * 3 / 2)
  }

  function IntervalAfterError(p: Policy, current: int): int {
    Clamp(p, OrDefault(current) * 2)
  }

  predicate IsDead(p: Policy, consecutiveFailures: int) {
    p.maxFailures > 0 && consecutiveFailures >= p.maxFailures
  }

  predicate IsDraw(draw: real) {
    0.0 <= draw < 1.0
  }

  /** The unrounded jittered delay. */
  function Spread(d: real, draw: real): real {
    d + (draw * 2.0 - 1.0) * (d * 0.1)
  }

  function Jitter(d: int, draw: real): int {
    if d <= 0 then d
    else
      var jittered := Spread(d as real, draw).Floor;
      if jittered < 0 then 0 else jittered
  }

  function NextCheck(now: int, interval: int, draw: real): int {
    now + Jitter(interval, draw)
  }

  /** The clamps, and what an unset one does. */
  lemma ClampIsExact(p: Policy, d: int)
    ensures p.Valid() ==> Clamp(p, d) == Max(p.min, Min(d, p.max))
    ensures p.min <= 0 < p.max ==> Clamp(p, d) == Min(d, p.max)
    ensures p.max <= 0 < p.min ==> Clamp(p, d) == Max(p.min, d)
    ensures p.min <= 0 && p.max <= 0 ==> Clamp(p, d) == d
  {
  }

  /** A quiet check lengthens the interval by half, an error doubles it; six hours is the default. */
  lemma FactorsAreExact(p: Policy, c: int)
    requires p.Valid()
    ensures c > 0 ==> IntervalAfterNoChange(p, c) == Max(p.min, Min(c + c / 2, p.max))
    ensures c > 0 ==> IntervalAfterError(p, c) == Max(p.min, Min(c + c, p.max))
    ensures c <= 0 ==> IntervalAfterNoChange(p, c) == Max(p.min, Min(9 * HOUR, p.max))
    ensures c <= 0 ==> IntervalAfterError(p, c) == Max(p.min, Min(12 * HOUR, p.max))
  {
  }

  /** The cadence of dates that are not all the same one, or six hours, within the clamps. */
  lemma ChangeIsExact(p: Policy, dates: seq<int>)
    requires p.Valid()
    ensures
      var cadence := if Cadence.AllEqual(dates) then 6 * HOUR else Cadence.MedianGap(dates);
      IntervalAfterChange(p, dates) == Max(p.min, Min(cadence, p.max))
  {
    Cadence.GapExactlyWhenDifferent(dates);
  }

  /** Every interval the schedule chooses lies within the configured clamps. */
  lemma IntervalsAreClamped(p: Policy, current: int, pubDates: seq<int>)
    requires p.Valid()
    ensures p.min <= IntervalAfterChange(p, pubDates) <= p.max
    ensures p.min <= IntervalAfterNoChange(p, current) <= p.max
    ensures p.min <= IntervalAfterError(p, current) <= p.max
  {
  }

  /** A daily show is polled daily and a monthly one monthly, within the clamps. */
  lemma PolledAtItsCadence(p: Policy, pubDates: seq<int>, gap: int)
    requires var gaps := Cadence.Gaps(Sorting.Sort(pubDates)); 2 * Cadence.Occurrences(gaps, gap) > |gaps|
    requires p.Valid()
    ensures IntervalAfterChange(p, pubDates) == Max(p.min, Min(gap, p.max))
  {
    Cadence.MajorityGapIsMedian(pubDates, gap);
    Cadence.GapsArePositive(Sorting.Sort(pubDates));
    Cadence.MajorityIsPresent(Cadence.Gaps(Sorting.Sort(pubDates)), gap);
  }

  lemma SpreadWithinTenPercent(d: real, draw: real)
    requires IsDraw(draw) && d > 0.0
    ensures 9.0 * d <= 10.0 * Spread(d, draw) < 11.0 * d
  {
  }

  /** A jittered delay stays within a tenth of the interval, rounded down to a nanosecond. */
  lemma JitterWithinTenPercent(d: int, draw: real)
    requires IsDraw(draw) && d > 0
    ensures 9 * d - 10 < 10 * Jitter(d, draw) <= 11 * d
    ensures d >= 2 ==> Jitter(d, draw) > 0
  {
    SpreadWithinTenPercent(d as real, draw);
    var x := Spread(d as real, draw);
    assert x.Floor as real <= x < x.Floor as real + 1.0;
  }

  /** The delay is nine tenths of the interval and two tenths times the draw, rounded down. */
  lemma JitterFollowsDraw(d: int, draw: real)
    requires IsDraw(draw) && d > 0
    ensures IsJittered(d, draw, Jitter(d, draw))
  {
    var x := d as real;
    SpreadWithinTenPercent(x, draw);
    assert 10.0 * Spread(x, draw) == Tenths(x, draw);
  }

  /** Ten times the interval, stretched by a draw: between nine and eleven of them. */
  function Tenths(interval: real, draw: real): real {
    interval * (9.0 + 2.0 * draw)
  }

  /** The whole nanoseconds in interval * (0.9 + 0.2 * draw). */
  predicate IsJittered(interval: int, draw: real, delay: int) {
    10.0 * (delay as real) <= Tenths(interval as real, draw) < 10.0 * (delay as real) + 10.0
  }

  lemma StretchedAtMost(x: real, draw: real)
    requires IsDraw(draw) && x > 0.0
    ensures Tenths(x, draw) <= 11.0 * x
  {
  }

  lemma WholeTenths(delay: int, interval: int)
    requires 10.0 * (delay as real) <= 11.0 * (interval as real)
    ensures 10 * delay <= 11 * interval
  {
  }

  lemma JitteredIsShort(interval: int, draw: real, delay: int)
    requires IsDraw(draw) && interval > 0 && IsJittered(interval, draw, delay)
    ensures 10 * delay <= 11 * interval
  {
    StretchedAtMost(interval as real, draw);
    WholeTenths(delay, interval);
  }

  // ---- Repeated backoff ----

  function ErrorBackoff(p: Policy, c: int, k: nat): int {
    if k == 0 then c else IntervalAfterError(p, ErrorBackoff(p, c, k - 1))
  }

  function QuietBackoff(p: Policy, c: int, k: nat): int {
    if k == 0 then c else IntervalAfterNoChange(p, QuietBackoff(p, c, k - 1))
  }

  function Pow2(k: nat): (r: int)
    ensures r >= 1
  {
    if k == 0 then 1 else 2 * Pow2(k - 1)
  }

  /** k consecutive failures multiply the interval by 2^k, up to the maximum. */
  lemma {:induction false} ErrorBackoffClosedForm(p: Policy, c: int, k: nat)
    requires p.Valid() && p.min <= c <= p.max
    ensures ErrorBackoff(p, c, k) == Min(p.max, Pow2(k) * c)
  {
    if k > 0 {
      ErrorBackoffClosedForm(p, c, k - 1);
      Pow2Grows(k - 1, c);
      Pow2Doubles(k - 1, c);
      ErrorDoubles(p, Pow2(k - 1) * c);
    }
  }

  lemma ErrorDoubles(p: Policy, d: int)
    requires p.Valid() && p.min <= d
    ensures IntervalAfterError(p, Min(p.max, d)) == Min(p.max, 2 * d)
  {
  }

  lemma Pow2Doubles(k: nat, c: int)
    ensures Pow2(k + 1) * c == 2 * (Pow2(k) * c)
  {
    var n := Pow2(k);
    assert (2 * n) * c == 2 * (n * c);
  }

  lemma Pow2Grows(k: nat, c: int)
    requires c > 0
    ensures Pow2(k) * c >= c
  {
  }

  lemma {:induction false} QuietBackoffInRange(p: Policy, c: int, k: nat)
    requires p.Valid() && p.min <= c <= p.max
    ensures p.min <= QuietBackoff(p, c, k) <= p.max
    ensures c <= QuietBackoff(p, c, k)
  {
    if k > 0 {
      QuietBackoffInRange(p, c, k - 1);
    }
  }

  /** A quiet feed is checked strictly less often each time, until the maximum, where it stays. */
  lemma QuietBackoffGrows(p: Policy, c: int, k: nat)
    requires p.Valid() && p.min <= c <= p.max && c >= 2
    ensures
      var before, after := QuietBackoff(p, c, k), QuietBackoff(p, c, k + 1);
      if before < p.max then before < after <= p.max else after == p.max
  {
    QuietBackoffInRange(p, c, k);
  }

  /** Errors back off at least as hard as quiet checks, round by round. */
  lemma {:induction false} ErrorOutpacesQuiet(p: Policy, c: int, k: nat)
    requires p.Valid() && p.min <= c <= p.max
    ensures QuietBackoff(p, c, k) <= ErrorBackoff(p, c, k)
  {
    if k > 0 {
      ErrorOutpacesQuiet(p, c, k - 1);
      QuietBackoffInRange(p, c, k - 1);
    }
  }

  /** Two quiet checks at least double the interval, up to the maximum ... */
  lemma TwoQuietChecksDouble(p: Policy, c: int)
    requires p.Valid() && p.min <= c <= p.max && c >= 2
    ensures IntervalAfterNoChange(p, IntervalAfterNoChange(p, c)) >= Min(p.max, 2 * c)
  {
  }

  /** ... and an error at most does. */
  lemma ErrorAtMostDoubles(p: Policy, c: int, longer: int)
    requires p.Valid() && p.min <= longer <= p.max && 0 < c <= longer
    ensures IntervalAfterError(p, c) <= Min(p.max, 2 * longer)
  {
  }

  lemma TwoMoreQuietChecks(p: Policy, c: int, k: nat)
    ensures QuietBackoff(p, c, k + 2) == IntervalAfterNoChange(p, IntervalAfterNoChange(p, QuietBackoff(p, c, k)))
  {
  }

  /** Twice as many quiet checks as errors back off at least as far. */
  lemma {:induction false} QuietReachesError(p: Policy, c: int, k: nat)
    requires p.Valid() && p.min <= c <= p.max && c >= 2
    ensures ErrorBackoff(p, c, k) <= QuietBackoff(p, c, 2 * k)
  {
    if k > 0 {
      var j := 2 * (k - 1);
      QuietReachesError(p, c, k - 1);
      QuietBackoffInRange(p, c, j);
      TwoQuietChecksDouble(p, QuietBackoff(p, c, j));
      ErrorAtMostDoubles(p, ErrorBackoff(p, c, k - 1), QuietBackoff(p, c, j));
      TwoMoreQuietChecks(p, c, j);
    }
  }

  /** A quiet feed reaches the maximum after 2k checks once 2^k times its interval exceeds it. */
  lemma QuietReachesMax(p: Policy, c: int, k: nat)
    requires p.Valid() && p.min <= c <= p.max && c >= 2
    requires Pow2(k) * c >= p.max
    ensures QuietBackoff(p, c, 2 * k) == p.max
  {
    QuietReachesError(p, c, k);
    ErrorBackoffClosedForm(p, c, k);
    QuietBackoffInRange(p, c, 2 * k);
  }
}
