/**
 * The plugin's tick-rate estimator: once per server tick the scheduler calls
 * processTick, which measures the time since the previous tick, folds it into
 * an integer exponential moving average of the tick length (nanoseconds),
 * reloads the per-tick chunk budget and advances the tick counter.
 *
 * The clock read and the chunk budget read from the map manager are
 * parameters here. Kotlin's `Long` is modelled by unbounded `int`.
 */
module TickRate {

  /** The average before any tick is measured: 50 ms, i.e. 20 ticks per second. */
  const SeedTickLength: int := 50_000_000

  /** Nanoseconds per millisecond, the factor of the perTickLimit conversion. */
  const NanosPerMilli: int := 1_000_000

  /** Kotlin integer division: the quotient is truncated toward zero. */
  function TruncDiv(a: int, d: int): (q: int)
    requires d > 0
    ensures a >= 0 ==> q * d <= a < q * d + d
    ensures a < 0 ==> q * d - d < a <= q * d
  {
    if a >= 0 then a / d else -((-a) / d)
  }

  /** One step of the moving average, with each division truncated separately. */
  function NextAverage(avg: int, elapsed: int): int
  {
    TruncDiv(avg * 99, 100) + TruncDiv(elapsed, 100)
  }

  /** The single-division form `(avg * 99 + elapsed) / 100` the code does NOT use. */
  function CombinedAverage(avg: int, elapsed: int): int
  {
    TruncDiv(avg * 99 + elapsed, 100)
  }

  function Min(a: int, b: int): int { if a <= b then a else b }
  function Max(a: int, b: int): int { if a <= b then b else a }

  /** The worked examples: a 20 TPS seed is kept by a 50 ms tick and moved to
      50,500,000 by one 100 ms tick; the average can fall to 0; 150 drifts to 149. */
  lemma AverageExamples()
    ensures NextAverage(SeedTickLength, SeedTickLength) == SeedTickLength
    ensures NextAverage(SeedTickLength, 100_000_000) == 50_500_000
    ensures NextAverage(1, 0) == 0
    ensures NextAverage(150, 150) == 149
  {
    SteadyTick(SeedTickLength);
    SteadyTick(150);
    assert SeedTickLength * 99 == 100 * 49_500_000;
    assert TruncDiv(SeedTickLength * 99, 100) == 49_500_000;
    assert TruncDiv(100_000_000, 100) == 1_000_000;
  }

  /** For non-negative inputs the new average stays between the smaller input
      less one and the larger input; in particular it is never negative. It is
      NOT necessarily positive (see AverageExamples). */
  lemma NextAverageBounds(avg: int, elapsed: int)
    requires avg >= 0 && elapsed >= 0
    ensures 0 <= NextAverage(avg, elapsed) <= Max(avg, elapsed)
    ensures Min(avg, elapsed) - 1 <= NextAverage(avg, elapsed)
  {
  }

  /** Truncating twice loses at most one unit against truncating once. */
  lemma SeparateVersusCombined(avg: int, elapsed: int)
    requires avg >= 0 && elapsed >= 0
    ensures NextAverage(avg, elapsed) <= CombinedAverage(avg, elapsed) <= NextAverage(avg, elapsed) + 1
  {
  }

  /** The two forms really differ: 150 ns steady ticks. */
  lemma SeparateDiffersFromCombined()
    ensures NextAverage(150, 150) != CombinedAverage(150, 150)
  {
  }

  /** A steady tick length d is kept exactly when d is a multiple of 100;
      otherwise truncation lowers the average by one. */
  lemma SteadyTick(d: int)
    requires d >= 0
    ensures NextAverage(d, d) == if d % 100 == 0 then d else d - 1
  {
  }

  /** perTickLimit: the configured maximum tick use, a Kotlin `Int` of
      milliseconds, widened to `Long` and converted to nanoseconds. The
      conversion is exact and cannot leave the 64-bit range. */
  function PerTickLimitNanos(maxTickUseMS: int): (r: int)
    requires -0x8000_0000 <= maxTickUseMS < 0x8000_0000
    ensures r % NanosPerMilli == 0 && r / NanosPerMilli == maxTickUseMS
    ensures -0x8000_0000_0000_0000 <= r < 0x8000_0000_0000_0000
  {
    maxTickUseMS * NanosPerMilli
  }

  /** The estimator's integer fields (the `tps` double is not modelled). */
  datatype TickState = TickState(
    lastTick: int,
    perTickLimit: int,
    currentTickStartTime: int,
    avgTickLength: int,
    chunksInCurrentTick: int,
    currentTick: int,
    prevTick: int)

  /** One scheduler callback: the clock reading and the chunk budget supplied for it. */
  datatype Sample = Sample(now: int, maxChunkLoads: int)

  /** The state after one processTick. */
  function Tick(s: TickState, x: Sample): TickState
  {
    s.(lastTick := x.now,
       avgTickLength := NextAverage(s.avgTickLength, x.now - s.lastTick),
       chunksInCurrentTick := x.maxChunkLoads,
       currentTick := s.currentTick + 1)
  }

  /** The state after one processTick per sample, in order. */
  function Run(s: TickState, xs: seq<Sample>): TickState
    decreases |xs|
  {
    if xs == [] then s else Run(Tick(s, xs[0]), xs[1..])
  }

  /** Every tick interval, measured from `last` onwards, lies in [lo, hi]. */
  ghost predicate GapsWithin(last: int, xs: seq<Sample>, lo: int, hi: int)
    decreases |xs|
  {
    xs == [] || (lo <= xs[0].now - last <= hi && GapsWithin(xs[0].now, xs[1..], lo, hi))
  }

  /** After N ticks the counter has advanced by exactly N, the clock and the
      chunk budget are those of the last tick, and the other fields are untouched. */
  lemma {:induction false} RunCounts(s: TickState, xs: seq<Sample>)
    ensures Run(s, xs).currentTick == s.currentTick + |xs|
    ensures Run(s, xs).perTickLimit == s.perTickLimit
    ensures Run(s, xs).prevTick == s.prevTick
    ensures Run(s, xs).currentTickStartTime == s.currentTickStartTime
    ensures xs != [] ==> Run(s, xs).lastTick == xs[|xs| - 1].now
    ensures xs != [] ==> Run(s, xs).chunksInCurrentTick == xs[|xs| - 1].maxChunkLoads
    decreases |xs|
  {
    if xs != [] {
      RunCounts(Tick(s, xs[0]), xs[1..]);
      if |xs| > 1 {
        assert xs[1..][|xs[1..]| - 1] == xs[|xs| - 1];
      }
    }
  }

  /** The value a steady tick length d settles at: d rounded down to a
      multiple of 100. */
  function SettlePoint(d: int): int
  {
    100 * (d / 100)
  }

  /** While the average and the interval share their hundreds (and neither is
      negative), one tick keeps an average that is a multiple of 100 and
      lowers any other by exactly one. */
  lemma SameHundredsTick(avg: int, elapsed: int)
    requires avg >= 0 && elapsed >= 0 && avg / 100 == elapsed / 100
    ensures NextAverage(avg, elapsed) == if avg % 100 == 0 then avg else avg - 1
  {
    var k, r := avg / 100, avg % 100;
    assert avg * 99 == 100 * (99 * k) + 99 * r;
    if r != 0 {
      assert 99 * r == 100 * (r - 1) + (100 - r);
    }
  }

  /** One tick of interval d >= 0 from a non-negative average a. At or below
      SettlePoint(d) the average never falls and never passes SettlePoint(d);
      it stays put exactly when it is within 100 ns under SettlePoint(d).
      Above SettlePoint(d) it falls, but not below SettlePoint(d). */
  lemma SteadyApproach(a: int, d: int)
    requires a >= 0 && d >= 0
    ensures a <= SettlePoint(d) ==> a <= NextAverage(a, d) <= SettlePoint(d)
    ensures a <= SettlePoint(d) ==> (NextAverage(a, d) == a <==> SettlePoint(d) - 100 < a)
    ensures a > SettlePoint(d) ==> SettlePoint(d) <= NextAverage(a, d) < a
  {
    var k, r := a / 100, a % 100;
    assert a * 99 == 100 * (99 * k) + 99 * r;
    if r != 0 {
      assert 99 * r == 100 * (r - 1) + (100 - r);
    }
  }

  /** Steady 50 ms ticks do not pull a slightly low average up to the seed:
      49,999,950 ns stays where it is. */
  lemma SeedWindowExample()
    ensures NextAverage(49_999_950, SeedTickLength) == 49_999_950
  {
    assert SettlePoint(SeedTickLength) == SeedTickLength;
    SteadyApproach(49_999_950, SeedTickLength);
  }

  /** One tick whose interval is at least lo never takes the average below
      the smaller of its old value and SettlePoint(lo). */
  lemma TickFloor(avg: int, elapsed: int, lo: int)
    requires 0 <= lo <= elapsed && avg >= 0
    ensures NextAverage(avg, elapsed) >= Min(avg, SettlePoint(lo))
  {
    var k, r := avg / 100, avg % 100;
    assert avg * 99 == 100 * (99 * k) + 99 * r;
    if r != 0 {
      assert 99 * r == 100 * (r - 1) + (100 - r);
    }
    assert TruncDiv(elapsed, 100) >= lo / 100;
  }

  /** With every interval in [lo, hi] (lo >= 0) and any non-negative start,
      the average stays non-negative, never rises above the larger of its
      start and hi, never falls below the smaller of its start and
      SettlePoint(lo), and loses at most one nanosecond per tick below lo. */
  lemma {:induction false} RunAverageWithin(s: TickState, xs: seq<Sample>, lo: int, hi: int, slack: nat)
    requires 0 <= lo && 0 <= s.avgTickLength
    requires lo - slack <= s.avgTickLength
    requires GapsWithin(s.lastTick, xs, lo, hi)
    ensures 0 <= Run(s, xs).avgTickLength
    ensures Min(s.avgTickLength, SettlePoint(lo)) <= Run(s, xs).avgTickLength <= Max(s.avgTickLength, hi)
    ensures lo - slack - |xs| <= Run(s, xs).avgTickLength
    decreases |xs|
  {
    if xs != [] {
      NextAverageBounds(s.avgTickLength, xs[0].now - s.lastTick);
      TickFloor(s.avgTickLength, xs[0].now - s.lastTick, lo);
      RunAverageWithin(Tick(s, xs[0]), xs[1..], lo, hi, slack + 1);
    }
  }

  /** One tick of interval d at or below the average a closes at least a
      hundredth of the gap: the new gap is at most 99/100 of the old one. */
  lemma TickPull(a: int, d: int)
    requires 0 <= d <= a
    ensures NextAverage(a, d) - d <= 99 * (a - d) / 100
  {
  }

  /** Recovery after a stall: steady ticks of length d bring an average
      above SettlePoint(d) down, strictly at every tick while it is above,
      and never below SettlePoint(d). */
  lemma {:induction false} RunDecays(s: TickState, xs: seq<Sample>, d: int)
    requires d >= 0 && SettlePoint(d) <= s.avgTickLength
    requires GapsWithin(s.lastTick, xs, d, d)
    ensures SettlePoint(d) <= Run(s, xs).avgTickLength <= s.avgTickLength
    ensures xs != [] && s.avgTickLength > SettlePoint(d) ==> Run(s, xs).avgTickLength < s.avgTickLength
    decreases |xs|
  {
    if xs != [] {
      SteadyApproach(s.avgTickLength, d);
      RunDecays(Tick(s, xs[0]), xs[1..], d);
    }
  }

  /** A steady interval d that is not a multiple of 100 does not keep an
      average of d: from anywhere between SettlePoint(d) and d the average
      drops by one per tick until it reaches SettlePoint(d), and stays there. */
  lemma {:induction false} RunSettles(s: TickState, xs: seq<Sample>, d: int)
    requires d >= 0 && SettlePoint(d) <= s.avgTickLength <= d
    requires GapsWithin(s.lastTick, xs, d, d)
    ensures Run(s, xs).avgTickLength == Max(s.avgTickLength - |xs|, SettlePoint(d))
    decreases |xs|
  {
    if xs != [] {
      SameHundredsTick(s.avgTickLength, d);
      RunSettles(Tick(s, xs[0]), xs[1..], d);
    }
  }

  /** From at or below SettlePoint(d), steady ticks of length d never lower
      the average and never lift it past SettlePoint(d); an average already
      within 100 ns under SettlePoint(d) never moves at all. */
  lemma {:induction false} RunApproach(s: TickState, xs: seq<Sample>, d: int)
    requires d >= 0 && 0 <= s.avgTickLength <= SettlePoint(d)
    requires GapsWithin(s.lastTick, xs, d, d)
    ensures s.avgTickLength <= Run(s, xs).avgTickLength <= SettlePoint(d)
    ensures SettlePoint(d) - 100 < s.avgTickLength ==> Run(s, xs).avgTickLength == s.avgTickLength
    decreases |xs|
  {
    if xs != [] {
      SteadyApproach(s.avgTickLength, d);
      RunApproach(Tick(s, xs[0]), xs[1..], d);
    }
  }

  /** A steady stream of ticks of length d, d a multiple of 100, keeps an
      average of d forever; the 20 TPS seed is such a fixed point. */
  lemma {:induction false} RunSteady(s: TickState, xs: seq<Sample>, d: int)
    requires d >= 0 && d % 100 == 0 && s.avgTickLength == d
    requires GapsWithin(s.lastTick, xs, d, d)
    ensures Run(s, xs).avgTickLength == d
    decreases |xs|
  {
    if xs != [] {
      SteadyTick(d);
      RunSteady(Tick(s, xs[0]), xs[1..], d);
    }
  }

  /** The estimator state held by the plugin object. */
  class TickClock {
    var lastTick: int
    var perTickLimit: int
    var currentTickStartTime: int
    var avgTickLength: int
    var chunksInCurrentTick: int
    var currentTick: int
    var prevTick: int

    function State(): TickState
      reads this
    {
      TickState(lastTick, perTickLimit, currentTickStartTime, avgTickLength,
                chunksInCurrentTick, currentTick, prevTick)
    }

    /** The field initialisers of the plugin class. */
    constructor ()
      ensures State() == TickState(0, 0, 0, SeedTickLength, 0, 0, 0)
    {
      lastTick := 0;
      perTickLimit := 0;
      currentTickStartTime := 0;
      avgTickLength := SeedTickLength;
      chunksInCurrentTick := 0;
      currentTick := 0;
      prevTick := 0;
    }

    /** Server start, once the core is enabled: stamp the clock and convert
        the configured tick budget from milliseconds to nanoseconds. */
    method Start(now: int, maxTickUseMS: int)
      requires -0x8000_0000 <= maxTickUseMS < 0x8000_0000
      modifies this
      ensures State() == old(State()).(lastTick := now, perTickLimit := PerTickLimitNanos(maxTickUseMS))
    {
      lastTick := now;
      perTickLimit := PerTickLimitNanos(maxTickUseMS);
    }

    /** processTick: `now` is the clock reading, `maxChunkLoads` the budget
        the map manager reports for this tick. */
    method ProcessTick(now: int, maxChunkLoads: int)
      modifies this
      ensures currentTick == old(currentTick) + 1
      ensures lastTick == now
      ensures avgTickLength == TruncDiv(old(avgTickLength) * 99, 100) + TruncDiv(now - old(lastTick), 100)
      ensures chunksInCurrentTick == maxChunkLoads
      ensures perTickLimit == old(perTickLimit) && prevTick == old(prevTick)
      ensures currentTickStartTime == old(currentTickStartTime)
      ensures State() == Tick(old(State()), Sample(now, maxChunkLoads))
    {
      var elapsed := now - lastTick;
      lastTick := now;
      avgTickLength := NextAverage(avgTickLength, elapsed);
      chunksInCurrentTick := maxChunkLoads;
      currentTick := currentTick + 1;
    }
  }
}
