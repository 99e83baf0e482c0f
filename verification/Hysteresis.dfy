/** The smoothed hot/cool filter over bandwidth samples. */
module Hysteresis {
  import opened Arithmetic
  import opened Machine

  datatype Metric = Metric(raw: u32, ewma: u32, hot: bool, hotCount: u32, coolCount: u32, sampleTs: u64, valid: bool)

  const DEFAULT_METRIC := Metric(0, 0, false, 0, 0, 0, false)

  datatype FilterConfig = FilterConfig(alphaPct: u32, hotPct: u32, coolPct: u32, hotPersist: u32, coolPersist: u32)

  function Wrap32(x: nat): u32 { x % (U32_MAX + 1) }

  function Product(a: nat, b: nat): nat { a * b }

  function Alpha(cfg: FilterConfig): u32 { Min(cfg.alphaPct, 100) }

  /** The weighted sum before the division by 100, on unbounded integers. */
  function WeightedSum(alpha: nat, raw: nat, ewma: nat): nat
    requires alpha <= 100
  {
    Product(alpha, raw) + Product(100 - alpha, ewma)
  }

  /** The smoothed value as computed: the 32-bit arithmetic wraps in a release build. */
  function Smoothed(prev: Metric, raw: u32, cfg: FilterConfig): u32 {
    if !prev.valid || prev.sampleTs == 0 then raw
    else Wrap32(Wrap32(Product(Alpha(cfg), raw)) + Wrap32(Product(100 - Alpha(cfg), prev.ewma))) / 100
  }

  function Updated(prev: Metric, raw: u32, ts: u64, cfg: FilterConfig): Metric {
    var ewma := Smoothed(prev, raw, cfg);
    var next := Metric(raw, ewma, prev.hot, prev.hotCount, prev.coolCount, ts, true);
    if ewma >= cfg.hotPct then
      var count := SatAdd32(prev.hotCount, 1);
      next.(hotCount := count, coolCount := 0, hot := prev.hot || count >= cfg.hotPersist)
    else if ewma <= cfg.coolPct then
      var count := SatAdd32(prev.coolCount, 1);
      next.(coolCount := count, hotCount := 0, hot := prev.hot && count < cfg.coolPersist)
    else
      next.(hotCount := Min(prev.hotCount, SatSub(cfg.hotPersist, 1)),
            coolCount := Min(prev.coolCount, SatSub(cfg.coolPersist, 1)))
  }

  method UpdateMetric(prev: Metric, raw: u32, ts: u64, cfg: FilterConfig) returns (next: Metric)
    ensures next == Updated(prev, raw, ts, cfg)
  {
    var alpha := Min(cfg.alphaPct, 100);
    var ewma := raw;
    if prev.valid && prev.sampleTs != 0 {
      ewma := Wrap32(Wrap32(Product(alpha, raw)) + Wrap32(Product(100 - alpha, prev.ewma))) / 100;
    }
    next := Metric(raw, ewma, prev.hot, prev.hotCount, prev.coolCount, ts, true);
    if ewma >= cfg.hotPct {
      next := next.(hotCount := SatAdd32(next.hotCount, 1));
      next := next.(coolCount := 0);
      if next.hotCount >= cfg.hotPersist {
        next := next.(hot := true);
      }
    } else if ewma <= cfg.coolPct {
      next := next.(coolCount := SatAdd32(next.coolCount, 1));
      next := next.(hotCount := 0);
      if next.coolCount >= cfg.coolPersist {
        next := next.(hot := false);
      }
    } else {
      next := next.(hotCount := Min(next.hotCount, SatSub(cfg.hotPersist, 1)));
      next := next.(coolCount := Min(next.coolCount, SatSub(cfg.coolPersist, 1)));
    }
  }

  // ----- smoothing -----

  lemma WeightedSumBetween(alpha: nat, raw: nat, ewma: nat)
    requires alpha <= 100
    ensures 100 * Min(raw, ewma) <= WeightedSum(alpha, raw, ewma) <= 100 * Max(raw, ewma)
  {
    var lo, hi := Min(raw, ewma), Max(raw, ewma);
    assert alpha * lo + (100 - alpha) * lo == 100 * lo && alpha * hi + (100 - alpha) * hi == 100 * hi;
    MulKeepsOrder(lo, raw, alpha);
    MulKeepsOrder(raw, hi, alpha);
    MulKeepsOrder(lo, ewma, 100 - alpha);
    MulKeepsOrder(ewma, hi, 100 - alpha);
  }

  lemma WrapsAreOne(a: nat, b: nat)
    ensures Wrap32(Wrap32(a) + Wrap32(b)) == Wrap32(a + b)
  {
  }

  lemma WrappingLoses(sum: nat)
    ensures Wrap32(sum) / 100 == sum / 100 <==> sum <= U32_MAX
  {
    if sum > U32_MAX {
      var q := sum / (U32_MAX + 1);
      DivisionSplits(sum, U32_MAX + 1);
      assert q >= 1 && Wrap32(sum) <= sum - (U32_MAX + 1);
    }
  }

  /** The code computes the exact weighted mean exactly when the sum fits in 32 bits, and then it stays between. */
  lemma SmoothedIsMean(prev: Metric, raw: u32, cfg: FilterConfig)
    requires prev.valid && prev.sampleTs != 0
    ensures var sum := WeightedSum(Alpha(cfg), raw, prev.ewma);
            && (Smoothed(prev, raw, cfg) == sum / 100 <==> sum <= U32_MAX)
            && (sum <= U32_MAX ==> Min(raw, prev.ewma) <= Smoothed(prev, raw, cfg) <= Max(raw, prev.ewma))
  {
    var alpha := Alpha(cfg);
    var sum := WeightedSum(alpha, raw, prev.ewma);
    WrapsAreOne(Product(alpha, raw), Product(100 - alpha, prev.ewma));
    WeightedSumBetween(alpha, raw, prev.ewma);
    WrappingLoses(sum);
  }

  /** Of the function alone: at half weight, two values at the 32-bit limit average to a hundredth of it. */
  lemma SmoothingWraps()
    ensures var prev := Metric(U32_MAX, U32_MAX, true, 0, 0, 1, true);
            var cfg := FilterConfig(50, 8_000, 6_000, 2, 2);
            && WeightedSum(Alpha(cfg), U32_MAX, prev.ewma) / 100 == U32_MAX
            && Smoothed(prev, U32_MAX, cfg) == 42_949_671
  {
    var half := Product(50, U32_MAX);
    assert half == 50 * U32_MAX && Wrap32(half) == U32_MAX + 1 - 50;
    assert Wrap32(Wrap32(half) + Wrap32(half)) == U32_MAX + 1 - 100;
  }

  datatype Sample = Sample(raw: u32, ts: u64)

  ghost function After(cfg: FilterConfig, samples: seq<Sample>): Metric {
    if samples == [] then DEFAULT_METRIC
    else
      var last := samples[|samples| - 1];
      Updated(After(cfg, samples[..|samples| - 1]), last.raw, last.ts, cfg)
  }

  /** Inputs up to a hundredth of the 32-bit range never overflow, and the smoothed value stays within their range. */
  lemma {:induction false} SmoothingIsSafe(cfg: FilterConfig, samples: seq<Sample>, bound: nat)
    requires 100 * bound <= U32_MAX
    requires forall i :: 0 <= i < |samples| ==> samples[i].raw <= bound
    ensures After(cfg, samples).ewma <= bound
    ensures samples != [] ==>
              var prev, raw := After(cfg, samples[..|samples| - 1]), samples[|samples| - 1].raw;
              && WeightedSum(Alpha(cfg), raw, prev.ewma) <= U32_MAX
              && (prev.valid && prev.sampleTs != 0 ==>
                    Min(raw, prev.ewma) <= After(cfg, samples).ewma <= Max(raw, prev.ewma))
  {
    if samples != [] {
      var init, raw := samples[..|samples| - 1], samples[|samples| - 1].raw;
      SmoothingIsSafe(cfg, init, bound);
      var prev := After(cfg, init);
      WeightedSumBetween(Alpha(cfg), raw, prev.ewma);
      if prev.valid && prev.sampleTs != 0 {
        SmoothedIsMean(prev, raw, cfg);
      }
    }
  }

  // ----- persistence -----

  /** One sample raises a count by at most one, and never leaves both counts positive. */
  lemma {:induction false} CountsGrowSlowly(cfg: FilterConfig, samples: seq<Sample>, i: nat, n: nat)
    requires i <= n <= |samples|
    ensures var a, b := After(cfg, samples[..i]), After(cfg, samples[..n]);
            && b.hotCount <= a.hotCount + (n - i) && b.coolCount <= a.coolCount + (n - i)
            && (b.hotCount == 0 || b.coolCount == 0)
    decreases n
  {
    if n > 0 {
      assert samples[..n][..n - 1] == samples[..n - 1];
      CountsGrowSlowly(cfg, samples, Min(i, n - 1), n - 1);
    }
  }

  ghost predicate FlipsHot(cfg: FilterConfig, samples: seq<Sample>, n: nat) {
    0 < n <= |samples| && After(cfg, samples[..n]).hot && !After(cfg, samples[..n - 1]).hot
  }

  ghost predicate FlipsCool(cfg: FilterConfig, samples: seq<Sample>, n: nat) {
    0 < n <= |samples| && !After(cfg, samples[..n]).hot && After(cfg, samples[..n - 1]).hot
  }

  /** A flip happens only at full persistence, and empties the opposite count. */
  lemma FlipsNeedPersistence(cfg: FilterConfig, samples: seq<Sample>, n: nat)
    requires 0 < n <= |samples|
    ensures FlipsHot(cfg, samples, n) ==>
              After(cfg, samples[..n]).coolCount == 0 && After(cfg, samples[..n]).hotCount >= Max(1, cfg.hotPersist)
    ensures FlipsCool(cfg, samples, n) ==>
              After(cfg, samples[..n]).hotCount == 0 && After(cfg, samples[..n]).coolCount >= Max(1, cfg.coolPersist)
  {
    assert samples[..n][..n - 1] == samples[..n - 1];
  }

  /** Going from hot to cool passes a flip. */
  lemma {:induction false} CoolingFlips(cfg: FilterConfig, samples: seq<Sample>, i: nat, n: nat) returns (k: nat)
    requires i < n <= |samples| && After(cfg, samples[..i]).hot && !After(cfg, samples[..n]).hot
    ensures i < k <= n && FlipsCool(cfg, samples, k)
    decreases n
  {
    if After(cfg, samples[..n - 1]).hot {
      k := n;
    } else {
      k := CoolingFlips(cfg, samples, i, n - 1);
    }
  }

  /** Two flips to hot are separated by both persistence windows. */
  lemma HotFlipsAreApart(cfg: FilterConfig, samples: seq<Sample>, i: nat, j: nat)
    requires i < j && FlipsHot(cfg, samples, i) && FlipsHot(cfg, samples, j)
    ensures j - i >= Max(1, cfg.hotPersist) + Max(1, cfg.coolPersist)
  {
    var k := CoolingFlips(cfg, samples, i, j - 1);
    FlipsNeedPersistence(cfg, samples, i);
    FlipsNeedPersistence(cfg, samples, k);
    FlipsNeedPersistence(cfg, samples, j);
    CountsGrowSlowly(cfg, samples, i, k);
    CountsGrowSlowly(cfg, samples, k, j);
  }
}
