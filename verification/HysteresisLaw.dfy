/** When the hot/cool filter must switch. */
module HysteresisLaw {
  import opened Machine
  import opened Hysteresis

  /** The smoothed value after each sample from `i` to `n` is at or above the hot mark. */
  ghost predicate StaysHigh(cfg: FilterConfig, samples: seq<Sample>, i: nat, n: nat)
    requires i <= n <= |samples|
  {
    forall j :: i < j <= n ==> After(cfg, samples[..j]).ewma >= cfg.hotPct
  }

  /** The smoothed value after each sample from `i` to `n` is at or under the cool mark, and not hot. */
  ghost predicate StaysLow(cfg: FilterConfig, samples: seq<Sample>, i: nat, n: nat)
    requires i <= n <= |samples|
  {
    forall j :: i < j <= n ==> After(cfg, samples[..j]).ewma <= cfg.coolPct && After(cfg, samples[..j]).ewma < cfg.hotPct
  }

  lemma {:induction false} HighsAreCounted(cfg: FilterConfig, samples: seq<Sample>, i: nat, n: nat)
    requires i <= n <= |samples| && StaysHigh(cfg, samples, i, n)
    ensures After(cfg, samples[..n]).hotCount >= Min(n - i, U32_MAX)
    decreases n
  {
    if i < n {
      assert samples[..n][..n - 1] == samples[..n - 1];
      HighsAreCounted(cfg, samples, i, n - 1);
    }
  }

  lemma {:induction false} LowsAreCounted(cfg: FilterConfig, samples: seq<Sample>, i: nat, n: nat)
    requires i <= n <= |samples| && StaysLow(cfg, samples, i, n)
    ensures After(cfg, samples[..n]).coolCount >= Min(n - i, U32_MAX)
    decreases n
  {
    if i < n {
      assert samples[..n][..n - 1] == samples[..n - 1];
      LowsAreCounted(cfg, samples, i, n - 1);
    }
  }

  /** Wherever a run has been before: enough consecutive high values make the metric hot. */
  lemma HotWhenPersistent(cfg: FilterConfig, samples: seq<Sample>, i: nat, n: nat)
    requires i <= n <= |samples| && StaysHigh(cfg, samples, i, n) && n - i >= Max(1, cfg.hotPersist)
    ensures After(cfg, samples[..n]).hot
  {
    assert samples[..n][..n - 1] == samples[..n - 1];
    HighsAreCounted(cfg, samples, i, n);
    assert After(cfg, samples[..n]).ewma >= cfg.hotPct;
  }

  /** And enough consecutive low ones make it cool. */
  lemma CoolWhenPersistent(cfg: FilterConfig, samples: seq<Sample>, i: nat, n: nat)
    requires i <= n <= |samples| && StaysLow(cfg, samples, i, n) && n - i >= Max(1, cfg.coolPersist)
    ensures !After(cfg, samples[..n]).hot
  {
    assert samples[..n][..n - 1] == samples[..n - 1];
    LowsAreCounted(cfg, samples, i, n);
    assert After(cfg, samples[..n]).ewma <= cfg.coolPct;
  }

  /** No smoothed value from `i` to `n` is at or under the cool mark without being hot. */
  ghost predicate NeverLow(cfg: FilterConfig, samples: seq<Sample>, i: nat, n: nat)
    requires i <= n <= |samples|
  {
    forall j :: i < j <= n ==> After(cfg, samples[..j]).ewma >= cfg.hotPct || After(cfg, samples[..j]).ewma > cfg.coolPct
  }

  /** How many smoothed values from `i` to `n` are at or above the hot mark. */
  ghost function Highs(cfg: FilterConfig, samples: seq<Sample>, i: nat, n: nat): nat
    requires i <= n <= |samples|
    decreases n
  {
    if i == n then 0 else Highs(cfg, samples, i, n - 1) + if After(cfg, samples[..n]).ewma >= cfg.hotPct then 1 else 0
  }

  ghost predicate Progress(m: Metric, cfg: FilterConfig, highs: nat, high: bool) {
    m.hotCount >= Min(highs, if high then cfg.hotPersist else SatSub(cfg.hotPersist, 1))
  }

  lemma ProgressSteps(prev: Metric, raw: u32, ts: u64, cfg: FilterConfig, highs: nat)
    requires Progress(prev, cfg, highs, false)
    ensures var m := Updated(prev, raw, ts, cfg);
            var high := m.ewma >= cfg.hotPct;
            high || m.ewma > cfg.coolPct ==> Progress(m, cfg, if high then highs + 1 else highs, high)
  {
  }

  lemma {:induction false} ProgressIsKept(cfg: FilterConfig, samples: seq<Sample>, i: nat, n: nat)
    requires i <= n <= |samples| && NeverLow(cfg, samples, i, n)
    ensures var m := After(cfg, samples[..n]); Progress(m, cfg, Highs(cfg, samples, i, n), i < n && m.ewma >= cfg.hotPct)
    decreases n
  {
    if i < n {
      assert samples[..n][..n - 1] == samples[..n - 1];
      ProgressIsKept(cfg, samples, i, n - 1);
      ProgressSteps(After(cfg, samples[..n - 1]), samples[n - 1].raw, samples[n - 1].ts, cfg, Highs(cfg, samples, i, n - 1));
      assert After(cfg, samples[..n]).ewma >= cfg.hotPct || After(cfg, samples[..n]).ewma > cfg.coolPct;
    }
  }

  /** High values need not be consecutive: values between the marks delay the switch but do not undo the progress. */
  lemma HotInSpiteOfDips(cfg: FilterConfig, samples: seq<Sample>, i: nat, n: nat)
    requires i < n <= |samples| && NeverLow(cfg, samples, i, n) && After(cfg, samples[..n]).ewma >= cfg.hotPct
    requires Highs(cfg, samples, i, n) >= cfg.hotPersist
    ensures After(cfg, samples[..n]).hot
  {
    assert samples[..n][..n - 1] == samples[..n - 1];
    ProgressIsKept(cfg, samples, i, n);
  }

  /** Nothing else switches it: a value between the marks keeps what was, and a high one never cools, a low one never heats. */
  lemma OnlyMarksSwitch(cfg: FilterConfig, samples: seq<Sample>, n: nat)
    requires 0 < n <= |samples|
    ensures FlipsHot(cfg, samples, n) ==> StaysHigh(cfg, samples, n - 1, n)
    ensures FlipsCool(cfg, samples, n) ==> StaysLow(cfg, samples, n - 1, n)
  {
    assert samples[..n][..n - 1] == samples[..n - 1];
  }

  /** Inputs that do not overflow and never fall under the hot mark are smoothed to values that do not either. */
  lemma {:induction false} HighInputsStayHigh(cfg: FilterConfig, samples: seq<Sample>, n: nat)
    requires 0 < n <= |samples| && forall i :: 0 <= i < |samples| ==> cfg.hotPct <= samples[i].raw && 100 * samples[i].raw <= U32_MAX
    ensures After(cfg, samples[..n]).ewma >= cfg.hotPct
  {
    assert samples[..n][..n - 1] == samples[..n - 1];
    assert samples[..n][n - 1] == samples[n - 1];
    SmoothingIsSafe(cfg, samples[..n], U32_MAX / 100);
    if n > 1 {
      HighInputsStayHigh(cfg, samples, n - 1);
    }
  }

  /** So a new link under steady load is hot as soon as the load has persisted. */
  lemma SteadyLoadIsHot(cfg: FilterConfig, samples: seq<Sample>)
    requires |samples| >= Max(1, cfg.hotPersist)
    requires forall i :: 0 <= i < |samples| ==> cfg.hotPct <= samples[i].raw && 100 * samples[i].raw <= U32_MAX
    ensures After(cfg, samples).hot
  {
    forall j | 0 < j <= |samples| ensures After(cfg, samples[..j]).ewma >= cfg.hotPct {
      HighInputsStayHigh(cfg, samples, j);
    }
    assert samples[..|samples|] == samples;
    HotWhenPersistent(cfg, samples, 0, |samples|);
  }
}
