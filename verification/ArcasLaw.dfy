/** Which way the spread moves, how far, and where it settles. */
module ArcasLaw {
  import opened Arithmetic
  import opened Machine
  import opened Ordered
  import opened Apportion
  import opened ArcasControl

  // ----- the signal -----

  /** The near-cache fill of a thread: the larger of the smoothed and the last one. */
  function NearFill(fills: map<nat, Fill>, t: nat): nat { if t in fills then Max(fills[t].ewma, fills[t].last) else 0 }

  function NearFills(fills: map<nat, Fill>, tids: seq<nat>): (r: seq<nat>)
    ensures |r| == |tids| && forall i :: 0 <= i < |r| ==> r[i] == NearFill(fills, tids[i])
  {
    seq(|tids|, i requires 0 <= i < |tids| => NearFill(fills, tids[i]))
  }

  lemma {:induction false} RemoteFillIsSum(fills: map<nat, Fill>, tids: seq<nat>)
    ensures RemoteFill(fills, tids) == Min(Apportion.Sum(NearFills(fills, tids)), U64_MAX)
  {
    if tids != [] {
      RemoteFillIsSum(fills, tids[..|tids| - 1]);
      SumOfPrefix(NearFills(fills, tids[..|tids| - 1]), NearFills(fills, tids), |tids| - 1);
    }
  }

  /** The signal is up exactly when the near-cache fills of the runnable threads sum to the threshold or more. */
  lemma RemoteMeansFill(input: Input)
    ensures input.Remote() <==> Apportion.Sum(NearFills(input.fills, Ascending(input.load.Keys))) >= input.cfg.fillThreshold
  {
    RemoteFillIsSum(input.fills, Ascending(input.load.Keys));
  }

  // ----- one round -----

  function Most(input: Input): nat { EffectiveMax(input.cfg, |input.eligible|) }

  /** What a round must start from: the spread it finds, raised to the floor and the configured minimum, within the maximum. */
  function Base(input: Input, spread: nat, floor: nat): nat {
    Min(Max(Max(spread, floor), Max(input.cfg.minDomains, 1)), Most(input))
  }

  /** The round adjusts: its interval has passed and there are runnable threads. */
  predicate Adjusts(input: Input, last: u64) {
    (last == 0 || SatSub(input.now, last) >= SatMul64(input.cfg.intervalMs, 1_000_000)) && |input.load| > 0
  }

  /** Without an adjustment the spread is just what the round must start from. */
  lemma IdleRoundKeepsBase(input: Input, spread: nat, floor: nat, last: u64)
    requires input.eligible != [] && !Adjusts(input, last)
    ensures input.Next(spread, floor, last) == Base(input, spread, floor)
  {
  }

  /** Under remote fill the spread never falls, and it rises by exactly the step or reaches the maximum. */
  lemma RemoteFillGrows(input: Input, spread: nat, floor: nat, last: u64)
    requires 0 < |input.eligible| <= U64_MAX && Adjusts(input, last) && input.Remote()
    ensures var next, base := input.Next(spread, floor, last), Base(input, spread, floor);
            && next >= base >= Min(spread, Most(input))
            && (next == base + input.cfg.step || (next == Most(input) <= base + input.cfg.step))
  {
  }

  /**
   * Without it the spread never rises above what the round must start from, and it falls by exactly the step or
   * reaches the greater of floor and minimum, within the maximum.
   */
  lemma NoRemoteFillShrinks(input: Input, spread: nat, floor: nat, last: u64)
    requires 0 < |input.eligible| && Adjusts(input, last) && !input.Remote()
    ensures var next, base, least := input.Next(spread, floor, last), Base(input, spread, floor), Base(input, 0, floor);
            && least <= next <= base
            && (next == base - input.cfg.step || (next == least && base <= least + input.cfg.step))
  {
  }

  // ----- whole runs -----

  /** One controller call, and the capacity floor it found. */
  datatype Round = Round(input: Input, floor: nat)

  datatype Spread = Spread(spread: nat, last: u64)

  function After(s: Spread, r: Round): Spread {
    Spread(r.input.Next(s.spread, r.floor, s.last), if r.input.Ready(s.last) then r.input.now else s.last)
  }

  ghost predicate Takes(r: Round, before: Spread, after: Spread) { after == After(before, r) }

  /** The states between the rounds of a run. */
  ghost predicate Run(rounds: seq<Round>, states: seq<Spread>) {
    |states| == |rounds| + 1 && forall i :: 0 <= i < |rounds| ==> Takes(rounds[i], states[i], states[i + 1])
  }

  /** The round adjusts, with the given signal, maximum and step. */
  ghost predicate Sustains(r: Round, s: Spread, remote: bool, most: nat, step: nat) {
    && 0 < |r.input.eligible| <= U64_MAX && Adjusts(r.input, s.last) && r.input.Remote() == remote
    && Most(r.input) == most && r.input.cfg.step == step
  }

  ghost predicate Sustained(rounds: seq<Round>, states: seq<Spread>, remote: bool, most: nat, step: nat) {
    Run(rounds, states) && forall i :: 0 <= i < |rounds| ==> Sustains(rounds[i], states[i], remote, most, step)
  }

  function Spreads(states: seq<Spread>): (r: seq<nat>)
    ensures |r| == |states| && forall i :: 0 <= i < |r| ==> r[i] == states[i].spread
  {
    seq(|states|, i requires 0 <= i < |states| => states[i].spread)
  }

  // ----- climbing -----

  ghost predicate Rises(a: nat, b: nat, step: nat, most: nat) { Min(a + step, most) <= b <= most }

  lemma RoundRises(r: Round, before: Spread, after: Spread, most: nat, step: nat)
    requires Sustains(r, before, true, most, step) && Takes(r, before, after)
    ensures Rises(before.spread, after.spread, step, most)
  {
    RemoteFillGrows(r.input, before.spread, r.floor, before.last);
  }

  lemma {:induction false} RisesReach(f: seq<nat>, step: nat, most: nat, k: nat)
    requires k < |f| && forall i :: 0 <= i < k ==> Rises(f[i], f[i + 1], step, most)
    ensures f[k] >= Min(f[0] + Product(k, step), most) && (k > 0 ==> f[k] <= most)
  {
    if k > 0 {
      RisesReach(f, step, most, k - 1);
      assert Rises(f[k - 1], f[k - 1 + 1], step, most);
      Distributes(k - 1, 1, step);
    }
  }

  /** Sustained remote fill takes the spread up by the step in every round, until the maximum. */
  lemma SustainedFillClimbs(rounds: seq<Round>, states: seq<Spread>, most: nat, step: nat, k: nat)
    requires Sustained(rounds, states, true, most, step) && k <= |rounds|
    ensures states[k].spread >= Min(states[0].spread + k * step, most)
    ensures k > 0 ==> states[k].spread <= most
  {
    var f := Spreads(states);
    forall i | 0 <= i < k ensures Rises(f[i], f[i + 1], step, most) {
      RoundRises(rounds[i], states[i], states[i + 1], most, step);
    }
    RisesReach(f, step, most, k);
  }

  /** The number of adjustments needed: the distance over the step, rounded up. */
  function StepsTo(distance: nat, step: nat): nat
    requires step > 0
  {
    (distance + step - 1) / step
  }

  lemma StepsToReach(distance: nat, step: nat)
    requires step > 0
    ensures StepsTo(distance, step) * step >= distance
  {
    DivisionSplits(distance + step - 1, step);
  }

  /** So the maximum is reached within the distance over the step, rounded up, and then held. */
  lemma MostIsReachedInTime(rounds: seq<Round>, states: seq<Spread>, most: nat, step: nat, k: nat)
    requires step > 0 && Sustained(rounds, states, true, most, step) && states[0].spread < most
    requires StepsTo(most - states[0].spread, step) <= k <= |rounds|
    ensures states[k].spread == most
  {
    var n := StepsTo(most - states[0].spread, step);
    StepsToReach(most - states[0].spread, step);
    MulKeepsOrder(n, k, step);
    SustainedFillClimbs(rounds, states, most, step, k);
  }

  // ----- coming down -----

  /** Within the range, the next spread is a step lower, but not below the least. */
  ghost predicate Falls(a: nat, b: nat, step: nat, least: nat, most: nat) { least <= a <= most ==> b == Max(SatSub(a, step), least) }

  /** Raised to floor and minimum, a spread of nothing would be the least. */
  ghost predicate HasLeast(r: Round, least: nat) { Base(r.input, 0, r.floor) == least }

  ghost predicate AllHaveLeast(rounds: seq<Round>, least: nat) { forall i :: 0 <= i < |rounds| ==> HasLeast(rounds[i], least) }

  lemma RoundFalls(r: Round, before: Spread, after: Spread, most: nat, step: nat, least: nat)
    requires Sustains(r, before, false, most, step) && Takes(r, before, after) && HasLeast(r, least)
    ensures Falls(before.spread, after.spread, step, least, most)
  {
    NoRemoteFillShrinks(r.input, before.spread, r.floor, before.last);
  }

  lemma {:induction false} FallsReach(f: seq<nat>, step: nat, least: nat, most: nat, k: nat)
    requires k < |f| && least <= f[0] <= most && forall i :: 0 <= i < k ==> Falls(f[i], f[i + 1], step, least, most)
    ensures least <= f[k] <= most && f[k] == Max(SatSub(f[0], Product(k, step)), least)
  {
    if k > 0 {
      FallsReach(f, step, least, most, k - 1);
      assert Falls(f[k - 1], f[k - 1 + 1], step, least, most);
      Distributes(k - 1, 1, step);
    }
  }

  /** Without remote fill the spread comes down by the step in every round, until it reaches the least. */
  lemma NoFillDescends(rounds: seq<Round>, states: seq<Spread>, most: nat, step: nat, least: nat, k: nat)
    requires Sustained(rounds, states, false, most, step) && AllHaveLeast(rounds, least)
    requires k <= |rounds| && least <= states[0].spread <= most
    ensures states[k].spread == Max(SatSub(states[0].spread, k * step), least)
  {
    var f := Spreads(states);
    forall i | 0 <= i < k ensures Falls(f[i], f[i + 1], step, least, most) {
      RoundFalls(rounds[i], states[i], states[i + 1], most, step, least);
    }
    FallsReach(f, step, least, most, k);
  }
}
