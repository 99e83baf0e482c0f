/** What the costs of a placement mean for the traffic of its two domains, and how the gates open. */
module CostLaw {
  import opened Arithmetic
  import opened Machine
  import opened Samples
  import opened CpuSelect
  import opened HostMapping
  import opened PlacementCost
  import opened PlacementScene
  import opened Placement
  import opened PlacementMargin

  // ----- overload -----

  /** The overloads compared are the excesses of the two domains as they are, and as they are predicted once the traffic has moved. */
  lemma OverloadsAreExcess(s: Scene, d: nat, cpu: nat)
    ensures s.Baseline(d).overload == Min(Excess(s.SourceLive(), s.SourceCapacity()) + Excess(s.LiveDf(d), s.Capacity(d)), U32_MAX)
    ensures var out, into := s.SourceEffect().df, s.effect(s.Capacity(d)).df;
            s.MoveCost(d, cpu).overload
            == Min(Excess(SatSub(s.SourceLive(), out), s.SourceCapacity()) + Excess(SatAdd32(s.LiveDf(d), into), s.Capacity(d)), U32_MAX)
  {
  }

  /** Moving traffic from an overloaded domain to one with room for it relieves exactly as much overload as the traffic and the overload allow. */
  lemma RoomRelievesOverload(s: Scene, d: nat, cpu: nat)
    requires SameDemand(s) && s.LiveDf(d) + s.SourceEffect().df <= s.Capacity(d)
    ensures var over, df := Excess(s.SourceLive(), s.SourceCapacity()), s.SourceEffect().df;
            s.Baseline(d).overload == over && s.MoveCost(d, cpu).overload == over - Min(over, df)
  {
    OverloadsAreExcess(s, d, cpu);
    assert s.effect(s.Capacity(d)).df == s.SourceEffect().df;
  }

  // ----- pressure -----

  lemma SaturatedGrows(a: nat, b: nat, c: nat, d: nat)
    requires a <= b && c <= d
    ensures a * c <= b * d && Min(a * c, U64_MAX) <= Min(b * d, U64_MAX)
  {
    MulKeepsOrder(a, b, c);
    MulKeepsOrder(c, d, b);
  }

  /** More overload, a worse pair or a fuller source never costs less. */
  lemma PressureGrows(total: u32, max: u32, pair: u64, live: u32, total': u32, max': u32, pair': u64, live': u32, capacity: u32)
    requires total <= total' && max <= max' && pair <= pair' && live <= live'
    ensures PressureCost(total, max, pair, live, capacity) <= PressureCost(total', max', pair', live', capacity)
  {
    SaturatedGrows(total, total', total, total');
    SaturatedGrows(max, max', max, max');
    WeightGrows(live, live', capacity);
    SaturatedGrows(pair, pair', BalanceWeight(live, capacity), BalanceWeight(live', capacity));
    DivisionGrows(SatMul64(pair, BalanceWeight(live, capacity)), SatMul64(pair', BalanceWeight(live', capacity)), 10_000);
  }

  lemma WeightGrows(live: u32, live': u32, capacity: u32)
    requires live <= live'
    ensures BalanceWeight(live, capacity) <= BalanceWeight(live', capacity)
  {
    var cap: nat := Max(capacity, 1);
    MulKeepsOrder(Min(live, cap), Min(live', cap), 10_000);
    DivisionGrows(Min(live, cap) * 10_000, Min(live', cap) * 10_000, cap);
  }

  /** The weight of the pair runs from nothing at an idle source to the whole at a full one. */
  lemma WeightRuns(live: u32, capacity: u32)
    ensures live == 0 ==> BalanceWeight(live, capacity) == 0
    ensures live >= Max(capacity, 1) ==> BalanceWeight(live, capacity) == 10_000
  {
    var cap: nat := Max(capacity, 1);
    if live >= cap {
      QuotientOf(10_000, cap, 0);
      assert Min(live, cap) * 10_000 == 10_000 * cap + 0;
    }
  }

  /** A strictly larger total of overloads costs strictly more, while no square saturates. */
  lemma OverloadCostsMore(total: u32, max: u32, total': u32, max': u32)
    requires total < total' && max <= max' && total' * total' + max' * max' <= U64_MAX
    ensures OverloadCost(total, max) < OverloadCost(total', max')
  {
    SaturatedGrows(total, total' - 1, total, total');
    SaturatedGrows(max, max', max, max');
    assert (total' - 1) * total' == total' * total' - total';
  }

  // ----- the pair of signatures -----

  /** What a signature costs: the square of its excess over the deadband. */
  ghost function Squared(x: nat): nat { Excess(x, BALANCE_DEADBAND) * Excess(x, BALANCE_DEADBAND) }

  lemma DifferenceOfSquares(a: nat, b: nat)
    requires b <= a
    ensures a * a == b * b + (a + b) * (a - b)
  {
    var d := a - b;
    assert a * a == (b + d) * a && (b + d) * a == b * a + d * a && b * a == b * (b + d) && b * (b + d) == b * b + b * d;
    assert (a + b) * d == a * d + b * d;
  }

  /** Two rises of squares: the smaller step from the lower place rises less. */
  lemma StepsOfSquares(p: nat, p': nat, q': nat, q: nat)
    requires q <= q' <= p && q <= p' <= p && q' - q <= p - p'
    ensures p' * p' + q' * q' <= p * p + q * q
    ensures p' < p && q + q' < p + p' ==> p' * p' + q' * q' < p * p + q * q
  {
    var drop, rise := p - p', q' - q;
    DifferenceOfSquares(p, p');
    DifferenceOfSquares(q', q);
    Products(q' + q, p + p', rise, drop);
  }

  lemma Products(a: nat, b: nat, c: nat, d: nat)
    requires a <= b && c <= d
    ensures a * c <= b * d
    ensures a < b && 0 < d ==> a * c < b * d
  {
    SaturatedGrows(a, b, c, d);
    if a < b && 0 < d {
      SaturatedGrows(a, b - 1, c, d);
      assert (b - 1) * d == b * d - d;
    }
  }

  /** Moving part of the larger of two loads onto the smaller, without overtaking, never raises the sum of their squared excesses. */
  lemma EveningOut(x: nat, y: nat, x': nat, y': nat)
    requires y <= x' <= x && y' <= x && x' + y' == x + y
    ensures Squared(x') + Squared(y') <= Squared(x) + Squared(y)
    ensures x' < x && y' < x && x > BALANCE_DEADBAND ==> Squared(x') + Squared(y') < Squared(x) + Squared(y)
  {
    StepsOfSquares(Excess(x, BALANCE_DEADBAND), Excess(x', BALANCE_DEADBAND), Excess(y', BALANCE_DEADBAND), Excess(y, BALANCE_DEADBAND));
  }

  /** The move brings the two signatures no further apart than they were. */
  ghost predicate EvensOut(s: Scene, d: nat) {
    s.SignatureDf(d) + s.SourceEffect().df <= s.SourceSignature() && s.SignatureDf(d) + s.SourceEffect().df <= U32_MAX
  }

  lemma PairsOf(s: Scene, d: nat, cpu: nat)
    requires SameDemand(s) && !s.Excluded() && EvensOut(s, d)
    ensures s.Baseline(d).pairPenalty == Balance(s.SourceSignature(), s.SignatureDf(d))
    ensures s.MoveCost(d, cpu).pairPenalty == Balance(s.SourceSignature() - s.SourceEffect().df, s.SignatureDf(d) + s.SourceEffect().df)
  {
    var df := s.effect(s.Capacity(d)).df;
    assert df == s.SourceEffect().df;
    PairIsBalance(s.SourceSignature(), s.SignatureDf(d));
    PairIsBalance(s.PredictedSignature(), SatAdd32(s.SignatureDf(d), df));
  }

  /** So a move that evens two domains out never has a worse pair penalty, and a better one when the source is above the deadband. */
  lemma EveningLowersPair(s: Scene, d: nat, cpu: nat)
    requires SameDemand(s) && !s.Excluded() && EvensOut(s, d)
    ensures s.MoveCost(d, cpu).pairPenalty <= s.Baseline(d).pairPenalty
    ensures s.SourceEffect().df > 0 && s.SignatureDf(d) + s.SourceEffect().df < s.SourceSignature()
            && s.SourceSignature() > BALANCE_DEADBAND && Squared(s.SourceSignature()) + Squared(s.SignatureDf(d)) <= U64_MAX ==>
              s.MoveCost(d, cpu).pairPenalty < s.Baseline(d).pairPenalty
  {
    var df := s.SourceEffect().df;
    PairsOf(s, d, cpu);
    EveningOut(s.SourceSignature(), s.SignatureDf(d), s.SourceSignature() - df, s.SignatureDf(d) + df);
  }

  // ----- the margin in force -----

  /** The margin in force is the configured one at an idle source, shrinks as the source fills, and is gone at a full one. */
  lemma MarginShrinks(live: u32, live': u32, margin: u32, capacity: u32)
    requires live <= live'
    ensures EffectiveMargin(live', margin, capacity) <= EffectiveMargin(live, margin, capacity) <= margin
    ensures live == 0 ==> EffectiveMargin(live, margin, capacity) == margin
    ensures live >= Max(capacity, 1) ==> EffectiveMargin(live, margin, capacity) == 0
  {
    var cap: nat := Max(capacity, 1);
    var left, left' := SatSub(cap, Min(live, cap)), SatSub(cap, Min(live', cap));
    MulKeepsOrder(left', left, margin);
    MulKeepsOrder(left, cap, margin);
    MulKeepsOrder(0, margin, left');
    DivisionGrows(margin * left', margin * left, cap);
    DivisionGrows(margin * left, margin * cap, cap);
    QuotientOf(margin, cap, 0);
    assert live >= cap ==> margin * left == 0;
  }

  // ----- the phase gate -----

  function PhaseOf(s: Scene, d: nat): nat { s.task.tickSeq + s.task.tid + s.task.domain.GetOr(0) * 3 + d * 5 }

  /** The task at a later tick. */
  function Later(s: Scene, ticks: nat): Scene { s.(task := s.task.(tickSeq := s.task.tickSeq + ticks)) }

  lemma PhaseDecides(s: Scene, d: nat, ticks: nat)
    requires PhaseOf(s, d) + ticks <= U32_MAX
    ensures Later(s, ticks).PhaseAllows(d) <==>
            || s.SourceLive() > s.SourceCapacity() || s.cfg.tickMovePhaseMod <= 1 || !s.task.trigger.IsTick()
            || (PhaseOf(s, d) + ticks) % s.cfg.tickMovePhaseMod == 0
  {
    assert PhaseOf(Later(s, ticks), d) == PhaseOf(s, d) + ticks;
  }

  lemma NextMultiple(x: nat, m: nat) returns (wait: nat)
    requires m > 0
    ensures wait < m && (x + wait) % m == 0
  {
    DivisionSplits(x, m);
    if x % m == 0 {
      wait := 0;
    } else {
      wait := m - x % m;
      assert (x / m + 1) * m + 0 == x + wait;
      RemainderOf(x / m + 1, m, 0);
    }
  }

  lemma MultiplesAreApart(p: nat, q: nat, m: nat)
    requires p < q < p + m
    ensures p % m != 0 || q % m != 0
  {
    if p % m == 0 && q % m == 0 {
      DivisionSplits(p, m);
      DivisionSplits(q, m);
      QuotientsDecide(p / m, q / m, m);
    }
  }

  lemma QuotientsDecide(a: nat, b: nat, m: nat)
    ensures a * m >= b * m || a * m + m <= b * m
  {
    if a < b {
      MulKeepsOrder(a + 1, b, m);
      assert (a + 1) * m == a * m + m;
    } else {
      MulKeepsOrder(b, a, m);
    }
  }

  /** Of any run of ticks as long as the phase modulus, one lets a gated move to `d` pass. */
  lemma PhaseComesRound(s: Scene, d: nat) returns (wait: nat)
    requires s.cfg.tickMovePhaseMod > 1 && PhaseOf(s, d) + s.cfg.tickMovePhaseMod <= U32_MAX
    ensures wait < s.cfg.tickMovePhaseMod && Later(s, wait).PhaseAllows(d)
  {
    wait := NextMultiple(PhaseOf(s, d), s.cfg.tickMovePhaseMod);
    PhaseDecides(s, d, wait);
  }

  /** And no two of them do, while the source is not overloaded. */
  lemma PhaseComesOnce(s: Scene, d: nat, a: nat, b: nat)
    requires s.cfg.tickMovePhaseMod > 1 && s.task.trigger.IsTick() && s.SourceLive() <= s.SourceCapacity()
    requires a < b < s.cfg.tickMovePhaseMod && PhaseOf(s, d) + s.cfg.tickMovePhaseMod <= U32_MAX
    ensures !Later(s, a).PhaseAllows(d) || !Later(s, b).PhaseAllows(d)
  {
    PhaseDecides(s, d, a);
    PhaseDecides(s, d, b);
    MultiplesAreApart(PhaseOf(s, d) + a, PhaseOf(s, d) + b, s.cfg.tickMovePhaseMod);
  }
}
