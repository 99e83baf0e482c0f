/** Within a placement, the margin that is asked for in 64 bits always gives the verdict of the nominal one. */
module PlacementMargin {
  import opened Arithmetic
  import opened Machine
  import opened Samples
  import opened CpuSelect
  import opened HostMapping
  import opened PlacementCost
  import opened PlacementScene
  import opened Placement

  /** The traffic a thread brings is its own: it does not depend on the capacity of the domain that receives it. */
  ghost predicate SameDemand(s: Scene) { forall a: u32, b: u32 :: s.effect(a).df == s.effect(b).df }

  // ----- how little a move can gain -----

  function Square(x: nat): nat { x * x }

  lemma SquaresGrow(x: nat, y: nat)
    requires x <= y
    ensures Square(x) <= Square(y)
  {
    MulKeepsOrder(x, y, x);
    MulKeepsOrder(x, y, y);
  }

  function Over(x: nat): nat { SatSub(x, BALANCE_DEADBAND) }

  function Balance(x: nat, y: nat): nat { Min(Square(Over(x)) + Square(Over(y)), U64_MAX) }

  /** Below the 32-bit range no square saturates, so a pair's penalty is the capped sum of two squares. */
  lemma PairIsBalance(x: u32, y: u32)
    ensures PairPenalty(x, y) == Balance(x, y)
  {
    SquaresGrow(Over(x), U32_MAX);
    SquaresGrow(Over(y), U32_MAX);
  }

  /** Splitting a load in two and adding to either part leaves at least a tenth of the squares, or next to nothing was there. */
  lemma SplittingKeepsATenth(x: nat, y: nat, x': nat, y': nat)
    requires x <= x' + y' + BALANCE_DEADBAND && y <= y'
    ensures Square(x) + Square(y) <= 10 * (Square(x') + Square(y'))
            || Square(x) + Square(y) <= 10 * Square(BALANCE_DEADBAND)
  {
    var m := Max(x', y');
    var top := Max(m, BALANCE_DEADBAND);
    SquaresGrow(x, 3 * top);
    SquaresGrow(y, top);
    assert Square(3 * top) == 9 * Square(top);
    assert Square(m) <= Square(x') + Square(y');
  }

  /** What is left at the source and what arrives cover what was at the source, but for one deadband. */
  lemma LoadIsSplit(source: u32, dest: u32, df: u32)
    ensures var left, there := SatSub(source, df), SatAdd32(dest, df);
            Over(source) <= Over(left) + Over(there) + BALANCE_DEADBAND && Over(dest) <= Over(there)
  {
  }

  /** The part of a cost that a pair's penalty makes up, at a weight in ten-thousandths. */
  function Weighed(pair: u64, weight: u32): u64 { SatMul64(pair, weight) / 10_000 }

  const MOST: nat := U64_MAX / 10_000

  /** A tenth of the pair leaves a tenth of its weighed part, give or take two. */
  lemma WeighedKeepsATenth(before: u64, after: u64, weight: u32)
    requires before <= 10 * after
    ensures Weighed(before, weight) <= 10 * Weighed(after, weight) + 9
  {
    var p: nat, q: nat := Product(before, weight), Product(after, weight);
    MulKeepsOrder(before, 10 * after, weight);
    assert p <= 10 * q;
    assert Min(p, U64_MAX) <= 10 * Min(q, U64_MAX);
    TenthOfQuotient(Min(p, U64_MAX), Min(q, U64_MAX));
  }

  function Product(a: nat, b: nat): nat { a * b }

  lemma TenthOfQuotient(p: nat, q: nat)
    requires p <= 10 * q
    ensures p / 10_000 <= 10 * (q / 10_000) + 9
  {
    DivisionSplits(p, 10_000);
    DivisionSplits(q, 10_000);
  }

  lemma WeighedIsCapped(pair: u64, weight: u32)
    ensures Weighed(pair, weight) <= MOST
  {
    DivisionGrows(SatMul64(pair, weight), U64_MAX, 10_000);
  }

  /** Between two squares of the deadband, at a weight of at most one, the weighed part is small. */
  lemma SmallPairsWeighLittle(pair: u64, weight: u32)
    requires pair <= 10 * Square(BALANCE_DEADBAND) && weight <= 10_000
    ensures Weighed(pair, weight) <= 10 * Square(BALANCE_DEADBAND)
  {
    MulKeepsOrder(weight, 10_000, pair);
    DivisionGrows(SatMul64(pair, weight), 10_000 * pair, 10_000);
    Whole(pair);
  }

  /** Moving a thread's load never lowers the weighed penalty of the pair by more than nine tenths of the most it can be. */
  lemma PairGainIsSmall(source: u32, dest: u32, df: u32, weight: u32)
    requires weight <= 10_000
    ensures Weighed(PairPenalty(source, dest), weight)
            <= Weighed(PairPenalty(SatSub(source, df), SatAdd32(dest, df)), weight) + 9 * MOST / 10 + 1
  {
    var left, there := SatSub(source, df), SatAdd32(dest, df);
    var before, after := PairPenalty(source, dest), PairPenalty(left, there);
    PairIsBalance(source, dest);
    PairIsBalance(left, there);
    LoadIsSplit(source, dest, df);
    SplittingKeepsATenth(Over(source), Over(dest), Over(left), Over(there));
    WeighedIsCapped(before, weight);
    if Square(Over(source)) + Square(Over(dest)) <= 10 * Square(BALANCE_DEADBAND) {
      SmallPairsWeighLittle(before, weight);
    } else {
      WeighedKeepsATenth(before, after, weight);
    }
  }

  lemma WeightIsPart(live: u32, capacity: u32)
    ensures BalanceWeight(live, capacity) <= 10_000
  {
    var cap: nat := Max(capacity, 1);
    MulKeepsOrder(Min(live, cap), cap, 10_000);
    DivisionGrows(Min(live, cap) * 10_000, 10_000 * cap, cap);
    QuotientOf(10_000, cap, 0);
  }

  /** A larger overload of one domain costs more. */
  lemma OverloadGrows(a: u32, b: u32)
    requires a <= b
    ensures OverloadCost(a, a) <= OverloadCost(b, b)
  {
    SquaresGrow(a, b);
  }

  // ----- the verdict of a placement -----

  /** A margin is asked for only while the source has capacity left, and then it is not overloaded. */
  lemma MarginMeansHeadroom(live: u32, margin: u32, capacity: u32)
    requires EffectiveMargin(live, margin, capacity) > 0
    ensures Overload(live, capacity) == 0
  {
    var cap: nat := Max(capacity, 1);
    if live >= cap {
      assert margin * SatSub(cap, Min(live, cap)) == 0;
    }
  }

  /** What a cost adds up to: the overloads, the weighed pair and the CPU. */
  lemma SoftOf(source: u32, sourceCap: u32, dest: u32, destCap: u32, pair: u64, live: u32, weighCap: u32, slots: Slots, idle: bool)
    requires Overload(source, sourceCap) == 0
    ensures var c := CostOf(source, sourceCap, dest, destCap, pair, live, weighCap, slots, idle);
            var o := Overload(dest, destCap);
            c.Soft() == Min(OverloadCost(o, o) + Weighed(pair, BalanceWeight(live, weighCap)) + CpuCost(idle), U64_MAX)
  {
  }

  /** While there is a margin to clear, no move gains a ten-thousandth of the 64-bit range. */
  lemma MovesGainLittle(s: Scene, d: nat, cpu: nat)
    requires SameDemand(s) && !s.Excluded() && Overload(s.SourceLive(), s.SourceCapacity()) == 0
    ensures s.Baseline(d).Soft() < s.MoveCost(d, cpu).Soft() + MOST
  {
    var df, weight := s.effect(s.Capacity(d)).df, BalanceWeight(s.SourceLive(), s.SourceCapacity());
    assert df == s.SourceEffect().df;
    BaselineSoft(s, d);
    MoveSoft(s, d, cpu);
    WeightIsPart(s.SourceLive(), s.SourceCapacity());
    PairGainIsSmall(s.SourceSignature(), s.SignatureDf(d), df, weight);
    OverloadGrows(Overload(s.LiveDf(d), s.Capacity(d)), Overload(SatAdd32(s.LiveDf(d), df), s.Capacity(d)));
  }

  lemma BaselineSoft(s: Scene, d: nat)
    requires !s.Excluded() && Overload(s.SourceLive(), s.SourceCapacity()) == 0
    ensures var o := Overload(s.LiveDf(d), s.Capacity(d));
            s.Baseline(d).Soft()
            == Min(OverloadCost(o, o)
                   + Weighed(PairPenalty(s.SourceSignature(), s.SignatureDf(d)), BalanceWeight(s.SourceLive(), s.SourceCapacity()))
                   + CpuCost(s.StayIdle()), U64_MAX)
  {
    SoftOf(s.SourceLive(), s.SourceCapacity(), s.LiveDf(d), s.Capacity(d), PairPenalty(s.SourceSignature(), s.SignatureDf(d)),
           s.SourceLive(), s.SourceCapacity(), s.PairSlots(s.SourceTasks(), d, s.TasksOn(d)), s.StayIdle());
  }

  lemma MoveSoft(s: Scene, d: nat, cpu: nat)
    requires SameDemand(s) && !s.Excluded() && Overload(s.SourceLive(), s.SourceCapacity()) == 0
    ensures var df := s.effect(s.Capacity(d)).df;
            var o := Overload(SatAdd32(s.LiveDf(d), df), s.Capacity(d));
            s.MoveCost(d, cpu).Soft()
            == Min(OverloadCost(o, o)
                   + Weighed(PairPenalty(SatSub(s.SourceSignature(), df), SatAdd32(s.SignatureDf(d), df)),
                             BalanceWeight(s.SourceLive(), s.SourceCapacity()))
                   + CpuCost(s.cpus.Idle(cpu)), U64_MAX)
  {
    var df := s.effect(s.Capacity(d)).df;
    assert df == s.SourceEffect().df;
    SoftOf(s.PredictedLive(), s.SourceCapacity(), SatAdd32(s.LiveDf(d), df), s.Capacity(d),
           PairPenalty(s.PredictedSignature(), SatAdd32(s.SignatureDf(d), df)), s.SourceLive(), s.SourceCapacity(),
           s.PairSlots(SatSub(s.SourceTasks(), 1), d, SatAdd32(s.TasksOn(d), 1)), s.cpus.Idle(cpu));
  }

  /** Below a ten-thousandth of the 64-bit range, asking for less than the nominal gain makes no difference. */
  lemma SmallGainsAgree(move: Cost, base: Cost, margin: u32)
    requires move.slots == base.slots && (margin > 0 ==> base.Soft() < move.Soft() + MOST)
    ensures move.ClearsMargin(base, margin) <==> GainsMargin(move, base, margin)
  {
    AskedDecides(move, base, margin);
    AskedIsCapped(base.Soft(), margin);
    assert margin == 0 ==> base.Soft() * margin == 0;
  }

  /**
   * Where slots do not decide, a move that is weighed in a placement clears the margin exactly when it gains it nominally:
   * whenever saturation would ask for less, no move gains even that much.
   */
  lemma PlacementMarginIsNominal(s: Scene, d: nat, cpu: nat)
    requires SameDemand(s) && !s.Excluded()
    ensures var move, base := s.MoveCost(d, cpu), s.Baseline(d);
            var margin := EffectiveMargin(s.SourceLive(), s.cfg.migrateMargin, s.SourceCapacity());
            move.slots == base.slots ==> (move.ClearsMargin(base, margin) <==> GainsMargin(move, base, margin))
  {
    var margin := EffectiveMargin(s.SourceLive(), s.cfg.migrateMargin, s.SourceCapacity());
    if margin > 0 {
      MarginMeansHeadroom(s.SourceLive(), s.cfg.migrateMargin, s.SourceCapacity());
      MovesGainLittle(s, d, cpu);
    }
    if s.MoveCost(d, cpu).slots == s.Baseline(d).slots {
      SmallGainsAgree(s.MoveCost(d, cpu), s.Baseline(d), margin);
    }
  }

  /**
   * So the task leaves for the chosen candidate exactly when that relieves slots or gains the nominal margin, and
   * misses the margin otherwise.
   */
  lemma ChosenOnNominalMargin(s: Scene)
    requires s.topo.Consistent() && SameDemand(s) && !s.Excluded() && Best(s).Some?
    ensures var e, base := Best(s).value, s.Baseline(Best(s).value.domain);
            var margin := EffectiveMargin(s.SourceLive(), s.cfg.migrateMargin, s.SourceCapacity());
            Chosen(s, e).reason == (if e.cost.slots.Less(base.slots) || GainsMargin(e.cost, base, margin) then MoveCoolerDomain else MarginNotMet)
  {
    var e, base := Best(s).value, s.Baseline(Best(s).value.domain);
    ChosenMovesOrMissesMargin(s);
    FinalBaselineAgrees(s);
    BestIsKept(s);
    PlacementMarginIsNominal(s, e.domain, e.cpu);
    BetterOrEqualSlots(e.cost, base);
  }

  lemma BetterOrEqualSlots(a: Cost, b: Cost)
    requires a.Better(b)
    ensures a.slots.Less(b.slots) || (a.slots == b.slots && a.Soft() < b.Soft())
  {
  }
}
