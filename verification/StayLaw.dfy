/** Why a task that was weighed stays where it is. */
module StayLaw {
  import opened Machine
  import opened Ordered
  import opened Samples
  import opened CpuSelect
  import opened CpuLaw
  import opened PlacementCost
  import opened PlacementScene
  import opened Placement
  import opened PlacementLaw

  /** Another eligible domain with fresh samples and a CPU that the task may use. */
  ghost predicate Offered(s: Scene, d: nat) {
    && d in s.mapping.eligibleDomains && s.task.domain != Some(d) && IsSampled(s, d)
    && exists c :: Legal(s.topo, c, d, s.AllowedEligible())
  }

  /**
   * A move to the domain, not kept from going back, that would relieve nothing: no overload on either side, no slots,
   * and no CPU that the task could not have at home.
   */
  ghost predicate RelievesNothing(s: Scene, d: nat, cpu: nat) {
    var base, move := s.Baseline(d), s.MoveCost(d, cpu);
    && IsCpuFor(s, d, cpu) && (GoesBack(s, d) ==> MayReverse(s, base, move))
    && base.overload == 0 && move.overload == 0 && !move.slots.Less(base.slots)
    && (move.cpuCost >= base.cpuCost || !OnlyElsewhere(s))
  }

  /** A worthwhile move to the domain whose turn has not come. */
  ghost predicate WaitsItsTurn(s: Scene, d: nat, cpu: nat) {
    var base, move := s.Baseline(d), s.MoveCost(d, cpu);
    && IsCpuFor(s, d, cpu) && (GoesBack(s, d) ==> MayReverse(s, base, move)) && Worthwhile(s, base, move) && !s.PhaseAllows(d)
  }

  /** A move that would undo the last one while that is protected. */
  ghost predicate IsHeldBack(s: Scene, d: nat, cpu: nat) {
    IsCpuFor(s, d, cpu) && GoesBack(s, d) && !MayReverse(s, s.Baseline(d), s.MoveCost(d, cpu))
  }

  /** A domain offered with budget left, but for nothing, or too early, or against the protection. */
  ghost predicate OfferedInVain(s: Scene, d: nat) { Offered(s, d) && MayEnter(s, d) && exists cpu: nat :: RelievesNothing(s, d, cpu) }

  ghost predicate OfferedTooEarly(s: Scene, d: nat) { Offered(s, d) && MayEnter(s, d) && exists cpu: nat :: WaitsItsTurn(s, d, cpu) }

  ghost predicate OfferedBack(s: Scene, d: nat) { Offered(s, d) && MayEnter(s, d) && exists cpu: nat :: IsHeldBack(s, d, cpu) }

  lemma CpuForExists(s: Scene, d: nat)
    requires s.topo.Consistent()
    ensures CpuFor(s, d).Some? <==> exists c :: Legal(s.topo, c, d, s.AllowedEligible())
    ensures CpuFor(s, d).Some? ==> IsCpuFor(s, d, CpuFor(s, d).value)
    ensures forall cpu: nat :: IsCpuFor(s, d, cpu) ==> CpuFor(s, d) == Some(cpu)
  {
    ChooseCpuIsLeast(s.cpus, s.topo, d, s.AllowedEligible(), s.task.tid);
    forall cpu: nat ensures CpuFor(s, d) == Some(cpu) <==> IsCpuFor(s, d, cpu) {
      CpuForIsLeast(s, d, cpu);
    }
  }

  /** Worthwhile or not, as the guards see it. */
  lemma GuardsAre(s: Scene, d: nat, base: Cost, e: Eval)
    requires s.topo.Consistent() && !s.Excluded()
    ensures var v, free := Guarded(s, d, base, e), GoesBack(s, d) ==> MayReverse(s, base, e.cost);
            && v != Skipped && v != BudgetBlock
            && (v == ReverseBlock <==> !free)
            && (v == SoftOnlyBlock <==>
                  && free && base.overload == 0 && e.cost.overload == 0 && !e.cost.slots.Less(base.slots)
                  && (e.cost.cpuCost >= base.cpuCost || !OnlyElsewhere(s)))
            && (v == PhaseBlock <==> free && Worthwhile(s, base, e.cost) && !s.PhaseAllows(d))
  {
    NeedsOtherIsOnlyElsewhere(s);
    LimitsAre(s, d);
  }

  /** What each verdict on a domain means for a task whose CPU there would be `cpu`. */
  ghost predicate Means(s: Scene, d: nat, cpu: nat, v: Verdict) {
    && (v == Skipped <==> s.task.domain == Some(d))
    && (v == BudgetBlock <==> s.task.domain != Some(d) && !MayEnter(s, d))
    && (v == SoftOnlyBlock <==> s.task.domain != Some(d) && MayEnter(s, d) && RelievesNothing(s, d, cpu))
    && (v == PhaseBlock <==> s.task.domain != Some(d) && MayEnter(s, d) && WaitsItsTurn(s, d, cpu))
    && (v == ReverseBlock <==> s.task.domain != Some(d) && MayEnter(s, d) && IsHeldBack(s, d, cpu))
  }

  lemma VerdictsFor(s: Scene, d: nat, cpu: nat)
    requires s.topo.Consistent() && !s.Excluded() && IsCpuFor(s, d, cpu)
    ensures Means(s, d, cpu, VerdictFor(s, d, cpu))
  {
    LimitsAre(s, d);
    GuardsAre(s, d, s.Baseline(d), EvalOf(s, d, cpu));
  }

  ghost predicate MeansOn(s: Scene, d: nat, v: Verdict) {
    && (v == Skipped <==> !Offered(s, d))
    && (v == BudgetBlock <==> Offered(s, d) && !MayEnter(s, d))
    && (v == SoftOnlyBlock <==> OfferedInVain(s, d))
    && (v == PhaseBlock <==> OfferedTooEarly(s, d))
    && (v == ReverseBlock <==> OfferedBack(s, d))
  }

  lemma OnlyCpu(s: Scene, d: nat, cpu: nat)
    requires CpuFor(s, d) == Some(cpu) && IsCpuFor(s, d, cpu)
    requires forall x: nat :: IsCpuFor(s, d, x) ==> CpuFor(s, d) == Some(x)
    ensures (exists x: nat :: RelievesNothing(s, d, x)) <==> RelievesNothing(s, d, cpu)
    ensures (exists x: nat :: WaitsItsTurn(s, d, x)) <==> WaitsItsTurn(s, d, cpu)
    ensures (exists x: nat :: IsHeldBack(s, d, x)) <==> IsHeldBack(s, d, cpu)
  {
  }

  lemma VerdictsAre(s: Scene, d: nat)
    requires s.topo.Consistent() && !s.Excluded() && d in s.mapping.eligibleDomains
    ensures MeansOn(s, d, VerdictOn(s, d))
  {
    CpuForExists(s, d);
    SamplesAreUsable(s, d);
    if CpuFor(s, d).Some? {
      var cpu := CpuFor(s, d).value;
      VerdictsFor(s, d, cpu);
      OnlyCpu(s, d, cpu);
      assert VerdictOn(s, d) == if IsSampled(s, d) then VerdictFor(s, d, cpu) else Skipped;
      MeansThere(s, d, cpu, VerdictFor(s, d, cpu));
    }
  }

  lemma MeansThere(s: Scene, d: nat, cpu: nat, v: Verdict)
    requires Means(s, d, cpu, v) && IsCpuFor(s, d, cpu) && d in s.mapping.eligibleDomains
    requires (exists x: nat :: RelievesNothing(s, d, x)) <==> RelievesNothing(s, d, cpu)
    requires (exists x: nat :: WaitsItsTurn(s, d, x)) <==> WaitsItsTurn(s, d, cpu)
    requires (exists x: nat :: IsHeldBack(s, d, x)) <==> IsHeldBack(s, d, cpu)
    ensures IsSampled(s, d) ==> MeansOn(s, d, v)
  {
  }

  /** The reasons in terms of what each domain answered. */
  lemma ReasonsOf(judge: Judge, domains: seq<nat>)
    requires forall d :: d in domains ==> !judge(d).Kept?
    ensures var r := BlockReason(judge, domains);
            && (r == StayCurrentDomain <==> Answer(judge, domains, SoftOnlyBlock))
            && (r == MovePhaseGate <==> !Answer(judge, domains, SoftOnlyBlock) && Answer(judge, domains, PhaseBlock))
            && (r == ReverseHysteresis <==>
                  !Answer(judge, domains, SoftOnlyBlock) && !Answer(judge, domains, PhaseBlock) && Answer(judge, domains, ReverseBlock))
            && (r == MigrationBudget <==> Answer(judge, domains, BudgetBlock) && forall d :: d in domains ==> judge(d) == Skipped || judge(d) == BudgetBlock)
            && (r == NoCandidate <==> forall d :: d in domains ==> judge(d) == Skipped)
  {
    forall v ensures Blocked(judge, domains, v) <==> Answer(judge, domains, v) {
      if d :| d in domains && judge(d) == v {
        var i :| 0 <= i < |domains| && domains[i] == d;
      }
    }
  }

  lemma VerdictsMean(s: Scene)
    requires s.topo.Consistent() && !s.Excluded() && forall e: Eval :: !Candidate(s, e.domain, e)
    ensures forall d :: d in Domains(s) ==> !JudgeOf(s)(d).Kept? && MeansOn(s, d, JudgeOf(s)(d))
    ensures forall d :: Offered(s, d) ==> d in Domains(s)
  {
    forall d | d in Domains(s) ensures !JudgeOf(s)(d).Kept? && MeansOn(s, d, JudgeOf(s)(d)) {
      VerdictsAre(s, d);
      NotKept(s, d);
    }
  }

  /** The reason given for staying, from what the domains offered. */
  ghost predicate Explains(s: Scene, r: Reason) {
    && (r == NoCandidate <==> forall d :: !Offered(s, d))
    && (r == MigrationBudget <==> (exists d :: Offered(s, d)) && forall d :: Offered(s, d) ==> !MayEnter(s, d))
    && (r == StayCurrentDomain <==> exists d :: OfferedInVain(s, d))
    && (r == MovePhaseGate <==> (forall d :: !OfferedInVain(s, d)) && exists d :: OfferedTooEarly(s, d))
    && (r == ReverseHysteresis <==>
          (forall d :: !OfferedInVain(s, d)) && (forall d :: !OfferedTooEarly(s, d)) && exists d :: OfferedBack(s, d))
  }

  ghost predicate Answer(judge: Judge, domains: seq<nat>, v: Verdict) { exists d :: d in domains && judge(d) == v }

  ghost predicate Answered(s: Scene, judge: Judge, domains: seq<nat>) {
    && (forall d :: d in domains ==> !judge(d).Kept? && MeansOn(s, d, judge(d)))
    && (forall d :: Offered(s, d) ==> d in domains)
  }

  lemma AnswersMean(s: Scene, judge: Judge, domains: seq<nat>)
    requires Answered(s, judge, domains)
    ensures Answer(judge, domains, SoftOnlyBlock) <==> exists d :: OfferedInVain(s, d)
    ensures Answer(judge, domains, PhaseBlock) <==> exists d :: OfferedTooEarly(s, d)
    ensures Answer(judge, domains, ReverseBlock) <==> exists d :: OfferedBack(s, d)
  {
    forall d ensures (d in domains && judge(d) == SoftOnlyBlock <==> OfferedInVain(s, d))
      && (d in domains && judge(d) == PhaseBlock <==> OfferedTooEarly(s, d))
      && (d in domains && judge(d) == ReverseBlock <==> OfferedBack(s, d))
    {
      MeansIn(s, judge, domains, d);
    }
  }

  lemma MeansIn(s: Scene, judge: Judge, domains: seq<nat>, d: nat)
    requires Answered(s, judge, domains)
    ensures d in domains && judge(d) == SoftOnlyBlock <==> OfferedInVain(s, d)
    ensures d in domains && judge(d) == PhaseBlock <==> OfferedTooEarly(s, d)
    ensures d in domains && judge(d) == ReverseBlock <==> OfferedBack(s, d)
  {
  }

  lemma BudgetsMean(s: Scene, judge: Judge, domains: seq<nat>)
    requires Answered(s, judge, domains)
    ensures (forall d :: d in domains ==> judge(d) == Skipped) <==> forall d :: !Offered(s, d)
    ensures Answer(judge, domains, BudgetBlock) && (forall d :: d in domains ==> judge(d) == Skipped || judge(d) == BudgetBlock) <==>
            (exists d :: Offered(s, d)) && forall d :: Offered(s, d) ==> !MayEnter(s, d)
  {
  }

  lemma ReasonExplains(s: Scene, judge: Judge, domains: seq<nat>)
    requires Answered(s, judge, domains)
    ensures Explains(s, BlockReason(judge, domains))
  {
    ReasonsOf(judge, domains);
    AnswersMean(s, judge, domains);
    BudgetsMean(s, judge, domains);
  }

  /**
   * A weighed task in service without a candidate says why it stays: no other domain was offered exactly when there was
   * none; budgets exactly when nothing else stood in the way; it would rather stay exactly when some domain with budget
   * left would have relieved nothing; else the phase exactly when some worthwhile move had to wait its turn; else the
   * protection exactly when some move would have undone the last one.
   */
  lemma ReasonToStay(s: Scene)
    requires s.topo.Consistent() && Weighed(s) && !s.Excluded() && forall e: Eval :: !Candidate(s, e.domain, e)
    ensures Explains(s, Decide(s).reason)
  {
    NoCandidateRemains(s);
    VerdictsMean(s);
    ReasonExplains(s, JudgeOf(s), Domains(s));
  }

  lemma NotKept(s: Scene, d: nat)
    requires s.topo.Consistent() && d in s.mapping.eligibleDomains && forall e: Eval :: !Candidate(s, e.domain, e)
    ensures !VerdictOn(s, d).Kept?
  {
    if VerdictOn(s, d).Kept? {
      Placement.KeptIsLegal(s, d);
      ScanKeepsCandidates(s, d, VerdictOn(s, d).e);
    }
  }

  // ----- where it stays -----

  /** A task without an allowed CPU in its domain, or without a domain, keeps the CPU it is on. */
  lemma StrandedKeepsCpu(s: Scene)
    requires s.topo.Consistent() && (s.task.domain.Some? ==> forall c :: !Legal(s.topo, c, s.task.domain.value, s.allowed))
    ensures s.StayCpu() == s.task.cpu
  {
    if s.task.domain.Some? {
      ChooseInDomainIsLegal(s.cpus, s.topo, s.task.View(), s.task.domain.value, s.allowed, s.mapping.eligibleCpus,
                            !s.Excluded() && s.task.trigger.IsTick(), AsCurrent);
    }
  }

  /** So does one in service at a tick, if it may use it there. */
  lemma TickKeepsCpu(s: Scene)
    requires s.topo.Consistent() && !s.Excluded() && s.task.trigger.IsTick()
    requires s.task.cpu.Some? && Legal(s.topo, s.task.cpu.value, s.task.domain.value, s.allowed)
    ensures s.StayCpu() == s.task.cpu
  {
    PinnedStays(s.cpus, s.topo, s.task.View(), s.task.domain.value, s.allowed, s.mapping.eligibleCpus, AsCurrent);
  }
}
