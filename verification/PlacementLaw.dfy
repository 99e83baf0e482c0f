/** Which answer a placement gives, case by case, and when exactly a task leaves its domain. */
module PlacementLaw {
  import opened Arithmetic
  import opened Machine
  import opened Ordered
  import opened Samples
  import opened CpuSelect
  import opened CpuLaw
  import opened HostMapping
  import opened PlacementCost
  import opened PlacementScene
  import opened Placement
  import opened PlacementMargin

  // ----- who is a candidate -----

  /** The CPU a candidate of the domain would run on: legal and eligible, and before every other such CPU. */
  ghost predicate IsCpuFor(s: Scene, d: nat, cpu: nat) {
    && Legal(s.topo, cpu, d, s.AllowedEligible())
    && forall c :: Legal(s.topo, c, d, s.AllowedEligible()) && c != cpu ==> BetterOff(s.cpus, s.task.tid, cpu, c)
  }

  /**
   * Only another domain can give the task a better CPU: its own has no idle one it may use, and either the CPU it is on
   * is not usable there or taken by another thread, or some CPU it may use there is promised to another thread.
   */
  ghost predicate OnlyElsewhere(s: Scene) {
    && s.task.domain.Some?
    && var d := s.task.domain.value;
       && (forall c :: Legal(s.topo, c, d, s.allowed) ==> !s.cpus.Idle(c))
       && (|| s.task.cpu.None? || !Legal(s.topo, s.task.cpu.value, d, s.allowed)
           || s.cpus.State(s.task.cpu.value).currentTid !in {0, s.task.tid}
           || exists c: nat, j: nat :: Legal(s.topo, c, d, s.allowed) && c < |s.cpus.planned| && j in s.cpus.planned[c] && j != s.task.tid)
  }

  lemma NeedsOtherIsOnlyElsewhere(s: Scene)
    requires s.topo.Consistent() && s.task.domain.Some?
    ensures s.NeedsOtherDomain() <==> OnlyElsewhere(s)
  {
    var d := s.task.domain.value;
    assert forall c :: Legal(s.topo, c, d, s.allowed) <==> c in s.topo.CpusOf(d) && c in s.allowed;
  }

  /**
   * What makes a move worth its cost. It must be better than staying. Unless it relieves slots: with nothing overloaded
   * it must give the task an idle CPU in place of a busy one, when its own domain has none to give; with something
   * overloaded it must not be for the CPU alone.
   */
  ghost predicate Worthwhile(s: Scene, base: Cost, move: Cost) {
    && move.Better(base)
    && (move.slots.Less(base.slots)
        || if base.overload == 0 && move.overload == 0
           then move.cpuCost < base.cpuCost && OnlyElsewhere(s)
           else || move.cpuCost >= base.cpuCost || move.overload < base.overload || move.maxOverload < base.maxOverload
                || move.pairPenalty < base.pairPenalty || move.pressure < base.pressure)
  }

  /** A protected migration may be undone only while the source is overloaded, and when that takes it or the pair some of the way out. */
  ghost predicate MayReverse(s: Scene, base: Cost, move: Cost) {
    && s.SourceLive() > s.SourceCapacity()
    && (SatSub(s.SourceLive(), s.SourceEffect().df) <= s.SourceCapacity() || move.overload < base.overload)
  }

  ghost predicate Recent(ts: nat, now: nat, ms: nat) { 0 < ts <= now && now - ts <= ms * 1_000_000 }

  /** Both kinds of samples of the domain are valid and recent. */
  ghost predicate IsSampled(s: Scene, d: nat) {
    && d < |s.df| && s.df[d].Some? && s.df[d].value.valid && Recent(s.df[d].value.sampleTs, s.now, s.cfg.dfStaleMs)
    && d < |s.llc| && s.llc[d].Some? && s.llc[d].value.valid && Recent(s.llc[d].value.sampleTs, s.now, s.cfg.llcStaleMs)
  }

  /** The batch may still move a task into the domain. */
  ghost predicate MayEnter(s: Scene, d: nat) { d < |s.planned| ==> s.planned[d].incoming < s.planned[d].budget }

  /** The batch may still move a task out of the domain the task is in. */
  ghost predicate MayLeave(s: Scene) {
    s.task.domain.Some? && s.task.domain.value < |s.planned| ==>
      s.planned[s.task.domain.value].outgoing < s.planned[s.task.domain.value].budget
  }

  /** The move would undo the thread's last migration while that is protected. */
  ghost predicate GoesBack(s: Scene, d: nat) {
    s.meta.Some? && s.now < s.meta.value.reverseProtectUntil && s.meta.value.lastTo == s.task.domain && s.meta.value.lastFrom == Some(d)
  }

  lemma SamplesAreUsable(s: Scene, d: nat)
    ensures IsSampled(s, d) <==> s.UsableDf(d).Some? && s.UsableLlc(d).Some?
  {
  }

  lemma LimitsAre(s: Scene, d: nat)
    ensures MayEnter(s, d) <==> !s.BudgetSpent(d)
    ensures !s.Excluded() ==> (MayLeave(s) <==> !s.SourceBudgetSpent())
    ensures GoesBack(s, d) <==> s.Reverses(d)
  {
  }

  /** A domain the task may be moved to, as the evaluation `e`. */
  ghost predicate Candidate(s: Scene, d: nat, e: Eval) {
    && d in s.mapping.eligibleDomains && IsSampled(s, d)
    && IsCpuFor(s, d, e.cpu) && e == EvalOf(s, d, e.cpu)
    && (!s.Excluded() ==>
          var base := s.Baseline(d);
          && s.task.domain != Some(d) && MayEnter(s, d) && s.PhaseAllows(d)
          && Worthwhile(s, base, e.cost) && (GoesBack(s, d) ==> MayReverse(s, base, e.cost)))
  }

  lemma PassesWhenWorthwhile(s: Scene, d: nat, base: Cost, move: Cost)
    requires s.topo.Consistent() && s.task.domain.Some?
    ensures Passes(s, d, base, move) <==>
            s.PhaseAllows(d) && Worthwhile(s, base, move) && (s.Reverses(d) ==> MayReverse(s, base, move))
  {
    NeedsOtherIsOnlyElsewhere(s);
  }

  lemma CpuForIsLeast(s: Scene, d: nat, cpu: nat)
    requires s.topo.Consistent()
    ensures CpuFor(s, d) == Some(cpu) <==> IsCpuFor(s, d, cpu)
  {
    ChooseCpuIsLeast(s.cpus, s.topo, d, s.AllowedEligible(), s.task.tid);
    forall c | Legal(s.topo, c, d, s.AllowedEligible())
      ensures CpuFor(s, d).Some? && (c != CpuFor(s, d).value ==> BetterOff(s.cpus, s.task.tid, CpuFor(s, d).value, c))
    {
      ChosenIsBestOff(s.cpus, s.topo, d, s.AllowedEligible(), s.task.tid, c);
    }
    if IsCpuFor(s, d, cpu) && CpuFor(s, d) != Some(cpu) {
      BusyKeyIsBetterOff(s.cpus, s.task.tid, cpu, CpuFor(s, d).value);
      BusyKeyIsBetterOff(s.cpus, s.task.tid, CpuFor(s, d).value, cpu);
      LexTotal(s.cpus.BusyKey(cpu, s.task.tid), s.cpus.BusyKey(CpuFor(s, d).value, s.task.tid));
    }
  }

  lemma VerdictForIs(s: Scene, d: nat, cpu: nat)
    ensures var v, e := VerdictFor(s, d, cpu), EvalOf(s, d, cpu);
            && (v.Kept? ==> v.e == e)
            && (v.Kept? <==> (!s.Excluded() ==> s.task.domain != Some(d) && !s.BudgetSpent(d) && Passes(s, d, s.Baseline(d), e.cost)))
  {
    GuardedKeepsBetter(s, d, s.Baseline(d), EvalOf(s, d, cpu));
  }

  /** The scan keeps exactly the candidates. */
  lemma ScanKeepsCandidates(s: Scene, d: nat, e: Eval)
    requires s.topo.Consistent() && d in s.mapping.eligibleDomains
    ensures VerdictOn(s, d) == Kept(e) <==> Candidate(s, d, e)
  {
    CpuForIsLeast(s, d, e.cpu);
    SamplesAreUsable(s, d);
    LimitsAre(s, d);
    if !s.Excluded() {
      PassesWhenWorthwhile(s, d, s.Baseline(d), e.cost);
    }
    if CpuFor(s, d).Some? {
      var cpu := CpuFor(s, d).value;
      VerdictForIs(s, d, cpu);
      CpuForIsLeast(s, d, cpu);
    }
  }

  /** The candidate that comes before all others, by slots, then soft cost, then the tie-break. */
  ghost predicate LeastCandidate(s: Scene, e: Eval) {
    && Candidate(s, e.domain, e)
    && forall x: Eval :: Candidate(s, x.domain, x) && x != e ==> LexLess(e.Key(), x.Key())
  }

  lemma BestIsLeastCandidate(s: Scene, e: Eval)
    requires s.topo.Consistent()
    ensures Best(s) == Some(e) <==> LeastCandidate(s, e)
  {
    if Best(s) == Some(e) {
      BestIsKept(s);
      ScanKeepsCandidates(s, e.domain, e);
      forall x: Eval | Candidate(s, x.domain, x) && x != e ensures LexLess(e.Key(), x.Key()) {
        ScanKeepsCandidates(s, x.domain, x);
        BestBeatsAll(s, x.domain);
      }
    } else if LeastCandidate(s, e) {
      ScanKeepsCandidates(s, e.domain, e);
      BestBeatsAll(s, e.domain);
      var b := Best(s).value;
      BestIsKept(s);
      ScanKeepsCandidates(s, b.domain, b);
      LexTotal(e.Key(), b.Key());
    }
  }

  lemma BestIsCandidate(s: Scene)
    requires s.topo.Consistent()
    ensures Best(s).Some? ==> Candidate(s, Best(s).value.domain, Best(s).value)
  {
    if Best(s).Some? {
      BestIsLeastCandidate(s, Best(s).value);
    }
  }

  lemma SomeCandidateMeansBest(s: Scene, d: nat, e: Eval)
    requires s.topo.Consistent() && Candidate(s, d, e)
    ensures Best(s).Some?
  {
    ScanKeepsCandidates(s, d, e);
    BestBeatsAll(s, d);
  }

  // ----- spreading -----

  /** Some eligible domain has an idle CPU among the given ones. */
  ghost predicate IdleSomewhere(s: Scene, cpus: set<nat>) {
    exists d: nat, c: nat :: d in s.mapping.eligibleDomains && Legal(s.topo, c, d, cpus) && s.cpus.Idle(c)
  }

  /** A spread over the given CPUs takes the domain with the fewest tasks among those with an idle one. */
  lemma SpreadsToFewest(s: Scene, cpus: set<nat>, d: nat, c: nat)
    requires s.topo.Consistent() && d in s.mapping.eligibleDomains && Legal(s.topo, c, d, cpus) && s.cpus.Idle(c)
    ensures SpreadIn(s, cpus).Some? && s.TasksOn(SpreadIn(s, cpus).value.domain) <= s.TasksOn(d)
  {
    ChosenIsBestOff(s.cpus, s.topo, d, cpus, s.task.tid, c);
    SpreadInIsLeast(s, cpus, d);
  }

  lemma SpreadsWhenIdle(s: Scene, cpus: set<nat>)
    requires s.topo.Consistent()
    ensures SpreadIn(s, cpus).Some? <==> IdleSomewhere(s, cpus)
  {
    SpreadInIsIdle(s, cpus);
    if IdleSomewhere(s, cpus) {
      var d: nat, c: nat :| d in s.mapping.eligibleDomains && Legal(s.topo, c, d, cpus) && s.cpus.Idle(c);
      SpreadsToFewest(s, cpus, d, c);
    }
  }

  /**
   * There is a domain to spread to exactly when some eligible domain has an idle CPU the task may use, and
   * eligible CPUs are preferred.
   */
  lemma SpreadsWhenSomeCpuIsIdle(s: Scene)
    requires s.topo.Consistent()
    ensures SpreadChoice(s).Some? <==> IdleSomewhere(s, s.allowed)
    ensures IdleSomewhere(s, s.AllowedEligible()) ==> SpreadChoice(s) == SpreadIn(s, s.AllowedEligible())
  {
    SpreadsWhenIdle(s, s.AllowedEligible());
    SpreadsWhenIdle(s, s.allowed);
    WiderIsIdleToo(s);
  }

  lemma WiderIsIdleToo(s: Scene)
    ensures IdleSomewhere(s, s.AllowedEligible()) ==> IdleSomewhere(s, s.allowed) && s.AllowedEligible() != {}
  {
    if IdleSomewhere(s, s.AllowedEligible()) {
      var d: nat, c: nat :| d in s.mapping.eligibleDomains && Legal(s.topo, c, d, s.AllowedEligible()) && s.cpus.Idle(c);
      assert Legal(s.topo, c, d, s.allowed);
    }
  }

  // ----- the answers -----

  /** Woken or asked for by a helper at most four times, and without two samples of its traffic. */
  ghost predicate IsNew(s: Scene) {
    && s.task.trigger in {Enqueue, Helper} && s.task.enqueues <= 4
    && (s.meta.None? || s.meta.value.samples <= 1)
  }

  /** The traffic the threads planned in the task's domain sum to, or the task's own where none is counted. */
  ghost function Signature(s: Scene): nat {
    if s.task.domain.Some? && s.task.domain.value < |s.planned| && s.planned[s.task.domain.value].contributors > 0
    then s.planned[s.task.domain.value].df
    else if s.SourceEffect().valid then s.SourceEffect().df else 0
  }

  /** The task has not left for an idle CPU, and is far enough along for its traffic to be weighed. */
  ghost predicate Weighed(s: Scene) {
    && (IsNew(s) ==> SpreadTarget(s).None?)
    && (!s.Excluded() ==>
          && (s.meta.None? || s.meta.value.settleUntil <= s.now) && s.task.l2 >= s.cfg.l2Need
          && s.SourceEffect().valid && Signature(s) > 0 && MayLeave(s))
  }

  /** A decision to stay, for the given reason; a throttled one gives a short slice. */
  ghost predicate Remains(s: Scene, d: Decision, reason: Reason, throttled: bool) {
    && d.reason == reason && d.domain == s.task.domain && d.cpu == s.StayCpu() && !d.deferred
    && d.tick == (if throttled then Reslices else if s.task.trigger.IsTick() then Stays else NoTick)
    && d.slice == if throttled then 1_000_000 else 4_000_000
  }

  ghost predicate Goes(s: Scene, d: Decision, domain: nat, cpu: nat, reason: Reason) {
    && d.reason == reason && d.domain == Some(domain) && d.cpu == Some(cpu) && !d.deferred
    && d.tick == (if s.task.trigger.IsTick() then Moves else NoTick) && d.slice == 4_000_000
  }

  /** A new task with a spread target goes there, whatever else holds. */
  lemma NewSpreads(s: Scene)
    requires IsNew(s) && SpreadTarget(s).Some?
    ensures Goes(s, Decide(s), SpreadTarget(s).value.domain, SpreadTarget(s).value.cpu, IdleSpread)
  {
  }

  lemma SignatureIs(s: Scene)
    ensures Signature(s) == s.SourceSignature()
  {
  }

  lemma NewIsYoung(s: Scene)
    ensures IsNew(s) <==> s.Young()
    ensures Spread(s).None? <==> (IsNew(s) ==> SpreadTarget(s).None?)
  {
  }

  lemma EarlyIs(s: Scene)
    ensures StaysEarly(s) <==>
            && !s.Excluded()
            && ((s.meta.Some? && s.now < s.meta.value.settleUntil) || s.task.l2 < s.cfg.l2Need
                || !s.SourceEffect().valid || Signature(s) == 0)
  {
    SignatureIs(s);
  }

  lemma WeighedIsNotEarly(s: Scene)
    ensures Weighed(s) <==> Spread(s).None? && !StaysEarly(s) && !s.SourceBudgetSpent()
  {
    NewIsYoung(s);
    EarlyIs(s);
    LimitsAre(s, 0);
    assert Weighed(s) <==>
           && (IsNew(s) ==> SpreadTarget(s).None?) && !StaysEarly(s) && (s.Excluded() || MayLeave(s));
  }

  /** A task in service that does not spread and is not weighed stays, because it is too early or its budget is spent. */
  lemma UnweighedRemains(s: Scene)
    requires (IsNew(s) ==> SpreadTarget(s).None?) && !Weighed(s)
    ensures !s.Excluded()
    ensures Remains(s, Decide(s), if StaysEarly(s) then StayCurrentDomain else MigrationBudget, false)
    ensures StaysEarly(s) <==>
            || (s.meta.Some? && s.now < s.meta.value.settleUntil) || s.task.l2 < s.cfg.l2Need
            || !s.SourceEffect().valid || Signature(s) == 0
  {
    WeighedIsNotEarly(s);
    EarlyIs(s);
    NewIsYoung(s);
  }

  lemma WeighedTakesChosen(s: Scene)
    requires Weighed(s)
    ensures Decide(s) == ChosenBest(s).GetOr(NothingKept(s))
  {
    WeighedIsNotEarly(s);
  }

  /** A weighed task without a candidate stays, and one that a villain's reslice asked for is throttled while its source is overloaded. */
  lemma NoCandidateRemains(s: Scene)
    requires s.topo.Consistent() && Weighed(s) && forall e: Eval :: !Candidate(s, e.domain, e)
    ensures !Decide(s).reason.Relocates()
    ensures Remains(s, Decide(s), BlockReason(JudgeOf(s), Domains(s)), s.task.trigger.VillainReslice? && s.SourceLive() > s.SourceCapacity())
  {
    WeighedTakesChosen(s);
    BestIsCandidate(s);
    NothingKeptStays(s);
    ReslicedKeepsHome(Stay(s, BlockReason(JudgeOf(s), Domains(s))), RateControlled(s));
  }

  /** A weighed task out of service escapes to its least candidate. */
  lemma OutOfServiceEscapes(s: Scene, e: Eval)
    requires s.topo.Consistent() && Weighed(s) && s.Excluded() && LeastCandidate(s, e)
    ensures Goes(s, Decide(s), e.domain, e.cpu, ExcludedDomainEscape)
  {
    WeighedTakesChosen(s);
    BestIsLeastCandidate(s, e);
  }

  /** The least candidate relieves slots or gains the nominal margin over staying. */
  ghost predicate WorthLeaving(s: Scene, e: Eval) {
    var base := s.Baseline(e.domain);
    || e.cost.slots.Less(base.slots)
    || GainsMargin(e.cost, base, EffectiveMargin(s.SourceLive(), s.cfg.migrateMargin, s.SourceCapacity()))
  }

  ghost predicate LeavesOrMisses(s: Scene, d: Decision, e: Eval) {
    if WorthLeaving(s, e) then Goes(s, d, e.domain, e.cpu, MoveCoolerDomain) else Remains(s, d, MarginNotMet, false)
  }

  lemma ChosenIs(s: Scene, e: Eval)
    requires !s.Excluded()
    ensures Chosen(s, e).reason == MoveCoolerDomain ==> Goes(s, Chosen(s, e), e.domain, e.cpu, MoveCoolerDomain)
    ensures Chosen(s, e).reason == MarginNotMet ==> Remains(s, Chosen(s, e), MarginNotMet, false)
  {
  }

  lemma ChosenLeavesOrMisses(s: Scene, e: Eval)
    requires s.topo.Consistent() && SameDemand(s) && !s.Excluded() && Best(s) == Some(e)
    ensures LeavesOrMisses(s, Chosen(s, e), e)
  {
    ChosenOnNominalMargin(s);
    ChosenIs(s, e);
    assert Chosen(s, e).reason == if WorthLeaving(s, e) then MoveCoolerDomain else MarginNotMet;
  }

  /** A weighed task in service leaves for its least candidate if that is worth it, and misses the margin otherwise. */
  lemma InServiceLeaves(s: Scene, e: Eval)
    requires s.topo.Consistent() && SameDemand(s) && Weighed(s) && !s.Excluded() && LeastCandidate(s, e)
    ensures LeavesOrMisses(s, Decide(s), e)
  {
    WeighedTakesChosen(s);
    BestIsLeastCandidate(s, e);
    ChosenLeavesOrMisses(s, e);
    assert Decide(s) == Chosen(s, e);
  }

  /**
   * A weighed task in service moves to a cooler domain exactly when some domain is a candidate and the least of the
   * candidates relieves slots or gains the nominal margin; it then goes to that candidate's domain and CPU.
   */
  lemma LeavesExactlyWhen(s: Scene)
    requires s.topo.Consistent() && SameDemand(s) && Weighed(s) && !s.Excluded()
    ensures Decide(s).reason == MoveCoolerDomain <==> exists e: Eval :: LeastCandidate(s, e) && WorthLeaving(s, e)
    ensures forall e: Eval :: LeastCandidate(s, e) && WorthLeaving(s, e) ==> Goes(s, Decide(s), e.domain, e.cpu, MoveCoolerDomain)
    ensures (exists e: Eval :: Candidate(s, e.domain, e)) <==> exists e: Eval :: LeastCandidate(s, e)
  {
    forall e: Eval | LeastCandidate(s, e) ensures WorthLeaving(s, e) ==> Goes(s, Decide(s), e.domain, e.cpu, MoveCoolerDomain) {
      InServiceLeaves(s, e);
    }
    if e: Eval :| Candidate(s, e.domain, e) {
      SomeCandidateMeansBest(s, e.domain, e);
      BestIsLeastCandidate(s, Best(s).value);
      InServiceLeaves(s, Best(s).value);
    } else {
      NoCandidateRemains(s);
    }
  }
}
