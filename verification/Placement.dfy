/** The placement decision: spread a young task, stay, or move to the best domain that survives the guards. */
module Placement {
  import opened Machine
  import opened Ordered
  import opened Samples
  import opened CpuSelect
  import opened HostMapping
  import opened PlacementCost
  import opened PlacementScene

  datatype Reason =
    | IdleSpread | StayCurrentDomain | MoveCoolerDomain | ExcludedDomainEscape | NoCandidate | MarginNotMet
    | MigrationBudget | MovePhaseGate | ReverseHysteresis | DestinationGuard
  {
    /** A move that the migration budgets govern. */
    predicate Migrates() { MoveCoolerDomain? || ExcludedDomainEscape? }

    predicate Relocates() { IdleSpread? || Migrates() }
  }

  datatype TickDecision = NoTick | Stays | Moves | Defers | Reslices

  const DEFAULT_SLICE_NS: u64 := 4_000_000
  const RESLICE_SLICE_NS: u64 := 1_000_000

  datatype Decision = Decision(
    domain: Option<nat>, cpu: Option<nat>, reason: Reason, trigger: Trigger, tick: TickDecision, deferred: bool, slice: u64)

  // ----- spreading a young task over idle CPUs -----

  function SpreadCpu(s: Scene, cpus: set<nat>, d: nat): Option<nat> {
    var c := s.cpus.ChooseCpu(s.topo, d, cpus, s.task.tid);
    Keep(c, c.Some? && s.cpus.Idle(c.value))
  }

  function SpreadKey(s: Scene, cpus: set<nat>, d: nat): seq<int> {
    var c := SpreadCpu(s, cpus, d).GetOr(0);
    [s.TasksOn(d), s.cpus.Jobs(c), s.cpus.Util(c), s.cpus.State(c).depth, d, Bit(s.task.cpu == Some(c)), c]
  }

  function SpreadKeys(s: Scene, cpus: set<nat>): nat -> seq<int> { (d: nat) => SpreadKey(s, cpus, d) }

  function Spreadable(s: Scene, cpus: set<nat>): set<nat> {
    set d | d in s.mapping.eligibleDomains && SpreadCpu(s, cpus, d).Some?
  }

  /** The least loaded domain with an idle CPU among the given ones. */
  function SpreadDomain(s: Scene, cpus: set<nat>): Option<nat> {
    LeastBy(Filter(Ascending(s.mapping.eligibleDomains), Spreadable(s, cpus)), SpreadKeys(s, cpus))
  }

  datatype Target = Target(domain: nat, cpu: nat)

  function SpreadIn(s: Scene, cpus: set<nat>): Option<Target> {
    var d := SpreadDomain(s, cpus);
    if d.Some? then Some(Target(d.value, SpreadCpu(s, cpus, d.value).GetOr(0))) else None
  }

  /** The eligible CPUs first, then all allowed ones. */
  function SpreadChoice(s: Scene): Option<Target> {
    (if s.AllowedEligible() == {} then None else SpreadIn(s, s.AllowedEligible())).Or(SpreadIn(s, s.allowed))
  }

  /** A target counts only if the task is not already there. */
  function Elsewhere(task: Queued, t: Option<Target>): Option<Target> {
    if t.Some? && task.domain == Some(t.value.domain) && task.cpu == Some(t.value.cpu) then None else t
  }

  function SpreadTarget(s: Scene): Option<Target> { Elsewhere(s.task, SpreadChoice(s)) }

  lemma SpreadInIsIdle(s: Scene, cpus: set<nat>)
    requires s.topo.Consistent()
    ensures var t := SpreadIn(s, cpus);
            t.Some? ==> t.value.domain in s.mapping.eligibleDomains && Legal(s.topo, t.value.cpu, t.value.domain, cpus)
                        && s.cpus.Idle(t.value.cpu)
  {
    LeastByIsLeast(Filter(Ascending(s.mapping.eligibleDomains), Spreadable(s, cpus)), SpreadKeys(s, cpus));
    var d := SpreadDomain(s, cpus);
    if d.Some? {
      ChooseCpuIsLeast(s.cpus, s.topo, d.value, cpus, s.task.tid);
    }
  }

  /** No domain with an idle CPU among the given ones comes before the one chosen: it has the fewest tasks. */
  lemma SpreadInIsLeast(s: Scene, cpus: set<nat>, d: nat)
    requires d in s.mapping.eligibleDomains && SpreadCpu(s, cpus, d).Some?
    ensures SpreadIn(s, cpus).Some?
    ensures var best := SpreadIn(s, cpus).value.domain;
            !LexLess(SpreadKey(s, cpus, d), SpreadKey(s, cpus, best)) && s.TasksOn(best) <= s.TasksOn(d)
  {
    var order := Filter(Ascending(s.mapping.eligibleDomains), Spreadable(s, cpus));
    assert d in order;
    LeastByIsLeast(order, SpreadKeys(s, cpus));
    var best := SpreadDomain(s, cpus).value;
    assert !LexLess(SpreadKeys(s, cpus)(d), SpreadKeys(s, cpus)(best));
    FirstOfKey(SpreadKey(s, cpus, d), SpreadKey(s, cpus, best));
  }

  lemma FirstOfKey(a: seq<int>, b: seq<int>)
    requires a != [] && b != [] && !LexLess(a, b)
    ensures b[0] <= a[0]
  {
  }

  /** A spread goes to an idle CPU that the task may use, in an eligible domain, and not to where the task is. */
  lemma SpreadIsIdle(s: Scene)
    requires s.topo.Consistent()
    ensures var t := SpreadTarget(s);
            t.Some? ==> t.value.domain in s.mapping.eligibleDomains && Legal(s.topo, t.value.cpu, t.value.domain, s.allowed)
                        && s.cpus.Idle(t.value.cpu)
                        && !(s.task.domain == Some(t.value.domain) && s.task.cpu == Some(t.value.cpu))
  {
    SpreadInIsIdle(s, s.AllowedEligible());
    SpreadInIsIdle(s, s.allowed);
  }

  // ----- the candidate scan -----

  datatype Verdict = Skipped | BudgetBlock | ReverseBlock | SoftOnlyBlock | DestinationBlock | PhaseBlock | Kept(e: Eval)

  function EvalOf(s: Scene, d: nat, cpu: nat): Eval { Eval(d, cpu, s.SignatureDf(d), s.LlcOn(d), s.MoveCost(d, cpu)) }

  /** The guards that a source in service imposes, in their order. */
  function Guarded(s: Scene, d: nat, base: Cost, e: Eval): Verdict {
    if s.Reverses(d) && !s.ReverseMayYield(base, e.cost) then ReverseBlock
    else if s.SoftOnly(base, e.cost) then SoftOnlyBlock
    else if s.CpuOnly(base, e.cost) then DestinationBlock
    else if !e.cost.Better(base) then DestinationBlock
    else if !s.PhaseAllows(d) then PhaseBlock
    else Kept(e)
  }

  /** What survives the guards. */
  ghost predicate Passes(s: Scene, d: nat, base: Cost, move: Cost) {
    && move.Better(base) && !s.SoftOnly(base, move) && !s.CpuOnly(base, move) && s.PhaseAllows(d)
    && (s.Reverses(d) ==> s.ReverseMayYield(base, move))
  }

  lemma GuardedKeepsBetter(s: Scene, d: nat, base: Cost, e: Eval)
    ensures Guarded(s, d, base, e).Kept? ==> Guarded(s, d, base, e).e == e
    ensures Guarded(s, d, base, e).Kept? <==> Passes(s, d, base, e.cost)
  {
  }

  function CpuFor(s: Scene, d: nat): Option<nat> { s.cpus.ChooseCpu(s.topo, d, s.AllowedEligible(), s.task.tid) }

  function VerdictFor(s: Scene, d: nat, cpu: nat): Verdict {
    if s.Excluded() then Kept(EvalOf(s, d, cpu))
    else if s.task.domain == Some(d) then Skipped
    else if s.BudgetSpent(d) then BudgetBlock
    else Guarded(s, d, s.Baseline(d), EvalOf(s, d, cpu))
  }

  function VerdictOn(s: Scene, d: nat): Verdict {
    var cpu := CpuFor(s, d);
    if s.UsableDf(d).None? || s.UsableLlc(d).None? || cpu.None? then Skipped else VerdictFor(s, d, cpu.value)
  }

  type Judge = nat -> Verdict

  function JudgeOf(s: Scene): Judge { (d: nat) => VerdictOn(s, d) }

  function Offers(judge: Judge): nat -> Option<Eval> { (d: nat) => if judge(d).Kept? then Some(judge(d).e) else None }

  function Domains(s: Scene): seq<nat> { Ascending(s.mapping.eligibleDomains) }

  function Best(s: Scene): Option<Eval> { BestTo(Offers(JudgeOf(s)), Domains(s), |Domains(s)|) }

  /** What a kept candidate is. */
  ghost predicate KeptOn(s: Scene, d: nat, e: Eval) {
    && e == EvalOf(s, d, e.cpu) && Legal(s.topo, e.cpu, d, s.AllowedEligible()) && s.UsableDf(d).Some?
    && (!s.Excluded() ==> s.task.domain != Some(d) && !s.BudgetSpent(d) && Passes(s, d, s.Baseline(d), e.cost))
  }

  lemma VerdictForKeeps(s: Scene, d: nat, cpu: nat)
    ensures var v := VerdictFor(s, d, cpu);
            v.Kept? ==> v.e == EvalOf(s, d, cpu)
                        && (!s.Excluded() ==> s.task.domain != Some(d) && !s.BudgetSpent(d) && Passes(s, d, s.Baseline(d), v.e.cost))
  {
    GuardedKeepsBetter(s, d, s.Baseline(d), EvalOf(s, d, cpu));
  }

  lemma KeptIsLegal(s: Scene, d: nat)
    requires s.topo.Consistent() && VerdictOn(s, d).Kept?
    ensures KeptOn(s, d, VerdictOn(s, d).e)
  {
    ChooseCpuIsLeast(s.cpus, s.topo, d, s.AllowedEligible(), s.task.tid);
    VerdictForKeeps(s, d, CpuFor(s, d).value);
  }

  /** Candidates of different domains run on different CPUs. */
  lemma CandidatesDiffer(s: Scene, x: nat, y: nat)
    requires s.topo.Consistent() && x != y && VerdictOn(s, x).Kept? && VerdictOn(s, y).Kept?
    ensures VerdictOn(s, x).e.cpu != VerdictOn(s, y).e.cpu
  {
    KeptIsLegal(s, x);
    KeptIsLegal(s, y);
  }

  lemma OffersDiffer(s: Scene)
    requires s.topo.Consistent()
    ensures var offer := Offers(JudgeOf(s));
            forall x, y :: x != y && offer(x).Some? && offer(y).Some? ==> offer(x).value.cpu != offer(y).value.cpu
  {
    var offer := Offers(JudgeOf(s));
    forall x, y | x != y && offer(x).Some? && offer(y).Some? ensures offer(x).value.cpu != offer(y).value.cpu {
      CandidatesDiffer(s, x, y);
    }
  }

  /** The best candidate is the same whatever order the eligible domains are visited in. */
  lemma BestIsOrderFree(s: Scene, order: seq<nat>)
    requires s.topo.Consistent() && forall d :: d in order <==> d in s.mapping.eligibleDomains
    ensures BestTo(Offers(JudgeOf(s)), order, |order|) == Best(s)
  {
    OffersDiffer(s);
    BestIgnoresOrder(Offers(JudgeOf(s)), order, Domains(s));
  }

  /** It beats every other candidate strictly, by slots first, then soft cost, then the tie-break. */
  lemma BestBeatsAll(s: Scene, d: nat)
    requires s.topo.Consistent() && d in s.mapping.eligibleDomains && VerdictOn(s, d).Kept?
    ensures Best(s).Some?
    ensures VerdictOn(s, d) == Kept(Best(s).value) || LexLess(Best(s).value.Key(), VerdictOn(s, d).e.Key())
  {
    OffersDiffer(s);
    BestIsStrict(Offers(JudgeOf(s)), Domains(s), d);
  }

  /** The best candidate, if any, is a kept one of an eligible domain. */
  lemma BestIsKept(s: Scene)
    requires s.topo.Consistent() && Best(s).Some?
    ensures var e := Best(s).value;
            e.domain in s.mapping.eligibleDomains && VerdictOn(s, e.domain) == Kept(e) && KeptOn(s, e.domain, e)
  {
    var offer := Offers(JudgeOf(s));
    BestToIsBest(offer, Domains(s), |Domains(s)|);
    assert Domains(s)[..|Domains(s)|] == Domains(s);
    var b := BestDomain(offer, Domains(s), |Domains(s)|);
    KeptIsLegal(s, b);
  }

  // ----- the final comparison -----

  /** The baseline computed again for the chosen candidate, from what the candidate carries. */
  function FinalBaseline(s: Scene, e: Eval): Cost {
    var live := if s.UsableDf(e.domain).Some? then LinkBandwidth(s.UsableDf(e.domain).value) else 0;
    CostOf(s.SourceLive(), s.SourceCapacity(), live, s.Capacity(e.domain), PairPenalty(s.SourceSignature(), e.dfBefore),
           s.SourceLive(), s.SourceCapacity(), s.PairSlots(s.SourceTasks(), e.domain, s.TasksOn(e.domain)), s.StayIdle())
  }

  /** For a source that is not excluded, it is the baseline the scan compared the candidate with. */
  lemma FinalBaselineAgrees(s: Scene)
    requires s.topo.Consistent() && Best(s).Some? && !s.Excluded()
    ensures FinalBaseline(s, Best(s).value) == s.Baseline(Best(s).value.domain)
    ensures Best(s).value.cost.Better(FinalBaseline(s, Best(s).value))
  {
    BestIsKept(s);
  }

  // ----- the decision -----

  function TickStay(s: Scene): TickDecision { if s.task.trigger.IsTick() then Stays else NoTick }

  function TickMove(s: Scene): TickDecision { if s.task.trigger.IsTick() then Moves else NoTick }

  function Stay(s: Scene, reason: Reason): Decision {
    Decision(s.task.domain, s.StayCpu(), reason, s.task.trigger, TickStay(s), false, DEFAULT_SLICE_NS)
  }

  function MoveTo(s: Scene, d: nat, cpu: nat, reason: Reason): Decision {
    Decision(Some(d), Some(cpu), reason, s.task.trigger, TickMove(s), false, DEFAULT_SLICE_NS)
  }

  /** Whether the judge blocked some domain for the given kind of reason. */
  predicate Blocked(judge: Judge, domains: seq<nat>, v: Verdict) {
    exists i :: 0 <= i < |domains| && judge(domains[i]) == v
  }

  /** The reason reported when nothing survived, strongest first. */
  function BlockReason(judge: Judge, domains: seq<nat>): Reason {
    if Blocked(judge, domains, SoftOnlyBlock) then StayCurrentDomain
    else if Blocked(judge, domains, PhaseBlock) then MovePhaseGate
    else if Blocked(judge, domains, ReverseBlock) then ReverseHysteresis
    else if Blocked(judge, domains, DestinationBlock) then DestinationGuard
    else if Blocked(judge, domains, BudgetBlock) then MigrationBudget
    else NoCandidate
  }

  predicate RateControlled(s: Scene) {
    s.task.trigger.VillainReslice? && Overload(s.SourceLive(), s.SourceCapacity()) > 0
  }

  function Resliced(d: Decision, resliced: bool): Decision {
    if resliced then d.(tick := Reslices, slice := RESLICE_SLICE_NS) else d
  }

  function NothingKept(s: Scene): Decision {
    Resliced(Stay(s, BlockReason(JudgeOf(s), Domains(s))), RateControlled(s))
  }

  function Chosen(s: Scene, e: Eval): Decision {
    if s.Excluded() then MoveTo(s, e.domain, e.cpu, ExcludedDomainEscape) else
      var base := FinalBaseline(s, e);
      var margin := EffectiveMargin(s.SourceLive(), s.cfg.migrateMargin, s.SourceCapacity());
      if !e.cost.Better(base) then Stay(s, StayCurrentDomain)
      else if !e.cost.ClearsMargin(base, margin) then Stay(s, MarginNotMet)
      else MoveTo(s, e.domain, e.cpu, MoveCoolerDomain)
  }

  predicate StaysEarly(s: Scene) {
    !s.Excluded() && (s.Settling() || s.task.l2 < s.cfg.l2Need || !s.SourceEffect().valid || s.SourceSignature() == 0)
  }

  function Spread(s: Scene): Option<Decision> {
    var t := if s.Young() then SpreadTarget(s) else None;
    if t.Some? then Some(MoveTo(s, t.value.domain, t.value.cpu, IdleSpread)) else None
  }

  function ChosenBest(s: Scene): Option<Decision> { if Best(s).Some? then Some(Chosen(s, Best(s).value)) else None }

  /** The order of the answers: spread, stay early, stay for lack of budget, the chosen candidate, nothing kept. */
  function Pick(spread: Option<Decision>, early: bool, spent: bool, chosen: Option<Decision>, stay: Reason -> Decision, unkept: Decision): Decision {
    if spread.Some? then spread.value
    else if early then stay(StayCurrentDomain)
    else if spent then stay(MigrationBudget)
    else chosen.GetOr(unkept)
  }

  function StayFor(s: Scene): Reason -> Decision { (reason: Reason) => Stay(s, reason) }

  function Decide(s: Scene): Decision {
    Pick(Spread(s), StaysEarly(s), s.SourceBudgetSpent(), ChosenBest(s), StayFor(s), NothingKept(s))
  }

  // ----- what the decision promises -----

  /** A move for cause: strictly better than staying, never to a worse slot constraint, and past the margin. */
  ghost predicate CoolerMove(s: Scene, d: nat, cpu: nat) {
    var move, base := s.MoveCost(d, cpu), s.Baseline(d);
    && !s.Excluded() && !StaysEarly(s) && s.task.domain != Some(d)
    && !s.SourceBudgetSpent() && !s.BudgetSpent(d)
    && Passes(s, d, base, move) && !base.slots.Less(move.slots)
    && move.ClearsMargin(base, EffectiveMargin(s.SourceLive(), s.cfg.migrateMargin, s.SourceCapacity()))
  }

  /** A decision that does not relocate keeps the given home. */
  predicate KeepsHome(d: Decision, home: Option<nat>, cpu: Option<nat>) {
    !d.deferred && (!d.reason.Relocates() ==> d.domain == home && d.cpu == cpu)
  }

  lemma BlockReasonStays(judge: Judge, domains: seq<nat>)
    ensures !BlockReason(judge, domains).Relocates()
  {
  }

  lemma NothingKeptStays(s: Scene)
    ensures KeepsHome(NothingKept(s), s.task.domain, s.StayCpu()) && !NothingKept(s).reason.Relocates()
  {
    BlockReasonStays(JudgeOf(s), Domains(s));
    ReslicedKeepsHome(Stay(s, BlockReason(JudgeOf(s), Domains(s))), RateControlled(s));
  }

  lemma ReslicedKeepsHome(d: Decision, resliced: bool)
    ensures Resliced(d, resliced).domain == d.domain && Resliced(d, resliced).cpu == d.cpu
    ensures Resliced(d, resliced).reason == d.reason && Resliced(d, resliced).deferred == d.deferred
  {
  }

  lemma ChosenMovesOrStays(s: Scene, e: Eval)
    ensures var d := Chosen(s, e);
            && KeepsHome(d, s.task.domain, s.StayCpu()) && d.reason != IdleSpread && (d.reason.ExcludedDomainEscape? <==> s.Excluded())
            && (d.reason.Migrates() ==> d.domain == Some(e.domain) && d.cpu == Some(e.cpu))
  {
  }

  lemma PickOne(
    spread: Option<Decision>, early: bool, spent: bool, chosen: Option<Decision>, stay: Reason -> Decision, unkept: Decision,
    home: Option<nat>, cpu: Option<nat>)
    requires spread.Some? ==> spread.value.reason == IdleSpread && !spread.value.deferred
    requires chosen.Some? ==> KeepsHome(chosen.value, home, cpu) && chosen.value.reason != IdleSpread
    requires KeepsHome(unkept, home, cpu) && !unkept.reason.Relocates()
    requires forall r :: stay(r).reason == r && (!r.Relocates() ==> KeepsHome(stay(r), home, cpu))
    ensures var d := Pick(spread, early, spent, chosen, stay, unkept);
            && KeepsHome(d, home, cpu)
            && (d.reason == IdleSpread <==> spread.Some?) && (spread.Some? ==> d == spread.value)
            && (d.reason.Migrates() ==> !early && !spent && chosen == Some(d))
  {
  }

  /** The answers of `Decide`: a spread exactly for a young task with a target, a migration only from the best candidate. */
  lemma DecideOne(s: Scene)
    ensures var d := Decide(s);
            && KeepsHome(d, s.task.domain, s.StayCpu())
            && (d.reason == IdleSpread <==> Spread(s).Some?) && (Spread(s).Some? ==> d == Spread(s).value)
            && (d.reason.Migrates() ==> !StaysEarly(s) && !s.SourceBudgetSpent() && ChosenBest(s) == Some(d))
  {
    NothingKeptStays(s);
    if Best(s).Some? {
      ChosenMovesOrStays(s, Best(s).value);
    }
    PickOne(Spread(s), StaysEarly(s), s.SourceBudgetSpent(), ChosenBest(s), StayFor(s), NothingKept(s), s.task.domain, s.StayCpu());
  }

  lemma CoolerMoveIsBetter(s: Scene)
    requires s.topo.Consistent() && Decide(s).reason == MoveCoolerDomain
    ensures var d := Decide(s); d.domain.Some? && d.cpu.Some? && CoolerMove(s, d.domain.value, d.cpu.value)
  {
    DecideOne(s);
    var e := Best(s).value;
    ChosenMovesOrStays(s, e);
    BestIsKept(s);
    FinalBaselineAgrees(s);
    BetterSlots(e.cost, s.Baseline(e.domain));
  }

  function Excess(tasks: nat, cpus: nat): nat { if tasks <= cpus then 0 else tasks - cpus }

  /** The tasks of the source and of `d` that have no CPU of their own, when they hold the given populations. */
  function Crowding(s: Scene, sourceTasks: nat, d: nat, tasks: nat): nat
    requires s.task.domain.Some?
  {
    Excess(sourceTasks, |Filter(s.topo.CpusOf(s.task.domain.value), s.allowed)|) + Excess(tasks, |Filter(s.topo.CpusOf(d), s.allowed)|)
  }

  function Extra(c: Slots): nat { if c.Within? then 0 else c.extra }

  /** Combining the constraints of two domains adds up their excesses, as long as the sum fits in 32 bits. */
  lemma CombinedExcess(a: u32, p: nat, b: u32, q: nat)
    requires Excess(a, p) + Excess(b, q) <= U32_MAX
    ensures Extra(SlotsOf(a, p).Combine(SlotsOf(b, q))) == Excess(a, p) + Excess(b, q)
  {
  }

  /**
   * The slot constraints compared are the crowding before and after this one task has moved, so a cooler move
   * never adds to the number of tasks without a CPU of their own.
   */
  lemma CoolerMoveNeverCrowds(s: Scene, d: nat, cpu: nat)
    requires CoolerMove(s, d, cpu) && 0 < s.SourceTasks() && s.SourceTasks() + s.TasksOn(d) + 1 <= U32_MAX
    ensures Extra(s.Baseline(d).slots) == Crowding(s, s.SourceTasks(), d, s.TasksOn(d))
    ensures Extra(s.MoveCost(d, cpu).slots) == Crowding(s, s.SourceTasks() - 1, d, s.TasksOn(d) + 1)
    ensures Crowding(s, s.SourceTasks() - 1, d, s.TasksOn(d) + 1) <= Crowding(s, s.SourceTasks(), d, s.TasksOn(d))
  {
    PairsAreCrowding(s, s.SourceTasks(), d, s.TasksOn(d));
    PairsAreCrowding(s, s.SourceTasks() - 1, d, s.TasksOn(d) + 1);
    SlotsOfCosts(s, d, cpu);
    NotLessIsNoMore(s.Baseline(d).slots, s.MoveCost(d, cpu).slots);
  }

  lemma PairsAreCrowding(s: Scene, sourceTasks: u32, d: nat, tasks: u32)
    requires s.task.domain.Some? && sourceTasks + tasks <= U32_MAX
    ensures Extra(s.PairSlots(sourceTasks, d, tasks)) == Crowding(s, sourceTasks, d, tasks)
  {
    CombinedExcess(sourceTasks, |Filter(s.topo.CpusOf(s.task.domain.value), s.allowed)|, tasks, |Filter(s.topo.CpusOf(d), s.allowed)|);
  }

  lemma SlotsOfCosts(s: Scene, d: nat, cpu: nat)
    ensures s.Baseline(d).slots == s.PairSlots(s.SourceTasks(), d, s.TasksOn(d))
    ensures s.MoveCost(d, cpu).slots == s.PairSlots(SatSub(s.SourceTasks(), 1), d, SatAdd32(s.TasksOn(d), 1))
  {
  }

  lemma NotLessIsNoMore(base: Slots, move: Slots)
    requires !base.Less(move)
    ensures Extra(move) <= Extra(base)
  {
  }

  lemma BetterSlots(a: Cost, b: Cost)
    requires a.Better(b)
    ensures !b.slots.Less(a.slots)
  {
    SlotsLessIsRank(a.slots, b.slots);
    SlotsLessIsRank(b.slots, a.slots);
    LexTotal(a.slots.Rank(), b.slots.Rank());
  }

  /**
   * A cooler move has a cause. Without overload it relieves slots, or gives the task an idle CPU its own domain
   * cannot; with overload it relieves slots or improves some measure of pressure. Undoing a protected migration
   * needs a source that is overloaded right now.
   */
  lemma CoolerMoveHasCause(s: Scene, d: nat, cpu: nat)
    requires CoolerMove(s, d, cpu)
    ensures var move, base := s.MoveCost(d, cpu), s.Baseline(d);
            && (base.overload == 0 && move.overload == 0 ==>
                  move.slots.Less(base.slots) || (s.cpus.Idle(cpu) && !s.StayIdle() && !s.SourceHasIdle()))
            && (base.overload > 0 || move.overload > 0 ==>
                  || move.slots.Less(base.slots) || move.overload < base.overload || move.maxOverload < base.maxOverload
                  || move.pairPenalty < base.pairPenalty || move.pressure < base.pressure)
            && (s.Reverses(d) ==> s.SourceLive() > s.SourceCapacity())
  {
    var move, base := s.MoveCost(d, cpu), s.Baseline(d);
    CauseOf(s, base, move);
    CpuCostsAre(s, d, cpu);
    assert s.Reverses(d) ==> s.ReverseMayYield(base, move);
  }

  lemma CpuCostsAre(s: Scene, d: nat, cpu: nat)
    ensures s.MoveCost(d, cpu).cpuCost == CpuCost(s.cpus.Idle(cpu)) && s.Baseline(d).cpuCost == CpuCost(s.StayIdle())
  {
  }

  lemma CauseOf(s: Scene, base: Cost, move: Cost)
    requires move.Better(base) && !s.SoftOnly(base, move) && !s.CpuOnly(base, move)
    ensures base.overload == 0 && move.overload == 0 ==> move.slots.Less(base.slots) || (move.cpuCost < base.cpuCost && !s.SourceHasIdle())
    ensures base.overload > 0 || move.overload > 0 ==>
              || move.slots.Less(base.slots) || move.overload < base.overload || move.maxOverload < base.maxOverload
              || move.pairPenalty < base.pairPenalty || move.pressure < base.pressure
  {
    if !move.slots.Less(base.slots) {
      SofterIsCheaper(move, base);
    }
  }

  lemma SofterIsCheaper(move: Cost, base: Cost)
    requires move.Better(base) && !move.slots.Less(base.slots)
    ensures move.cpuCost < base.cpuCost || move.pressure < base.pressure
  {
  }

  /** Every move names a CPU the task may use, inside the selected eligible domain. */
  lemma MovesAreLegal(s: Scene)
    requires s.topo.Consistent() && Decide(s).reason.Relocates()
    ensures var d := Decide(s);
            && d.domain.Some? && d.cpu.Some? && d.domain.value in s.mapping.eligibleDomains
            && Legal(s.topo, d.cpu.value, d.domain.value, s.allowed)
            && (d.reason != IdleSpread ==> d.cpu.value in s.mapping.eligibleCpus)
            && (d.reason == ExcludedDomainEscape <==> d.reason != IdleSpread && s.Excluded())
  {
    DecideOne(s);
    if Decide(s).reason == IdleSpread {
      SpreadIsIdle(s);
    } else {
      ChosenMovesOrStays(s, Best(s).value);
      BestIsKept(s);
    }
  }

  /** Staying keeps the domain, on a CPU the task may use there whenever there is one. */
  lemma StaysAreLegal(s: Scene)
    requires s.topo.Consistent() && !Decide(s).reason.Relocates()
    ensures Decide(s).domain == s.task.domain
    ensures s.task.domain.Some? && (exists c :: Legal(s.topo, c, s.task.domain.value, s.allowed)) ==>
              Decide(s).cpu.Some? && Legal(s.topo, Decide(s).cpu.value, s.task.domain.value, s.allowed)
  {
    DecideOne(s);
    if s.task.domain.Some? {
      ChooseInDomainIsLegal(s.cpus, s.topo, s.task.View(), s.task.domain.value, s.allowed, s.mapping.eligibleCpus,
                            !s.Excluded() && s.task.trigger.IsTick(), AsCurrent);
    }
  }

  /** The second "not better" answer is never given: once a candidate is chosen, the task moves or only the margin keeps it. */
  lemma ChosenMovesOrMissesMargin(s: Scene)
    requires s.topo.Consistent() && Best(s).Some? && !s.Excluded()
    ensures var e, d := Best(s).value, Chosen(s, Best(s).value);
            var margin := EffectiveMargin(s.SourceLive(), s.cfg.migrateMargin, s.SourceCapacity());
            && (d.reason == MoveCoolerDomain || d.reason == MarginNotMet)
            && (d.reason == MoveCoolerDomain <==> e.cost.ClearsMargin(s.Baseline(e.domain), margin))
  {
    FinalBaselineAgrees(s);
  }
}
