/** What a placement decision reads, and how it prices staying and moving. */
module PlacementScene {
  import opened Arithmetic
  import opened Machine
  import opened Samples
  import opened CpuSelect
  import opened HostMapping
  import opened PlacementCost

  const SPREAD_ENQUEUE_LIMIT: u64 := 4
  const STABLE_SAMPLES: u32 := 2

  datatype Trigger = Enqueue | Tick | VillainReslice | Helper {
    predicate IsTick() { Tick? || VillainReslice? }
  }

  datatype Queued = Queued(
    tid: nat, cpu: Option<nat>, domain: Option<nat>, trigger: Trigger, enqueues: u64, l2: u32, tickSeq: nat)
  {
    function View(): TaskView { TaskView(tid, cpu, domain, trigger.IsTick()) }
  }

  /** The state kept for a managed thread that placement reads. */
  datatype Meta = Meta(
    settleUntil: u64, reverseProtectUntil: u64, lastFrom: Option<nat>, lastTo: Option<nat>, samples: u32)

  datatype LlcState = LlcState(sampleTs: u64, valid: bool, pressure: u32)

  datatype DomainPlan = DomainPlan(
    tasks: u32, contributors: u32, df: u32, llc: u32, incoming: u32, outgoing: u32, budget: u32)

  /** The pressure a thread brings to a domain of a given capacity. */
  datatype Effect = Effect(df: u32, llc: u32, valid: bool)

  // ----- arithmetic of costs -----

  function Overload(df: u32, capacity: u32): u32 { SatSub(df, capacity) }

  function BalancePenalty(signature: u32): u64 {
    var over := SatSub(signature, BALANCE_DEADBAND);
    SatMul64(over, over)
  }

  function PairPenalty(source: u32, destination: u32): u64 {
    SatAdd64(BalancePenalty(source), BalancePenalty(destination))
  }

  function OverloadCost(total: u32, max: u32): u64 { SatAdd64(SatMul64(total, total), SatMul64(max, max)) }

  function BalanceWeight(live: u32, capacity: u32): u32 {
    var cap := Max(capacity, 1);
    Min(Min(live, cap) * 10_000 / cap, U32_MAX)
  }

  function PressureCost(total: u32, max: u32, pair: u64, live: u32, capacity: u32): u64 {
    SatAdd64(OverloadCost(total, max), SatMul64(pair, BalanceWeight(live, capacity)) / 10_000)
  }

  /** The configured margin, shrunk in proportion as the source fills up. */
  function EffectiveMargin(live: u32, margin: u32, capacity: u32): u32 {
    var cap := Max(capacity, 1);
    if margin == 0 then 0 else
      var left: nat := SatSub(cap, Min(live, cap));
      MulKeepsOrder(0, margin, left);
      DivisionIsGreatest(margin * left, 0, cap);
      Min(margin * left / cap, U32_MAX)
  }

  function CpuCost(idle: bool): u64 { if idle then 0 else PRESSURE_COST_UNIT }

  /** The cost of a source and a destination carrying the given live traffic. */
  function CostOf(source: u32, sourceCap: u32, dest: u32, destCap: u32, pair: u64, live: u32, weighCap: u32, slots: Slots, idle: bool): Cost {
    var a, b := Overload(source, sourceCap), Overload(dest, destCap);
    var total, max := SatAdd32(a, b), Max(a, b);
    Cost(total, max, pair, PressureCost(total, max, pair, live, weighCap), slots, CpuCost(idle))
  }

  // ----- the scene -----

  datatype Scene = Scene(
    task: Queued, meta: Option<Meta>, topo: Topology, mapping: Mapping, planned: seq<DomainPlan>,
    llc: seq<Option<LlcState>>, df: seq<Option<DfState>>, cpus: CpuView, allowed: set<nat>, now: u64, cfg: Policy,
    effect: u32 -> Effect)
  {
    function AllowedEligible(): set<nat> { allowed * mapping.eligibleCpus }

    predicate Excluded() { task.domain.None? || task.domain.value in mapping.excludedDomains }

    function Capacity(d: nat): u32 { mapping.DfCapacity(d) }

    function SourceCapacity(): u32 { if task.domain.Some? then Capacity(task.domain.value) else mapping.MaxDfCapacity() }

    function SourceEffect(): Effect { effect(SourceCapacity()) }

    function UsableDf(d: nat): Option<DfState> { LiveSample(df, d, now, cfg) }

    function UsableLlc(d: nat): Option<LlcState> {
      var s := Lookup(llc, d);
      if s.Some? && s.value.valid && !IsStale(s.value.sampleTs, now, cfg.llcStaleMs) then s else None
    }

    /** Traffic of a domain by its live sample, 0 without one. */
    function LiveDf(d: nat): u32 { if UsableDf(d).Some? then LinkBandwidth(UsableDf(d).value) else 0 }

    function LiveLlc(d: nat): u32 { if UsableLlc(d).Some? then UsableLlc(d).value.pressure else 0 }

    function SourceLive(): u32 { if task.domain.Some? then LiveDf(task.domain.value) else 0 }

    function Plan(d: Option<nat>): Option<DomainPlan> {
      if d.Some? && d.value < |planned| then Some(planned[d.value]) else None
    }

    function TasksOn(d: nat): u32 { if Plan(Some(d)).Some? then Plan(Some(d)).value.tasks else 0 }

    function SourceTasks(): u32 { if task.domain.Some? then TasksOn(task.domain.value) else 0 }

    function SignatureDf(d: nat): u32 { if Plan(Some(d)).Some? then Plan(Some(d)).value.df else 0 }

    /** What the planned contributors of the source sum to, or the thread's own effect when there are none. */
    function SourceSignature(): u32 {
      var p := Plan(task.domain);
      if p.Some? && p.value.contributors > 0 then p.value.df
      else if SourceEffect().valid then SourceEffect().df else 0
    }

    function LlcOn(d: nat): u32 {
      var p := Plan(Some(d));
      if p.Some? && p.value.contributors > 0 then p.value.llc else LiveLlc(d)
    }

    function PredictedSignature(): u32 { SatSub(SourceSignature(), SourceEffect().df) }

    function PredictedLive(): u32 { SatSub(SourceLive(), SourceEffect().df) }

    predicate SourceBudgetSpent() {
      !Excluded() && Plan(task.domain).Some? && Plan(task.domain).value.outgoing >= Plan(task.domain).value.budget
    }

    predicate BudgetSpent(d: nat) { Plan(Some(d)).Some? && Plan(Some(d)).value.incoming >= Plan(Some(d)).value.budget }

    // ----- staying -----

    function StayCpu(): Option<nat> {
      (if task.domain.Some?
       then ChooseInDomain(cpus, topo, task.View(), task.domain.value, allowed, mapping.eligibleCpus,
                           !Excluded() && task.trigger.IsTick(), AsCurrent)
       else None)
      .Or(task.cpu)
    }

    predicate StayIdle() { StayCpu().Some? && cpus.Idle(StayCpu().value) }

    predicate SourceHasIdle() {
      task.domain.Some? && exists c :: c in topo.CpusOf(task.domain.value) && c in allowed && cpus.Idle(c)
    }

    predicate CurrentUnavailable() {
      task.domain.Some? && CurrentAcceptableIn(cpus, topo, task.View(), task.domain.value, allowed).None?
    }

    predicate PromisedToOthers(cpu: nat) {
      cpu < |cpus.planned| && exists j :: j in cpus.planned[cpu] && j != task.tid
    }

    predicate SourceIsPromised() {
      task.domain.Some? && exists c :: c in topo.CpusOf(task.domain.value) && c in allowed && PromisedToOthers(c)
    }

    /** A better CPU can only be had in another domain. */
    predicate NeedsOtherDomain() { !SourceHasIdle() && (CurrentUnavailable() || SourceIsPromised()) }

    // ----- slots -----

    function SlotsFor(d: nat, tasks: u32): Slots { SlotsOf(tasks, |Filter(topo.CpusOf(d), allowed)|) }

    function PairSlots(sourceTasks: u32, d: nat, tasks: u32): Slots {
      (if task.domain.Some? then SlotsFor(task.domain.value, sourceTasks) else Within).Combine(SlotsFor(d, tasks))
    }

    // ----- moving to a domain -----

    function WeighCapacity(d: nat): u32 { if Excluded() then Capacity(d) else SourceCapacity() }

    /** What staying costs, seen from the pair of the source and `d`. */
    function Baseline(d: nat): Cost {
      var pair := if Excluded() then BalancePenalty(SignatureDf(d)) else PairPenalty(SourceSignature(), SignatureDf(d));
      CostOf(SourceLive(), SourceCapacity(), LiveDf(d), Capacity(d), pair, SourceLive(), WeighCapacity(d),
             PairSlots(SourceTasks(), d, TasksOn(d)), StayIdle())
    }

    /** What moving to `cpu` of `d` is predicted to cost. */
    function MoveCost(d: nat, cpu: nat): Cost {
      var df := effect(Capacity(d)).df;
      var there := SatAdd32(SignatureDf(d), df);
      var pair := if Excluded() then BalancePenalty(there) else PairPenalty(PredictedSignature(), there);
      CostOf(PredictedLive(), SourceCapacity(), SatAdd32(LiveDf(d), df), Capacity(d), pair, SourceLive(), WeighCapacity(d),
             PairSlots(SatSub(SourceTasks(), 1), d, SatAdd32(TasksOn(d), 1)), cpus.Idle(cpu))
    }

    // ----- guards -----

    /** The move undoes the last migration while that one is still protected. */
    predicate Reverses(d: nat) {
      && meta.Some? && now < meta.value.reverseProtectUntil
      && task.domain == meta.value.lastTo && meta.value.lastFrom == Some(d)
    }

    predicate ReverseMayYield(baseline: Cost, move: Cost) {
      SourceLive() > SourceCapacity() && (PredictedLive() <= SourceCapacity() || move.overload < baseline.overload)
    }

    /** Nothing is overloaded, slots do not improve, and the CPU either does not or could within the domain. */
    predicate SoftOnly(baseline: Cost, move: Cost) {
      && baseline.overload == 0 && move.overload == 0 && !move.slots.Less(baseline.slots)
      && (move.cpuCost >= baseline.cpuCost || !NeedsOtherDomain())
    }

    /** Something is overloaded and only the CPU improves. */
    predicate CpuOnly(baseline: Cost, move: Cost) {
      && (baseline.overload > 0 || move.overload > 0) && move.cpuCost < baseline.cpuCost
      && !move.slots.Less(baseline.slots)
      && move.overload >= baseline.overload && move.maxOverload >= baseline.maxOverload
      && move.pairPenalty >= baseline.pairPenalty && move.pressure >= baseline.pressure
    }

    predicate PhaseAllows(d: nat) {
      || Overload(SourceLive(), SourceCapacity()) > 0 || cfg.tickMovePhaseMod <= 1 || !task.trigger.IsTick()
      || ((task.tickSeq + task.tid + task.domain.GetOr(0) * 3 + d * 5) % 0x1_0000_0000) % cfg.tickMovePhaseMod == 0
    }

    predicate Young() {
      && (task.trigger.Enqueue? || task.trigger.Helper?) && task.enqueues <= SPREAD_ENQUEUE_LIMIT
      && (meta.None? || meta.value.samples < STABLE_SAMPLES)
    }

    predicate Settling() { now < (if meta.Some? then meta.value.settleUntil else 0) }
  }
}
