/** One pass of the dispatch loop: decide, throttle, revalidate, send, and commit to the ledger. */
module Dispatch {
  import opened Machine
  import opened Samples
  import opened CpuSelect
  import opened HostMapping
  import opened Ledger
  import opened PlacementCost
  import opened PlacementScene
  import opened Placement
  import opened PlannedDecision
  import opened MigrationLedger

  /** What the villain throttle answers for a task. */
  datatype Control = Free | DeferIt | ResliceIt(slice: u64)

  /** What is fixed while a batch is dispatched. */
  datatype Env = Env(
    topo: Topology, mapping: Mapping, llc: seq<Option<LlcState>>, df: seq<Option<DfState>>, utils: seq<u32>, cfg: Policy,
    plan: Option<PlacementPlan>, latestEpoch: u64, allowed: map<nat, set<nat>>, targets: map<nat, nat>, effect: (Queued, u32) -> Effect)
  {
    /** The CPU promised to a thread before the loop: by the plan, or else by the burst reservations. */
    function Promised(tid: nat): Option<nat> {
      (if plan.Some? && tid in plan.value.entries then plan.value.entries[tid].cpu else None)
      .Or(if tid in targets then Some(targets[tid]) else None)
    }
  }

  datatype Batch = Batch(planned: seq<DomainPlan>, domainOf: map<nat, nat>, book: Book, cpuStates: seq<CpuState>, threads: map<nat, Meta>) {
    function MetaOf(tid: nat): Meta { if tid in threads then threads[tid] else Meta(0, 0, None, None, 0) }
  }

  /** A pending task, the clock when it is handled, the throttle's answer, and whether the kernel takes it. */
  datatype Arrival = Arrival(task: Queued, now: u64, control: Control, accepted: bool)

  datatype Outcome = Ignored | Refused | Held | Sent(d: Decision)

  function EffectOn(effect: (Queued, u32) -> Effect, task: Queued): u32 -> Effect { (capacity: u32) => effect(task, capacity) }

  function SceneOf(env: Env, b: Batch, a: Arrival): Scene {
    Scene(a.task, Some(b.MetaOf(a.task.tid)), env.topo, env.mapping, b.planned, env.llc, env.df,
          CpuView(b.cpuStates, env.utils, b.book.jobs, env.cfg.cpuHighUtil),
          if a.task.tid in env.allowed then env.allowed[a.task.tid] else {}, a.now, env.cfg, EffectOn(env.effect, a.task))
  }

  // ----- the decision of the loop -----

  datatype First = First(d: Decision, planUsed: bool)

  function FirstDecision(env: Env, s: Scene): First {
    if env.plan.Some? && Planned(s, env.plan.value, env.latestEpoch).Ok?
    then First(Planned(s, env.plan.value, env.latestEpoch).value, true)
    else First(Decide(s), false)
  }

  function Controlled(d: Decision, control: Control, task: Queued): Decision {
    match control
    case Free => d
    case DeferIt => d.(trigger := VillainReslice, tick := Defers, deferred := true, domain := task.domain, cpu := task.cpu)
    case ResliceIt(slice) => d.(trigger := VillainReslice, tick := Reslices, slice := slice)
  }

  predicate Crosses(task: Queued, d: Decision) {
    d.domain.Some? && d.domain != task.domain && d.reason.Migrates() && !d.deferred
  }

  /** A migration by the fallback policy is decided once more, and the new answer wins where they differ. */
  function Revalidated(d: Decision, planUsed: bool, again: Decision, task: Queued): Decision {
    if !planUsed && Crosses(task, d) && (!Crosses(task, again) || again.domain != d.domain || again.cpu != d.cpu) then again else d
  }

  function PromisedCpu(env: Env, s: Scene, d: Decision): Option<nat> {
    if d.deferred || d.domain.None? then None
    else PreferredIn(s.cpus, s.topo, s.task.tid, env.Promised(s.task.tid), d.domain.value, s.allowed, s.mapping.eligibleCpus)
  }

  function WithCpu(d: Decision, cpu: Option<nat>): Decision { if cpu.Some? then d.(cpu := cpu) else d }

  function Throttled(env: Env, s: Scene, control: Control): Decision {
    var first := FirstDecision(env, s);
    Revalidated(Controlled(first.d, control, s.task), first.planUsed, Decide(s), s.task)
  }

  function Final(env: Env, s: Scene, control: Control): Decision {
    var d := Throttled(env, s, control);
    WithCpu(d, PromisedCpu(env, s, d))
  }

  /** Deciding again changes nothing: neither answer of the throttle makes the two decisions differ on a migration. */
  lemma RevalidationIsIdle(env: Env, s: Scene, control: Control)
    ensures Throttled(env, s, control) == Controlled(FirstDecision(env, s).d, control, s.task)
  {
    RevalidatedSame(FirstDecision(env, s), control, Decide(s), s.task);
  }

  lemma RevalidatedSame(f: First, control: Control, again: Decision, task: Queued)
    requires !f.planUsed ==> f.d == again
    ensures Revalidated(Controlled(f.d, control, task), f.planUsed, again, task) == Controlled(f.d, control, task)
  {
  }

  // ----- the commit -----

  /** The end of a settle window, in the 64-bit sum the clock is kept in. */
  function WindowEnd(now: u64, settleMs: u64): u64 { (now + SatMul64(settleMs, 1_000_000)) % 0x1_0000_0000_0000_0000 }

  predicate Relocated(task: Queued, d: Decision) { task.domain.Some? && d.domain.Some? && task.domain != d.domain && !d.deferred }

  function Protected(m: Meta, a: Arrival, d: Decision, settleMs: u64): Meta {
    if !Relocated(a.task, d) then m else
      var until := WindowEnd(a.now, settleMs);
      m.(settleUntil := until, reverseProtectUntil := until, lastFrom := a.task.domain, lastTo := d.domain)
  }

  function CommitDomain(env: Env, b: Batch, task: Queued, d: Decision): Batch {
    if !Crosses(task, d) then b else
      var target, source := d.domain.value, SourceOf(b.domainOf, task);
      var leaving := env.effect(task, if source.Some? then env.mapping.DfCapacity(source.value) else 0);
      b.(planned := Moved(b.planned, b.domainOf, task, target, leaving, env.effect(task, env.mapping.DfCapacity(target))),
         domainOf := b.domainOf[task.tid := target])
  }

  function Running(states: seq<CpuState>, cpu: nat, tid: nat): seq<CpuState> {
    if cpu < |states| then states[cpu := CpuState(false, SatAdd32(states[cpu].depth, 1), tid)] else states
  }

  function CommitCpu(b: Batch, task: Queued, cpu: Option<nat>): Batch {
    if cpu.None? then b
    else b.(book := Assigned(b.book, Task(task.tid, task.cpu, task.domain, task.trigger.IsTick()), cpu.value),
            cpuStates := Running(b.cpuStates, cpu.value, task.tid))
  }

  function Committed(env: Env, b: Batch, a: Arrival, d: Decision): Batch {
    CommitCpu(CommitDomain(env, b, a.task, d), a.task, d.cpu.Or(a.task.cpu))
  }

  datatype Step = Step(batch: Batch, outcome: Outcome)

  /** Carry out a decision: unless the kernel refuses it, protect the thread, and commit what was not held back. */
  function Carry(env: Env, b: Batch, a: Arrival, d: Decision): Step {
    if !d.deferred && !a.accepted then Step(b, Refused) else
      var seen := b.(threads := b.threads[a.task.tid := Protected(b.MetaOf(a.task.tid), a, d, env.cfg.migrateSettleMs)]);
      if d.deferred then Step(seen, Held) else Step(Committed(env, seen, a, d), Sent(d))
  }

  /** Handle one task. */
  function Handle(env: Env, b: Batch, a: Arrival): Step {
    if a.task.tid !in env.allowed then Step(b, Ignored) else Carry(env, b, a, Final(env, SceneOf(env, b, a), a.control))
  }

  // ----- what is sent -----

  lemma FirstIsConsiderate(env: Env, s: Scene)
    requires s.topo.Consistent() && s.meta.Some?
    ensures Considerate(s, FirstDecision(env, s).d)
  {
    DecideIsConsiderate(s);
    if env.plan.Some? && Planned(s, env.plan.value, env.latestEpoch).Ok? {
      PlannedIsConsiderate(s, env.plan.value, env.latestEpoch);
    }
  }

  lemma StaysConsiderate(s: Scene, d: Decision, control: Control, cpu: Option<nat>)
    requires Considerate(s, d)
    ensures var f := WithCpu(Controlled(d, control, s.task), cpu);
            && (f.deferred <==> control.DeferIt?)
            && (!f.deferred ==> Considerate(s, f) && f.domain == d.domain && f.reason == d.reason)
  {
  }

  /** Whatever is sent was decided with consideration for the settle window and the budgets. */
  lemma FinalIsConsiderate(env: Env, s: Scene, control: Control)
    requires s.topo.Consistent() && s.meta.Some?
    ensures var d := Final(env, s, control); d.deferred <==> control.DeferIt?
    ensures var d := Final(env, s, control);
            !d.deferred ==> Considerate(s, d) && d.domain == FirstDecision(env, s).d.domain && d.reason == FirstDecision(env, s).d.reason
  {
    FirstIsConsiderate(env, s);
    RevalidationIsIdle(env, s, control);
    StaysConsiderate(s, FirstDecision(env, s).d, control, PromisedCpu(env, s, Throttled(env, s, control)));
  }

  /** A decision that relocates names a CPU of its domain that the task may use. */
  ghost predicate LegalMove(s: Scene, d: Decision) {
    d.reason.Relocates() ==> d.domain.Some? && d.cpu.Some? && Legal(s.topo, d.cpu.value, d.domain.value, s.allowed)
  }

  lemma FirstMovesLegally(env: Env, s: Scene)
    requires s.topo.Consistent() && s.meta.Some?
    ensures LegalMove(s, FirstDecision(env, s).d)
  {
    if env.plan.Some? && Planned(s, env.plan.value, env.latestEpoch).Ok? {
      PlannedIsConsiderate(s, env.plan.value, env.latestEpoch);
    } else if Decide(s).reason.Relocates() {
      MovesAreLegal(s);
    }
  }

  /** A relocation that is sent runs on a CPU the task may use, inside the selected domain, promised or not. */
  lemma SentMovesAreLegal(env: Env, s: Scene, control: Control)
    requires s.topo.Consistent() && s.meta.Some? && !control.DeferIt?
    ensures LegalMove(s, Final(env, s, control))
  {
    FirstMovesLegally(env, s);
    RevalidationIsIdle(env, s, control);
    var d := Throttled(env, s, control);
    ControlKeepsTarget(FirstDecision(env, s).d, control, s.task);
    if d.domain.Some? {
      PreferredIsLegal(s.cpus, s.topo, s.task.tid, env.Promised(s.task.tid), d.domain.value, s.allowed, s.mapping.eligibleCpus);
    }
  }

  lemma ControlKeepsTarget(d: Decision, control: Control, task: Queued)
    requires !control.DeferIt?
    ensures var c := Controlled(d, control, task); c.domain == d.domain && c.cpu == d.cpu && c.reason == d.reason && c.deferred == d.deferred
  {
  }

  // ----- the budgets of a batch -----

  /** The task runs in a planned domain that is in service. */
  predicate InService(env: Env, planned: nat, task: Queued) {
    task.domain.Some? && task.domain.value < planned && task.domain.value !in env.mapping.excludedDomains
  }

  ghost predicate Moves(o: Outcome, task: Queued) { o.Sent? && Crosses(task, o.d) }

  ghost predicate MovesInto(o: Outcome, task: Queued, d: nat) { Moves(o, task) && o.d.domain == Some(d) }

  ghost predicate MovesOutOf(o: Outcome, task: Queued, d: nat) { Moves(o, task) && task.domain == Some(d) }

  /** One more migration counted on each side, and nothing else counted. */
  ghost predicate Counts(before: DomainPlan, after: DomainPlan, enters: bool, leaves: bool) {
    && after.incoming == before.incoming + (if enters then 1 else 0)
    && after.outgoing == before.outgoing + (if leaves then 1 else 0)
    && after.budget == before.budget
  }

  lemma MovedCounts(planned: seq<DomainPlan>, domainOf: map<nat, nat>, task: Queued, target: nat, leaving: Effect, entering: Effect, d: nat)
    requires WithinBudgets(planned) && task.domain.Some? && task.domain.value < |planned| && task.domain != Some(target) && d < |planned|
    requires planned[task.domain.value].outgoing < planned[task.domain.value].budget
    requires target < |planned| ==> planned[target].incoming < planned[target].budget
    ensures var after := Moved(planned, domainOf, task, target, leaving, entering);
            WithinBudgets(after) && |after| == |planned| && Counts(planned[d], after[d], d == target, task.domain == Some(d))
  {
    MoveKeepsBudgets(planned, domainOf, task, target, leaving, entering);
  }

  lemma CommitCounts(env: Env, b: Batch, s: Scene, task: Queued, d: Decision, x: nat)
    requires WithinBudgets(b.planned) && InService(env, |b.planned|, task) && x < |b.planned|
    requires s.task == task && s.planned == b.planned && s.mapping == env.mapping && Considerate(s, d)
    ensures var after := CommitDomain(env, b, task, d);
            && WithinBudgets(after.planned) && |after.planned| == |b.planned|
            && Counts(b.planned[x], after.planned[x], Crosses(task, d) && d.domain == Some(x), Crosses(task, d) && task.domain == Some(x))
  {
    if Crosses(task, d) {
      var target, source := d.domain.value, SourceOf(b.domainOf, task);
      var leaving := env.effect(task, if source.Some? then env.mapping.DfCapacity(source.value) else 0);
      CoolerHasBudget(s, d);
      MovedCounts(b.planned, b.domainOf, task, target, leaving, env.effect(task, env.mapping.DfCapacity(target)), x);
    }
  }

  lemma CoolerHasBudget(s: Scene, d: Decision)
    requires Considerate(s, d) && d.reason.Migrates() && !s.Excluded() && d.domain.Some? && s.task.domain.value < |s.planned|
    ensures d.reason == MoveCoolerDomain
    ensures s.planned[s.task.domain.value].outgoing < s.planned[s.task.domain.value].budget
    ensures d.domain.value < |s.planned| ==> s.planned[d.domain.value].incoming < s.planned[d.domain.value].budget
  {
  }

  lemma CarryKeepsBudgets(env: Env, b: Batch, a: Arrival, s: Scene, d: Decision, x: nat)
    requires WithinBudgets(b.planned) && InService(env, |b.planned|, a.task) && x < |b.planned|
    requires s.task == a.task && s.planned == b.planned && s.mapping == env.mapping && (!d.deferred ==> Considerate(s, d))
    ensures var h := Carry(env, b, a, d);
            && WithinBudgets(h.batch.planned) && |h.batch.planned| == |b.planned|
            && Counts(b.planned[x], h.batch.planned[x], MovesInto(h.outcome, a.task, x), MovesOutOf(h.outcome, a.task, x))
  {
    if !d.deferred && a.accepted {
      var seen := b.(threads := b.threads[a.task.tid := Protected(b.MetaOf(a.task.tid), a, d, env.cfg.migrateSettleMs)]);
      CommitCounts(env, seen, s, a.task, d, x);
    }
  }

  /** Handling a task in service keeps the budgets and counts exactly the migration it sends. */
  lemma HandleKeepsBudgets(env: Env, b: Batch, a: Arrival, x: nat)
    requires env.topo.Consistent() && WithinBudgets(b.planned) && InService(env, |b.planned|, a.task) && x < |b.planned|
    ensures var h := Handle(env, b, a);
            && WithinBudgets(h.batch.planned) && |h.batch.planned| == |b.planned|
            && Counts(b.planned[x], h.batch.planned[x], MovesInto(h.outcome, a.task, x), MovesOutOf(h.outcome, a.task, x))
  {
    var s := SceneOf(env, b, a);
    FinalIsConsiderate(env, s, a.control);
    CarryKeepsBudgets(env, b, a, s, Final(env, s, a.control), x);
  }

  function BatchAt(env: Env, b: Batch, arrivals: seq<Arrival>, k: nat): Batch
    requires k <= |arrivals|
  {
    if k == 0 then b else Handle(env, BatchAt(env, b, arrivals, k - 1), arrivals[k - 1]).batch
  }

  function OutcomeAt(env: Env, b: Batch, arrivals: seq<Arrival>, k: nat): Outcome
    requires k < |arrivals|
  {
    Handle(env, BatchAt(env, b, arrivals, k), arrivals[k]).outcome
  }

  /** Migrations into and out of a domain among the first `k` tasks. */
  ghost function Entered(env: Env, b: Batch, arrivals: seq<Arrival>, k: nat, d: nat): nat
    requires k <= |arrivals|
  {
    if k == 0 then 0
    else Entered(env, b, arrivals, k - 1, d) + (if MovesInto(OutcomeAt(env, b, arrivals, k - 1), arrivals[k - 1].task, d) then 1 else 0)
  }

  ghost function Left(env: Env, b: Batch, arrivals: seq<Arrival>, k: nat, d: nat): nat
    requires k <= |arrivals|
  {
    if k == 0 then 0
    else Left(env, b, arrivals, k - 1, d) + (if MovesOutOf(OutcomeAt(env, b, arrivals, k - 1), arrivals[k - 1].task, d) then 1 else 0)
  }

  /**
   * In a batch whose tasks all start in domains in service, no domain is left or entered by more migrations than
   * its budget, however plan, fallback, throttle, refusals and revalidation interleave.
   */
  lemma {:induction false} BatchKeepsBudgets(env: Env, b: Batch, arrivals: seq<Arrival>, k: nat, d: nat)
    requires env.topo.Consistent() && Starts(b.planned) && k <= |arrivals| && d < |b.planned|
    requires forall i :: 0 <= i < |arrivals| ==> InService(env, |b.planned|, arrivals[i].task)
    ensures var p := BatchAt(env, b, arrivals, k).planned;
            && |p| == |b.planned| && WithinBudgets(p) && p[d].budget == b.planned[d].budget
            && p[d].incoming == Entered(env, b, arrivals, k, d) <= p[d].budget
            && p[d].outgoing == Left(env, b, arrivals, k, d) <= p[d].budget
  {
    BatchStartsWithinBudgets(b.planned);
    if k > 0 {
      BatchKeepsBudgets(env, b, arrivals, k - 1, d);
      HandleKeepsBudgets(env, BatchAt(env, b, arrivals, k - 1), arrivals[k - 1], d);
    }
  }

  /** The ledger of jobs per CPU stays in agreement with its map through the batch. */
  lemma {:induction false} BatchKeepsLedger(env: Env, b: Batch, arrivals: seq<Arrival>, k: nat)
    requires Agrees(b.book) && k <= |arrivals|
    ensures Agrees(BatchAt(env, b, arrivals, k).book)
  {
    if k > 0 {
      BatchKeepsLedger(env, b, arrivals, k - 1);
      HandleKeepsLedger(env, BatchAt(env, b, arrivals, k - 1), arrivals[k - 1]);
    }
  }

  lemma HandleKeepsLedger(env: Env, b: Batch, a: Arrival)
    requires Agrees(b.book)
    ensures Agrees(Handle(env, b, a).batch.book)
  {
    var d := Final(env, SceneOf(env, b, a), a.control);
    var cpu := d.cpu.Or(a.task.cpu);
    if cpu.Some? {
      AssignKeepsAgreement(b.book, Task(a.task.tid, a.task.cpu, a.task.domain, a.task.trigger.IsTick()), cpu.value);
    }
  }
}
