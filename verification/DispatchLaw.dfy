/** What becomes of every task of a batch, and what the ledger and the CPU states record of it. */
module DispatchLaw {
  import opened Machine
  import opened Samples
  import opened CpuSelect
  import opened CpuLaw
  import opened HostMapping
  import opened Ledger
  import opened PlacementCost
  import opened PlacementScene
  import opened Placement
  import opened PlacementLaw
  import opened PlannedDecision
  import opened MigrationLedger
  import opened Dispatch

  // ----- what becomes of a task -----

  /** A task without affinity is dropped; a throttled one is held; of the others the kernel's answer decides. */
  lemma OutcomeOf(env: Env, b: Batch, a: Arrival)
    requires env.topo.Consistent()
    ensures var o := Handle(env, b, a).outcome;
            && (o.Ignored? <==> a.task.tid !in env.allowed)
            && (o.Held? <==> a.task.tid in env.allowed && a.control.DeferIt?)
            && (o.Refused? <==> a.task.tid in env.allowed && !a.control.DeferIt? && !a.accepted)
            && (o.Sent? <==> a.task.tid in env.allowed && !a.control.DeferIt? && a.accepted)
  {
    FinalIsConsiderate(env, SceneOf(env, b, a), a.control);
  }

  /** Only what is sent changes the reservations and the CPU states. */
  lemma UnsentChangesNothing(env: Env, b: Batch, a: Arrival)
    ensures var h := Handle(env, b, a);
            !h.outcome.Sent? ==>
              h.batch.book == b.book && h.batch.planned == b.planned && h.batch.domainOf == b.domainOf && h.batch.cpuStates == b.cpuStates
  {
  }

  /** The CPU a task is sent to: the decision's, or else the one it is on. */
  function CpuOf(o: Outcome, task: Queued): Option<nat> { if o.Sent? then o.d.cpu.Or(task.cpu) else None }

  lemma HandleRecords(env: Env, b: Batch, a: Arrival)
    ensures var h := Handle(env, b, a);
            var cpu := CpuOf(h.outcome, a.task);
            && (cpu.None? ==> h.batch.book.cpuOf == b.book.cpuOf && h.batch.cpuStates == b.cpuStates)
            && (cpu.Some? ==> h.batch.book.cpuOf == b.book.cpuOf[a.task.tid := cpu.value])
            && (cpu.Some? && cpu.value < |b.cpuStates| ==>
                  h.batch.cpuStates == b.cpuStates[cpu.value := CpuState(false, SatAdd32(b.cpuStates[cpu.value].depth, 1), a.task.tid)])
            && |h.batch.cpuStates| == |b.cpuStates|
            && forall c :: 0 <= c < |b.cpuStates| && cpu != Some(c) ==> h.batch.cpuStates[c] == b.cpuStates[c]
  {
    var s := SceneOf(env, b, a);
    CarryRecords(env, b, a, Final(env, s, a.control));
  }

  lemma CarryRecords(env: Env, b: Batch, a: Arrival, d: Decision)
    ensures var h := Carry(env, b, a, d);
            var cpu := CpuOf(h.outcome, a.task);
            && (cpu.None? ==> h.batch.book.cpuOf == b.book.cpuOf && h.batch.cpuStates == b.cpuStates)
            && (cpu.Some? ==> h.batch.book.cpuOf == b.book.cpuOf[a.task.tid := cpu.value])
            && (cpu.Some? && cpu.value < |b.cpuStates| ==>
                  h.batch.cpuStates == b.cpuStates[cpu.value := CpuState(false, SatAdd32(b.cpuStates[cpu.value].depth, 1), a.task.tid)])
            && |h.batch.cpuStates| == |b.cpuStates|
            && forall c :: 0 <= c < |b.cpuStates| && cpu != Some(c) ==> h.batch.cpuStates[c] == b.cpuStates[c]
  {
  }

  // ----- whole batches -----

  /** The CPU that thread `t` was last sent to among the first `k` tasks. */
  ghost function LastSent(env: Env, b: Batch, arrivals: seq<Arrival>, k: nat, t: nat): Option<nat>
    requires k <= |arrivals|
  {
    if k == 0 then None else
      var a := arrivals[k - 1];
      var cpu := CpuOf(OutcomeAt(env, b, arrivals, k - 1), a.task);
      if a.task.tid == t && cpu.Some? then cpu else LastSent(env, b, arrivals, k - 1, t)
  }

  /** The entry of a thread in the map from thread to CPU. */
  function Entry(book: Book, t: nat): Option<nat> { if t in book.cpuOf then Some(book.cpuOf[t]) else None }

  /** One task moves the entry of its own thread only, and only to where it is sent. */
  lemma EntryFollows(env: Env, b: Batch, a: Arrival, t: nat)
    ensures var h := Handle(env, b, a);
            Entry(h.batch.book, t) == if a.task.tid == t && CpuOf(h.outcome, a.task).Some? then CpuOf(h.outcome, a.task) else Entry(b.book, t)
  {
    HandleRecords(env, b, a);
  }

  /** After any part of a batch, the ledger sends a thread where it was last sent, and a thread not sent where it was at the start. */
  lemma {:induction false} LedgerFollowsSent(env: Env, b: Batch, arrivals: seq<Arrival>, k: nat, t: nat)
    requires k <= |arrivals|
    ensures Entry(BatchAt(env, b, arrivals, k).book, t) == LastSent(env, b, arrivals, k, t).Or(Entry(b.book, t))
  {
    if k > 0 {
      LedgerFollowsSent(env, b, arrivals, k - 1, t);
      EntryFollows(env, BatchAt(env, b, arrivals, k - 1), arrivals[k - 1], t);
    }
  }

  /** And the job list of a CPU holds exactly the threads the ledger sends there, so the next task sees every promise. */
  lemma JobsFollowSent(env: Env, b: Batch, arrivals: seq<Arrival>, k: nat, t: nat, cpu: nat)
    requires Agrees(b.book) && k <= |arrivals| && cpu < |BatchAt(env, b, arrivals, k).book.jobs|
    ensures t in BatchAt(env, b, arrivals, k).book.jobs[cpu] <==> LastSent(env, b, arrivals, k, t).Or(Entry(b.book, t)) == Some(cpu)
  {
    BatchKeepsLedger(env, b, arrivals, k);
    LedgerFollowsSent(env, b, arrivals, k, t);
  }

  /** How many of the first `k` tasks were sent to the CPU, and the thread of the last of them. */
  ghost function SentTo(env: Env, b: Batch, arrivals: seq<Arrival>, k: nat, cpu: nat): nat
    requires k <= |arrivals|
  {
    if k == 0 then 0
    else SentTo(env, b, arrivals, k - 1, cpu) + (if CpuOf(OutcomeAt(env, b, arrivals, k - 1), arrivals[k - 1].task) == Some(cpu) then 1 else 0)
  }

  ghost function LastOn(env: Env, b: Batch, arrivals: seq<Arrival>, k: nat, cpu: nat): Option<nat>
    requires k <= |arrivals|
  {
    if k == 0 then None
    else if CpuOf(OutcomeAt(env, b, arrivals, k - 1), arrivals[k - 1].task) == Some(cpu) then Some(arrivals[k - 1].task.tid)
    else LastOn(env, b, arrivals, k - 1, cpu)
  }

  /** A CPU state that tells of `n` tasks sent since `was`, the last of them of thread `last`. */
  ghost predicate Tells(now: CpuState, was: CpuState, n: nat, last: Option<nat>) {
    && now.depth == Min(was.depth + n, U32_MAX)
    && (if last.None? then now == was && n == 0 else !now.idle && now.currentTid == last.value)
  }

  lemma StateFollows(env: Env, b: Batch, a: Arrival, cpu: nat, was: CpuState, n: nat, last: Option<nat>)
    requires cpu < |b.cpuStates| && Tells(b.cpuStates[cpu], was, n, last)
    ensures var h := Handle(env, b, a);
            var here := CpuOf(h.outcome, a.task) == Some(cpu);
            && |h.batch.cpuStates| == |b.cpuStates|
            && Tells(h.batch.cpuStates[cpu], was, if here then n + 1 else n, if here then Some(a.task.tid) else last)
  {
    HandleRecords(env, b, a);
  }

  /** A CPU is as busy as it was plus the tasks sent to it, and runs the last of them. */
  lemma {:induction false} CpuStatesFollowSent(env: Env, b: Batch, arrivals: seq<Arrival>, k: nat, cpu: nat)
    requires k <= |arrivals| && cpu < |b.cpuStates|
    ensures |BatchAt(env, b, arrivals, k).cpuStates| == |b.cpuStates|
    ensures Tells(BatchAt(env, b, arrivals, k).cpuStates[cpu], b.cpuStates[cpu], SentTo(env, b, arrivals, k, cpu), LastOn(env, b, arrivals, k, cpu))
  {
    if k > 0 {
      CpuStatesFollowSent(env, b, arrivals, k - 1, cpu);
      StateFollows(env, BatchAt(env, b, arrivals, k - 1), arrivals[k - 1], cpu, b.cpuStates[cpu],
                   SentTo(env, b, arrivals, k - 1, cpu), LastOn(env, b, arrivals, k - 1, cpu));
    }
  }

  // ----- where a task is sent -----

  /** The plan may be followed for the task of the scene: its entry is current, legal, out of the settle window and within budget. */
  ghost predicate Followable(s: Scene, plan: PlacementPlan, latestEpoch: u64) {
    && latestEpoch <= plan.epoch + 1 && s.task.tid in plan.entries
    && var d := plan.entries[s.task.tid].domain;
       && (exists c :: Legal(s.topo, c, d, s.allowed))
       && (s.task.domain != Some(d) ==>
             && d in s.mapping.eligibleDomains && MayEnter(s, d)
             && (!s.Excluded() ==> (s.meta.None? || s.meta.value.settleUntil <= s.now) && !GoesBack(s, d) && MayLeave(s)))
  }

  lemma LegalDomainsAre(s: Scene, d: nat)
    requires s.topo.Consistent()
    ensures d in LegalDomains(s) <==> d in s.mapping.eligibleDomains && exists c :: Legal(s.topo, c, d, s.allowed)
  {
    forall c | c in s.allowed && s.topo.DomainOf(c) == Some(d) ensures Legal(s.topo, c, d, s.allowed) {
    }
    if d in s.mapping.eligibleDomains && exists c :: Legal(s.topo, c, d, s.allowed) {
      var c :| Legal(s.topo, c, d, s.allowed);
      assert c in s.allowed && s.topo.DomainOf(c).Some?;
    }
  }

  lemma PlannedCpuExists(s: Scene, e: PlannedDecision.Entry)
    requires s.topo.Consistent()
    ensures PlannedCpu(s, e).Some? <==> exists c :: Legal(s.topo, c, e.domain, s.allowed)
  {
    ChooseInDomainIsLegal(s.cpus, s.topo, s.task.View(), e.domain, s.allowed, s.mapping.eligibleCpus,
                          s.task.domain == Some(e.domain) && e.domain !in s.mapping.excludedDomains && s.task.trigger.IsTick(), AsPlanned);
    EntryCpuIsLegal(s, e);
  }

  lemma NoObjectionWhen(s: Scene, d: nat)
    requires s.topo.Consistent() && exists c :: Legal(s.topo, c, d, s.allowed)
    ensures Objection(s, d).None? <==>
            (s.task.domain != Some(d) ==>
               && d in s.mapping.eligibleDomains && MayEnter(s, d)
               && (!s.Excluded() ==> (s.meta.None? || s.meta.value.settleUntil <= s.now) && !GoesBack(s, d) && MayLeave(s)))
  {
    LegalDomainsAre(s, d);
    LimitsAre(s, d);
  }

  /** The plan is followed exactly when it may be, to the planned domain, and to the planned CPU if that is one to use there. */
  lemma PlanIsFollowed(s: Scene, plan: PlacementPlan, latestEpoch: u64)
    requires s.topo.Consistent()
    ensures Planned(s, plan, latestEpoch).Ok? <==> Followable(s, plan, latestEpoch)
    ensures Followable(s, plan, latestEpoch) ==>
              var d, e := Planned(s, plan, latestEpoch).value, plan.entries[s.task.tid];
              && d.domain == Some(e.domain)
              && (e.cpu.Some? && e.cpu.value in TargetCpus(s.topo, s.allowed, s.mapping.eligibleCpus, e.domain) ==> d.cpu == e.cpu)
              && d.reason == (if s.task.domain == Some(e.domain) then StayCurrentDomain
                              else if s.Excluded() then ExcludedDomainEscape else MoveCoolerDomain)
  {
    if s.task.tid in plan.entries {
      var e := plan.entries[s.task.tid];
      PlannedCpuExists(s, e);
      if PlannedCpu(s, e).Some? {
        NoObjectionWhen(s, e.domain);
        FollowedAs(s, e.domain, PlannedCpu(s, e).value);
      }
    }
  }

  lemma FollowedAs(s: Scene, d: nat, cpu: nat)
    ensures var f := Followed(s, d, cpu);
            && f.domain == Some(d) && f.cpu == Some(cpu)
            && f.reason == (if s.task.domain == Some(d) then StayCurrentDomain
                            else if s.Excluded() then ExcludedDomainEscape else MoveCoolerDomain)
  {
  }

  /** What is sent goes where the plan says if it may be followed, and where the fallback policy says otherwise. */
  lemma SentAsDecided(env: Env, b: Batch, a: Arrival)
    requires env.topo.Consistent() && Handle(env, b, a).outcome.Sent?
    ensures var s, d := SceneOf(env, b, a), Handle(env, b, a).outcome.d;
            if env.plan.Some? && Followable(s, env.plan.value, env.latestEpoch)
            then d.domain == Some(env.plan.value.entries[a.task.tid].domain)
            else d.domain == Decide(s).domain && d.reason == Decide(s).reason
  {
    var s := SceneOf(env, b, a);
    if env.plan.Some? {
      PlanIsFollowed(s, env.plan.value, env.latestEpoch);
    }
    FinalIsConsiderate(env, s, a.control);
  }

  /** A throttled task that is sent gets the slice the throttle gives it. */
  lemma ResliceIsGiven(env: Env, b: Batch, a: Arrival)
    requires Handle(env, b, a).outcome.Sent? && a.control.ResliceIt?
    ensures Handle(env, b, a).outcome.d.slice == a.control.slice && Handle(env, b, a).outcome.d.tick == Reslices
  {
    RevalidationIsIdle(env, SceneOf(env, b, a), a.control);
  }

  /** The CPU promised to the thread: by the plan if it names one, and else by the burst. */
  ghost predicate PromisedTo(env: Env, tid: nat, cpu: nat) {
    if env.plan.Some? && tid in env.plan.value.entries && env.plan.value.entries[tid].cpu.Some?
    then env.plan.value.entries[tid].cpu == Some(cpu)
    else tid in env.targets && env.targets[tid] == cpu
  }

  /** The promised CPU can be used in the domain: legal, lightly used, not taken, and promised to nobody else by now. */
  ghost predicate StillGood(s: Scene, cpu: nat, d: nat) {
    && cpu <= I32_MAX && Legal(s.topo, cpu, d, s.allowed) && s.cpus.Util(cpu) < s.cpus.highUtil
    && s.cpus.State(cpu).currentTid in {0, s.task.tid} && Unpromised(s.cpus, cpu, s.task.tid)
  }

  lemma PromiseIsPreferred(env: Env, s: Scene, d: Decision, cpu: nat)
    requires s.topo.Consistent() && !d.deferred && d.domain.Some?
    requires PromisedTo(env, s.task.tid, cpu) && StillGood(s, cpu, d.domain.value)
    ensures PromisedCpu(env, s, d) == Some(cpu)
  {
    ReservedIsUsed(s.cpus, s.topo, s.task.tid, cpu, d.domain.value, s.allowed, s.mapping.eligibleCpus);
  }

  /** A task sent to a domain in which its promised CPU can still be used runs there. */
  lemma PromiseIsKept(env: Env, b: Batch, a: Arrival, cpu: nat)
    requires env.topo.Consistent() && Handle(env, b, a).outcome.Sent? && Handle(env, b, a).outcome.d.domain.Some?
    requires PromisedTo(env, a.task.tid, cpu) && StillGood(SceneOf(env, b, a), cpu, Handle(env, b, a).outcome.d.domain.value)
    ensures Handle(env, b, a).outcome.d.cpu == Some(cpu)
  {
    var s := SceneOf(env, b, a);
    PromiseIsPreferred(env, s, Throttled(env, s, a.control), cpu);
  }

  // ----- the planned domains -----

  /** The domain that thread `t` last migrated to among the first `k` tasks. */
  ghost function LastMoved(env: Env, b: Batch, arrivals: seq<Arrival>, k: nat, t: nat): Option<nat>
    requires k <= |arrivals|
  {
    if k == 0 then None else
      var o, task := OutcomeAt(env, b, arrivals, k - 1), arrivals[k - 1].task;
      if task.tid == t && Dispatch.Moves(o, task) then o.d.domain else LastMoved(env, b, arrivals, k - 1, t)
  }

  function Home(domainOf: map<nat, nat>, t: nat): Option<nat> { if t in domainOf then Some(domainOf[t]) else None }

  lemma CarryMoves(env: Env, b: Batch, a: Arrival, d: Decision)
    ensures var h := Carry(env, b, a, d);
            h.batch.domainOf == if Dispatch.Moves(h.outcome, a.task) then b.domainOf[a.task.tid := h.outcome.d.domain.value] else b.domainOf
  {
  }

  lemma HandleMoves(env: Env, b: Batch, a: Arrival)
    ensures var h := Handle(env, b, a);
            h.batch.domainOf == if Dispatch.Moves(h.outcome, a.task) then b.domainOf[a.task.tid := h.outcome.d.domain.value] else b.domainOf
  {
    CarryMoves(env, b, a, Final(env, SceneOf(env, b, a), a.control));
  }

  /** After any part of a batch, a thread is planned where it last migrated to, and else where it was planned at the start. */
  lemma {:induction false} DomainsFollowMoves(env: Env, b: Batch, arrivals: seq<Arrival>, k: nat, t: nat)
    requires k <= |arrivals|
    ensures Home(BatchAt(env, b, arrivals, k).domainOf, t) == LastMoved(env, b, arrivals, k, t).Or(Home(b.domainOf, t))
  {
    if k > 0 {
      DomainsFollowMoves(env, b, arrivals, k - 1, t);
      HandleMoves(env, BatchAt(env, b, arrivals, k - 1), arrivals[k - 1]);
    }
  }
}
