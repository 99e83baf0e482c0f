/** The dispatch loop over its mutable state: reservations, CPU states and thread records. */
module DispatchLoop {
  import opened Machine
  import opened CpuSelect
  import opened HostMapping
  import opened Ledger
  import opened BurstPlan
  import opened PlacementScene
  import opened Placement
  import opened PlacementScan
  import opened PlannedDecision
  import opened MigrationLedger
  import opened DomainSnapshot
  import opened Dispatch

  /** The plan's answer, or the fallback policy's. */
  method DecideFirst(env: Env, s: Scene) returns (d: Decision, planUsed: bool)
    ensures First(d, planUsed) == FirstDecision(env, s)
  {
    if env.plan.Some? {
      var r := Planned(s, env.plan.value, env.latestEpoch);
      if r.Ok? {
        return r.value, true;
      }
    }
    d := ChoosePlacement(s);
    planUsed := false;
  }

  /** Decide, throttle, decide a fallback migration again, and prefer the promised CPU. */
  method DecideFinal(env: Env, s: Scene, control: Control) returns (d: Decision)
    ensures d == Final(env, s, control)
  {
    var planUsed;
    d, planUsed := DecideFirst(env, s);
    d := Controlled(d, control, s.task);
    if !planUsed && Crosses(s.task, d) {
      var again := ChoosePlacement(s);
      if !Crosses(s.task, again) || again.domain != d.domain || again.cpu != d.cpu {
        d := again;
      }
    }
    d := WithCpu(d, PromisedCpu(env, s, d));
  }

  class Dispatcher {
    const domains: DomainStates
    const cpus: Reservations
    var cpuStates: seq<CpuState>
    var threads: map<nat, Meta>

    constructor (domains: DomainStates, cpus: Reservations, cpuStates: seq<CpuState>, threads: map<nat, Meta>)
      requires cpus.Valid()
      ensures Valid() && this.domains == domains && this.cpus == cpus
      ensures Value() == Batch(domains.states, domains.domainByTid, cpus.Value(), cpuStates, threads)
    {
      this.domains, this.cpus, this.cpuStates, this.threads := domains, cpus, cpuStates, threads;
    }

    ghost predicate Valid()
      reads this, cpus
    {
      cpus.Valid()
    }

    ghost function Value(): Batch
      reads this, domains, cpus
    {
      Batch(domains.states, domains.domainByTid, cpus.Value(), cpuStates, threads)
    }

    method CommitDomainDecision(env: Env, task: Queued, d: Decision)
      requires Valid()
      modifies domains
      ensures Valid() && Value() == CommitDomain(env, old(Value()), task, d)
    {
      if Crosses(task, d) {
        var source := SourceOf(domains.domainByTid, task);
        var leaving := env.effect(task, if source.Some? then env.mapping.DfCapacity(source.value) else 0);
        domains.CommitMigration(task, d.domain.value, leaving, env.effect(task, env.mapping.DfCapacity(d.domain.value)));
      }
    }

    method CommitCpuDecision(task: Queued, cpu: Option<nat>)
      requires Valid()
      modifies this, cpus
      ensures Valid() && Value() == Dispatch.CommitCpu(old(Value()), task, cpu)
    {
      if cpu.Some? {
        cpus.CommitCpu(Task(task.tid, task.cpu, task.domain, task.trigger.IsTick()), cpu.value);
        cpuStates := Running(cpuStates, cpu.value, task.tid);
      }
    }

    /** Record the migration on the thread, and commit what was not held back. */
    method Conclude(env: Env, a: Arrival, d: Decision) returns (o: Outcome)
      requires Valid() && (d.deferred || a.accepted)
      modifies this, domains, cpus
      ensures Valid() && Step(Value(), o) == Carry(env, old(Value()), a, d)
    {
      var tid := a.task.tid;
      var meta := if tid in threads then threads[tid] else Meta(0, 0, None, None, 0);
      threads := threads[tid := Protected(meta, a, d, env.cfg.migrateSettleMs)];
      if d.deferred {
        return Held;
      }
      CommitDomainDecision(env, a.task, d);
      CommitCpuDecision(a.task, d.cpu.Or(a.task.cpu));
      o := Sent(d);
    }

    method HandleTask(env: Env, a: Arrival) returns (o: Outcome)
      requires Valid()
      modifies this, domains, cpus
      ensures Valid() && Step(Value(), o) == Handle(env, old(Value()), a)
    {
      if a.task.tid !in env.allowed {
        return Ignored;
      }
      var tid := a.task.tid;
      var meta := if tid in threads then threads[tid] else Meta(0, 0, None, None, 0);
      var view := CpuView(cpuStates, env.utils, cpus.cpuJobs, env.cfg.cpuHighUtil);
      var s := Scene(a.task, Some(meta), env.topo, env.mapping, domains.states, env.llc, env.df, view, env.allowed[tid],
                     a.now, env.cfg, EffectOn(env.effect, a.task));
      var d := DecideFinal(env, s, a.control);
      if !d.deferred && !a.accepted {
        return Refused;
      }
      o := Conclude(env, a, d);
    }

    /** Handle the pending tasks in order, up to the first one the kernel refuses. */
    method DispatchAll(env: Env, arrivals: seq<Arrival>) returns (n: nat)
      requires Valid()
      modifies this, domains, cpus
      ensures Valid() && Reached(env, old(Value()), arrivals, n, Value())
      ensures n < |arrivals| ==> OutcomeAt(env, old(Value()), arrivals, n) == Refused
    {
      ghost var start := Value();
      n := 0;
      while n < |arrivals|
        invariant Valid() && Reached(env, start, arrivals, n, Value())
      {
        ghost var before := Value();
        var o := HandleTask(env, arrivals[n]);
        ReachNext(env, start, arrivals, n, before, Step(Value(), o));
        if o == Refused {
          return;
        }
        n := n + 1;
      }
    }
  }

  /** `b` is where the first `n` tasks lead, none of them refused. */
  ghost predicate Reached(env: Env, start: Batch, arrivals: seq<Arrival>, n: nat, b: Batch) {
    && n <= |arrivals| && b == BatchAt(env, start, arrivals, n)
    && forall i :: 0 <= i < n ==> OutcomeAt(env, start, arrivals, i) != Refused
  }

  lemma ReachNext(env: Env, start: Batch, arrivals: seq<Arrival>, n: nat, before: Batch, next: Step)
    requires Reached(env, start, arrivals, n, before) && n < |arrivals| && next == Handle(env, before, arrivals[n])
    ensures if next.outcome == Refused then Reached(env, start, arrivals, n, next.batch) && OutcomeAt(env, start, arrivals, n) == Refused
            else Reached(env, start, arrivals, n + 1, next.batch)
  {
    if next.outcome == Refused {
      RefusalChangesNothing(env, before, arrivals[n]);
    }
  }

  lemma RefusalChangesNothing(env: Env, b: Batch, a: Arrival)
    requires Handle(env, b, a).outcome == Refused
    ensures Handle(env, b, a).batch == b
  {
  }
}
