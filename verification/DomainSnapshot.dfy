/** The planned domains a batch starts from: every known thread where it is planned, every new task where it runs. */
module DomainSnapshot {
  import opened Machine
  import opened Ordered
  import opened PlacementScene
  import opened MigrationLedger

  /** A known thread: the domain it was last selected for or seen in, and the pressure of its signature. */
  datatype Known = Known(domain: Option<nat>, effect: Effect)

  datatype Snapshot = Snapshot(threads: map<nat, Known>, planned: map<nat, nat>, pending: seq<Queued>, domains: nat) {
    function HomeOf(tid: nat): Option<nat> {
      if tid in planned then Some(planned[tid]) else if tid in threads then threads[tid].domain else None
    }

    function EffectOf(tid: nat): Effect { if tid in threads then threads[tid].effect else Effect(0, 0, false) }

    /** A pending task that no known thread stands for. */
    predicate New(t: Queued) { t.tid !in threads }
  }

  const Empty: DomainPlan := DomainPlan(0, 0, 0, 0, 0, 0, 0)

  function Joined(p: DomainPlan, e: Effect): DomainPlan {
    var q := p.(tasks := SatAdd32(p.tasks, 1));
    if e.valid then q.(df := SatAdd32(p.df, e.df), llc := SatAdd32(p.llc, e.llc), contributors := SatAdd32(p.contributors, 1)) else q
  }

  /** Domain `d` with those of the first `k` threads that are at home there. */
  function Residents(s: Snapshot, order: seq<nat>, k: nat, d: nat): DomainPlan
    requires k <= |order|
  {
    if k == 0 then Empty else
      var p := Residents(s, order, k - 1, d);
      if s.HomeOf(order[k - 1]) == Some(d) then Joined(p, s.EffectOf(order[k - 1])) else p
  }

  /** And with those of the first `k` pending tasks that are new and run there. */
  function WithNew(s: Snapshot, p: DomainPlan, k: nat, d: nat): DomainPlan
    requires k <= |s.pending|
  {
    if k == 0 then p else
      var q := WithNew(s, p, k - 1, d);
      if s.New(s.pending[k - 1]) && s.pending[k - 1].domain == Some(d) then q.(tasks := SatAdd32(q.tasks, 1)) else q
  }

  function Budgeted(p: DomainPlan): DomainPlan { p.(budget := RoundBudget(Max(p.tasks, 1))) }

  function Order(s: Snapshot): seq<nat> { Ascending(s.threads.Keys) }

  function DomainAt(s: Snapshot, d: nat): DomainPlan {
    Budgeted(WithNew(s, Residents(s, Order(s), |Order(s)|, d), |s.pending|, d))
  }

  // ----- the population counted -----

  function CountHomes(s: Snapshot, order: seq<nat>, k: nat, d: nat): nat
    requires k <= |order|
  {
    if k == 0 then 0 else CountHomes(s, order, k - 1, d) + (if s.HomeOf(order[k - 1]) == Some(d) then 1 else 0)
  }

  function CountNew(s: Snapshot, k: nat, d: nat): nat
    requires k <= |s.pending|
  {
    if k == 0 then 0 else CountNew(s, k - 1, d) + (if s.New(s.pending[k - 1]) && s.pending[k - 1].domain == Some(d) then 1 else 0)
  }

  lemma {:induction false} ResidentsAreCounted(s: Snapshot, order: seq<nat>, k: nat, d: nat)
    requires k <= |order|
    ensures var p := Residents(s, order, k, d);
            p.tasks == Min(CountHomes(s, order, k, d), U32_MAX) && p.incoming == 0 && p.outgoing == 0
  {
    if k > 0 {
      ResidentsAreCounted(s, order, k - 1, d);
    }
  }

  lemma {:induction false} NewAreCounted(s: Snapshot, p: DomainPlan, k: nat, d: nat)
    requires k <= |s.pending| && p.incoming == 0 && p.outgoing == 0
    ensures var q := WithNew(s, p, k, d);
            q.tasks == Min(p.tasks + CountNew(s, k, d), U32_MAX) && q.incoming == 0 && q.outgoing == 0
  {
    if k > 0 {
      NewAreCounted(s, p, k - 1, d);
    }
  }

  /** A domain starts with everyone who belongs there, no migrations, and a budget for its population. */
  lemma DomainsStart(s: Snapshot, d: nat)
    ensures var p := DomainAt(s, d);
            && p.tasks == Min(CountHomes(s, Order(s), |Order(s)|, d) + CountNew(s, |s.pending|, d), U32_MAX)
            && p.incoming == 0 && p.outgoing == 0 && p.budget == RoundBudget(Max(p.tasks, 1))
  {
    ResidentsAreCounted(s, Order(s), |Order(s)|, d);
    NewAreCounted(s, Residents(s, Order(s), |Order(s)|, d), |s.pending|, d);
  }

  // ----- the domains as one mutable table -----

  class DomainStates {
    var states: seq<DomainPlan>
    var domainByTid: map<nat, nat>

    /** One pass over the threads, one over the pending tasks, and one to set the budgets. */
    constructor FromSnapshot(s: Snapshot)
      ensures |states| == s.domains && Starts(states) && domainByTid == s.planned
      ensures forall d :: 0 <= d < |states| ==> states[d] == DomainAt(s, d)
    {
      var order := Order(s);
      var residents := CountThreads(s, order);
      var all := CountPending(s, residents);
      states := seq(s.domains, d requires 0 <= d < s.domains => Budgeted(all[d]));
      domainByTid := s.planned;
      new;
      forall d: nat | d < s.domains ensures states[d] == DomainAt(s, d) && states[d].incoming == 0 && states[d].outgoing == 0 {
        DomainsStart(s, d);
      }
    }

    static method CountThreads(s: Snapshot, order: seq<nat>) returns (r: seq<DomainPlan>)
      ensures |r| == s.domains && forall d: nat :: d < s.domains ==> r[d] == Residents(s, order, |order|, d)
    {
      r := seq(s.domains, _ => Empty);
      for i := 0 to |order|
        invariant |r| == s.domains && forall d: nat :: d < s.domains ==> r[d] == Residents(s, order, i, d)
      {
        var home := s.HomeOf(order[i]);
        if home.Some? && home.value < |r| {
          r := r[home.value := Joined(r[home.value], s.EffectOf(order[i]))];
        }
      }
    }

    static method CountPending(s: Snapshot, start: seq<DomainPlan>) returns (r: seq<DomainPlan>)
      requires |start| == s.domains
      ensures |r| == s.domains && forall d: nat :: d < s.domains ==> r[d] == WithNew(s, start[d], |s.pending|, d)
    {
      r := start;
      for i := 0 to |s.pending|
        invariant |r| == s.domains && forall d: nat :: d < s.domains ==> r[d] == WithNew(s, start[d], i, d)
      {
        var t := s.pending[i];
        if s.New(t) && t.domain.Some? && t.domain.value < |r| {
          var p := r[t.domain.value];
          r := r[t.domain.value := p.(tasks := SatAdd32(p.tasks, 1))];
        }
      }
    }

    /** Move a task to its target in the table, on both sides, unless it is there already. */
    method CommitMigration(task: Queued, target: nat, leaving: Effect, entering: Effect)
      modifies this
      ensures states == Moved(old(states), old(domainByTid), task, target, leaving, entering)
      ensures domainByTid == old(domainByTid)[task.tid := target]
    {
      var source := SourceOf(domainByTid, task);
      if source != Some(target) {
        if source.Some? && source.value < |states| {
          states := states[source.value := Departed(states[source.value], leaving)];
        }
        if target < |states| {
          states := states[target := Arrived(states[target], entering)];
        }
      }
      domainByTid := domainByTid[task.tid := target];
    }
  }
}
