/** What the planned domains say of their threads, before a batch and after a migration. */
module DomainLaw {
  import opened Machine
  import opened Ordered
  import opened PlacementScene
  import opened MigrationLedger
  import opened DomainSnapshot

  /** A domain allows one migration for each four of its threads or part of four, counted from its second thread, and one at least. */
  lemma BudgetByPopulation(tasks: u32)
    ensures RoundBudget(tasks) == if tasks <= 1 then 1 else if tasks <= 5 then 2 else if tasks <= 9 then 3 else 4
  {
  }

  // ----- one migration -----

  /** The pressure of a thread goes from one domain to the other, with the thread. */
  ghost predicate Carried(p: DomainPlan, q: DomainPlan, leaving: Effect, entering: Effect, p': DomainPlan, q': DomainPlan) {
    && p'.tasks + 1 == p.tasks && q'.tasks == q.tasks + 1
    && p'.outgoing == SatAdd32(p.outgoing, 1) && p'.incoming == p.incoming && p'.budget == p.budget
    && q'.incoming == SatAdd32(q.incoming, 1) && q'.outgoing == q.outgoing && q'.budget == q.budget
    && (if leaving.valid then p'.df + leaving.df == p.df && p'.llc + leaving.llc == p.llc && p'.contributors + 1 == p.contributors
        else p'.df == p.df && p'.llc == p.llc && p'.contributors == p.contributors)
    && (if entering.valid then q'.df == q.df + entering.df && q'.llc == q.llc + entering.llc && q'.contributors == q.contributors + 1
        else q'.df == q.df && q'.llc == q.llc && q'.contributors == q.contributors)
  }

  /** The thread and its pressure are counted where it leaves. */
  ghost predicate Holds(p: DomainPlan, e: Effect) {
    p.tasks >= 1 && (e.valid ==> p.df >= e.df && p.llc >= e.llc && p.contributors >= 1)
  }

  /** There is room in the counters where it enters. */
  ghost predicate HasRoom(p: DomainPlan, e: Effect) {
    p.tasks < U32_MAX && (e.valid ==> p.df + e.df <= U32_MAX && p.llc + e.llc <= U32_MAX && p.contributors < U32_MAX)
  }

  ghost predicate Between(planned: seq<DomainPlan>, domainOf: map<nat, nat>, task: Queued, s: nat, t: nat) {
    s < |planned| && t < |planned| && s != t && SourceOf(domainOf, task) == Some(s)
  }

  /** A migration carries exactly the thread and its pressure, and touches no other domain. */
  lemma MoveCarriesPressure(
    planned: seq<DomainPlan>, domainOf: map<nat, nat>, task: Queued, s: nat, t: nat, leaving: Effect, entering: Effect)
    requires Between(planned, domainOf, task, s, t) && Holds(planned[s], leaving) && HasRoom(planned[t], entering)
    ensures var after := Moved(planned, domainOf, task, t, leaving, entering);
            && |after| == |planned| && Carried(planned[s], planned[t], leaving, entering, after[s], after[t])
            && forall d :: 0 <= d < |planned| && d != s && d != t ==> after[d] == planned[d]
  {
  }

  /** The same thread, now where it was sent. */
  ghost function Arrival(task: Queued, t: nat): Queued { task.(domain := Some(t)) }

  /** Apart from the migrations counted. */
  ghost predicate SameLoad(p: DomainPlan, q: DomainPlan) {
    p.tasks == q.tasks && p.contributors == q.contributors && p.df == q.df && p.llc == q.llc && p.budget == q.budget
  }

  /** Moving there and back restores what every domain carries; only the migrations stay counted. */
  lemma ThereAndBack(
    planned: seq<DomainPlan>, domainOf: map<nat, nat>, task: Queued, s: nat, t: nat, leaving: Effect, entering: Effect)
    requires Between(planned, domainOf, task, s, t) && Holds(planned[s], leaving) && HasRoom(planned[t], entering)
    ensures var there := Moved(planned, domainOf, task, t, leaving, entering);
            var back := Moved(there, domainOf, Arrival(task, t), s, entering, leaving);
            |back| == |planned| && forall d :: 0 <= d < |planned| ==> SameLoad(planned[d], back[d])
  {
    var there := Moved(planned, domainOf, task, t, leaving, entering);
    MoveCarriesPressure(planned, domainOf, task, s, t, leaving, entering);
    MoveCarriesPressure(there, domainOf, Arrival(task, t), t, s, entering, leaving);
  }

  // ----- the start of a batch -----

  /** The thread is known and belongs to the domain: it is planned there, or it is not planned and was last there. */
  ghost predicate Resides(s: Snapshot, t: nat, d: nat) {
    t in s.threads && if t in s.planned then s.planned[t] == d else s.threads[t].domain == Some(d)
  }

  ghost function ResidentsOf(s: Snapshot, d: nat): set<nat> { set t | t in s.threads && Resides(s, t, d) }

  ghost function Those(p: nat -> bool, s: seq<nat>): set<nat> { set t | t in s && p(t) }

  lemma OneMore(p: nat -> bool, s: seq<nat>, t: nat)
    requires t !in s
    ensures |Those(p, s + [t])| == |Those(p, s)| + if p(t) then 1 else 0
  {
    assert Those(p, s + [t]) == Those(p, s) + if p(t) then {t} else {};
  }

  ghost function IsHome(s: Snapshot, d: nat): nat -> bool { (t: nat) => s.HomeOf(t) == Some(d) }

  lemma {:induction false} HomesAreCounted(s: Snapshot, order: seq<nat>, k: nat, d: nat)
    requires k <= |order| && StrictlyAscending(order)
    ensures CountHomes(s, order, k, d) == |Those(IsHome(s, d), order[..k])|
  {
    if k > 0 {
      HomesAreCounted(s, order, k - 1, d);
      assert order[..k] == order[..k - 1] + [order[k - 1]];
      OneMore(IsHome(s, d), order[..k - 1], order[k - 1]);
    }
  }

  lemma HomesAreResidents(s: Snapshot, d: nat)
    ensures Those(IsHome(s, d), Order(s)) == ResidentsOf(s, d)
  {
  }

  /** A domain starts with its residents and the new tasks running there, and with a budget for that many. */
  lemma DomainsStartWithResidents(s: Snapshot, d: nat)
    ensures var p := DomainAt(s, d);
            && p.tasks == Min(|ResidentsOf(s, d)| + CountNew(s, |s.pending|, d), U32_MAX)
            && p.budget == (if p.tasks <= 1 then 1 else if p.tasks <= 5 then 2 else if p.tasks <= 9 then 3 else 4)
  {
    assert Order(s)[..|Order(s)|] == Order(s);
    HomesAreCounted(s, Order(s), |Order(s)|, d);
    HomesAreResidents(s, d);
    DomainsStart(s, d);
    BudgetByPopulation(Max(DomainAt(s, d).tasks, 1));
  }

  /** What the first `k` threads at home in a domain add to it by `f`. */
  ghost function HomeSum(s: Snapshot, order: seq<nat>, k: nat, d: nat, f: Effect -> nat): nat
    requires k <= |order|
  {
    if k == 0 then 0 else
      HomeSum(s, order, k - 1, d, f) +
      (if s.HomeOf(order[k - 1]) == Some(d) && s.EffectOf(order[k - 1]).valid then f(s.EffectOf(order[k - 1])) else 0)
  }

  ghost function DfOf(): Effect -> nat { (e: Effect) => e.df }

  ghost function LlcOf(): Effect -> nat { (e: Effect) => e.llc }

  ghost function One(): Effect -> nat { (e: Effect) => 1 }

  ghost predicate Sums(s: Snapshot, order: seq<nat>, k: nat, d: nat, p: DomainPlan)
    requires k <= |order|
  {
    && p.df == Min(HomeSum(s, order, k, d, DfOf()), U32_MAX)
    && p.llc == Min(HomeSum(s, order, k, d, LlcOf()), U32_MAX)
    && p.contributors == Min(HomeSum(s, order, k, d, One()), U32_MAX)
  }

  lemma {:induction false} ResidentsSum(s: Snapshot, order: seq<nat>, k: nat, d: nat)
    requires k <= |order|
    ensures Sums(s, order, k, d, Residents(s, order, k, d))
  {
    if k > 0 {
      ResidentsSum(s, order, k - 1, d);
    }
  }

  lemma {:induction false} NewBringNoPressure(s: Snapshot, p: DomainPlan, k: nat, d: nat)
    requires k <= |s.pending|
    ensures var q := WithNew(s, p, k, d); q.df == p.df && q.llc == p.llc && q.contributors == p.contributors
  {
    if k > 0 {
      NewBringNoPressure(s, p, k - 1, d);
    }
  }

  /** A domain starts with the pressure of exactly those at home there whose signatures are valid; new tasks bring none. */
  lemma DomainsStartWithPressure(s: Snapshot, d: nat)
    ensures Sums(s, Order(s), |Order(s)|, d, DomainAt(s, d))
  {
    ResidentsSum(s, Order(s), |Order(s)|, d);
    NewBringNoPressure(s, Residents(s, Order(s), |Order(s)|, d), |s.pending|, d);
  }
}
