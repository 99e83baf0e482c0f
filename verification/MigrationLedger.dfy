/** The domain side of the dispatch reservations: planned populations and migration budgets. */
module MigrationLedger {
  import opened Machine
  import opened PlacementScene

  const BUDGET_MAX: u32 := 4

  /** A quarter of the population and three more, rounded up, between 1 and 4. */
  function RoundBudget(tasks: u32): u32 { Max(1, Min((SatAdd32(tasks, 3) + 3) / 4, BUDGET_MAX)) }

  /** The planned domains as a batch starts: no migrations yet, and a budget by population. */
  ghost predicate Starts(planned: seq<DomainPlan>) {
    forall d :: 0 <= d < |planned| ==>
      planned[d].incoming == 0 && planned[d].outgoing == 0 && planned[d].budget == RoundBudget(Max(planned[d].tasks, 1))
  }

  predicate InBudget(p: DomainPlan) { p.incoming <= p.budget && p.outgoing <= p.budget && 1 <= p.budget <= BUDGET_MAX }

  ghost predicate WithinBudgets(planned: seq<DomainPlan>) {
    forall d :: 0 <= d < |planned| ==> InBudget(planned[d])
  }

  function Departed(p: DomainPlan, e: Effect): DomainPlan {
    var q := p.(tasks := SatSub(p.tasks, 1), outgoing := SatAdd32(p.outgoing, 1));
    if e.valid then q.(df := SatSub(p.df, e.df), llc := SatSub(p.llc, e.llc), contributors := SatSub(p.contributors, 1)) else q
  }

  function Arrived(p: DomainPlan, e: Effect): DomainPlan {
    var q := p.(tasks := SatAdd32(p.tasks, 1), incoming := SatAdd32(p.incoming, 1));
    if e.valid then q.(df := SatAdd32(p.df, e.df), llc := SatAdd32(p.llc, e.llc), contributors := SatAdd32(p.contributors, 1)) else q
  }

  function Leave(planned: seq<DomainPlan>, source: Option<nat>, e: Effect): seq<DomainPlan> {
    if source.Some? && source.value < |planned| then planned[source.value := Departed(planned[source.value], e)] else planned
  }

  function Enter(planned: seq<DomainPlan>, target: nat, e: Effect): seq<DomainPlan> {
    if target < |planned| then planned[target := Arrived(planned[target], e)] else planned
  }

  /** The domain a task is taken from: where it runs, or else where it is planned. */
  function SourceOf(domainOf: map<nat, nat>, task: Queued): Option<nat> {
    task.domain.Or(if task.tid in domainOf then Some(domainOf[task.tid]) else None)
  }

  /** Moves a task in the planned domains, unless it is already there. */
  function Moved(planned: seq<DomainPlan>, domainOf: map<nat, nat>, task: Queued, target: nat, leaving: Effect, entering: Effect): seq<DomainPlan> {
    var source := SourceOf(domainOf, task);
    if source == Some(target) then planned else Enter(Leave(planned, source, leaving), target, entering)
  }

  lemma BatchStartsWithinBudgets(planned: seq<DomainPlan>)
    requires Starts(planned)
    ensures WithinBudgets(planned)
  {
  }

  /** Population is conserved, but for a source that was believed empty. */
  lemma MoveConservesTasks(planned: seq<DomainPlan>, domainOf: map<nat, nat>, task: Queued, target: nat, leaving: Effect, entering: Effect)
    requires var s := SourceOf(domainOf, task); s.Some? && s.value < |planned| && target < |planned| && planned[target].tasks < U32_MAX
    ensures var s, after := SourceOf(domainOf, task).value, Moved(planned, domainOf, task, target, leaving, entering);
            && |after| == |planned|
            && (forall d :: 0 <= d < |planned| && d != s && d != target ==> after[d] == planned[d])
            && (s != target ==> (after[s].tasks + after[target].tasks == planned[s].tasks + planned[target].tasks <==> planned[s].tasks > 0))
  {
  }

  /** A move keeps all budgets exactly when its source and its target have some left. */
  lemma MoveKeepsBudgets(planned: seq<DomainPlan>, domainOf: map<nat, nat>, task: Queued, target: nat, leaving: Effect, entering: Effect)
    requires WithinBudgets(planned) && SourceOf(domainOf, task) != Some(target)
    ensures WithinBudgets(Moved(planned, domainOf, task, target, leaving, entering)) <==>
            var s := SourceOf(domainOf, task);
            && (s.Some? && s.value < |planned| ==> planned[s.value].outgoing < planned[s.value].budget)
            && (target < |planned| ==> planned[target].incoming < planned[target].budget)
  {
    var s := SourceOf(domainOf, task);
    var left := Leave(planned, s, leaving);
    var after := Enter(left, target, entering);
    assert forall d :: 0 <= d < |planned| && s != Some(d) && d != target ==> after[d] == planned[d];
    if s.Some? && s.value < |planned| {
      assert after[s.value] == Departed(planned[s.value], leaving);
    }
    if target < |planned| {
      assert after[target] == Arrived(planned[target], entering);
    }
  }
}
