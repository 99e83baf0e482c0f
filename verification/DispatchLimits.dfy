/** Where the migration budgets do not reach. */
module DispatchLimits {
  import opened Machine
  import opened Ordered
  import opened Samples
  import opened CpuSelect
  import opened HostMapping
  import opened Ledger
  import opened PlacementCost
  import opened PlacementScene
  import opened Placement
  import opened PlannedDecision
  import opened MigrationLedger
  import opened Dispatch

  /** A relocation that is not a migration, such as an idle spread, leaves the planned domains as they were. */
  lemma SpreadIsNotCounted(env: Env, b: Batch, a: Arrival)
    ensures var h := Handle(env, b, a);
            h.outcome.Sent? && !h.outcome.d.reason.Migrates() ==> h.batch.planned == b.planned && h.batch.domainOf == b.domainOf
  {
    var d := Final(env, SceneOf(env, b, a), a.control);
    if a.task.tid in env.allowed && !d.deferred && a.accepted {
      assert !d.reason.Migrates() ==> !Crosses(a.task, d);
    }
  }

  /** For a source that is out of service, what the scan keeps does not depend on any budget. */
  lemma EscapeIgnoresBudgets(s: Scene, d: nat)
    requires s.Excluded()
    ensures VerdictOn(s, d).Kept? <==> s.UsableDf(d).Some? && s.UsableLlc(d).Some? && CpuFor(s, d).Some?
  {
  }

  /** A settled task out of service goes to the best domain that has fresh samples and a CPU for it. */
  lemma OutOfServiceEscapes(s: Scene)
    requires s.Excluded() && !s.Young() && Best(s).Some?
    ensures Decide(s) == MoveTo(s, Best(s).value.domain, Best(s).value.cpu, ExcludedDomainEscape)
  {
  }

  /**
   * Such an escape keeps the budgets exactly when the guards it skips would have let it pass: both its source
   * and its target have some budget left.
   */
  lemma EscapeKeepsBudgets(s: Scene, leaving: Effect, entering: Effect)
    requires s.topo.Consistent() && WithinBudgets(s.planned) && s.Excluded() && !s.Young() && Best(s).Some?
    requires s.task.domain.Some? && s.task.domain.value < |s.planned| && s.task.domain != Some(Best(s).value.domain)
    ensures var target, source := Best(s).value.domain, s.planned[s.task.domain.value];
            && Decide(s).reason == ExcludedDomainEscape && Decide(s).domain == Some(target)
            && (WithinBudgets(Moved(s.planned, map[], s.task, target, leaving, entering))
                <==> source.outgoing < source.budget && !s.BudgetSpent(target))
  {
    OutOfServiceEscapes(s);
    MoveKeepsBudgets(s.planned, map[], s.task, Best(s).value.domain, leaving, entering);
  }

  /** With one domain to escape to, the task is sent there even when that domain's budget is spent. */
  lemma EscapeOverrunsBudget(s: Scene, d: nat, leaving: Effect, entering: Effect)
    requires s.topo.Consistent() && WithinBudgets(s.planned) && s.Excluded() && !s.Young()
    requires s.mapping.eligibleDomains == {d} && s.UsableDf(d).Some? && s.UsableLlc(d).Some? && CpuFor(s, d).Some?
    requires s.task.domain.Some? && s.task.domain.value < |s.planned| && s.task.domain != Some(d) && s.BudgetSpent(d)
    ensures Decide(s).reason == ExcludedDomainEscape && Decide(s).domain == Some(d)
    ensures !WithinBudgets(Moved(s.planned, map[], s.task, d, leaving, entering))
  {
    EscapeIgnoresBudgets(s, d);
    BestBeatsAll(s, d);
    BestIsKept(s);
    EscapeKeepsBudgets(s, leaving, entering);
  }
}
