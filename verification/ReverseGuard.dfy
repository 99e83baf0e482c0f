/** The guard against sending a thread straight back, which the settle window leaves nothing to do. */
module ReverseGuard {
  import opened Machine
  import opened PlacementScene
  import opened Placement
  import opened PlannedDecision
  import opened Dispatch

  /** The protection against going back ends with the settle window, or before. */
  ghost predicate EndsInWindow(m: Meta) { m.reverseProtectUntil <= m.settleUntil }

  lemma CarryEndsInWindow(env: Env, b: Batch, a: Arrival, d: Decision, tid: nat)
    requires EndsInWindow(b.MetaOf(tid))
    ensures EndsInWindow(Carry(env, b, a, d).batch.MetaOf(tid))
  {
  }

  /** It always does: both are set at once, to the same end. */
  lemma HandleEndsInWindow(env: Env, b: Batch, a: Arrival, tid: nat)
    requires EndsInWindow(b.MetaOf(tid))
    ensures EndsInWindow(Handle(env, b, a).batch.MetaOf(tid))
  {
    if a.task.tid in env.allowed {
      CarryEndsInWindow(env, b, a, Final(env, SceneOf(env, b, a), a.control), tid);
    }
  }

  lemma {:induction false} BatchEndsInWindow(env: Env, b: Batch, arrivals: seq<Arrival>, k: nat, tid: nat)
    requires k <= |arrivals| && EndsInWindow(b.MetaOf(tid))
    ensures EndsInWindow(BatchAt(env, b, arrivals, k).MetaOf(tid))
  {
    if k > 0 {
      BatchEndsInWindow(env, b, arrivals, k - 1, tid);
      HandleEndsInWindow(env, BatchAt(env, b, arrivals, k - 1), arrivals[k - 1], tid);
    }
  }

  /** The last migration on record. */
  ghost predicate Records(m: Meta, from: Option<nat>, to: Option<nat>) { m.lastFrom == from && m.lastTo == to }

  lemma CarryRecordsMigration(env: Env, b: Batch, a: Arrival, d: Decision, tid: nat)
    ensures var h, was := Carry(env, b, a, d), b.MetaOf(tid);
            if a.task.tid == tid && h.outcome.Sent? && Relocated(a.task, h.outcome.d)
            then Records(h.batch.MetaOf(tid), a.task.domain, h.outcome.d.domain)
            else Records(h.batch.MetaOf(tid), was.lastFrom, was.lastTo)
  {
  }

  /** A task sent to another domain has that as its last migration; what is not sent elsewhere keeps the last one it had. */
  lemma LastMigrationIsRecorded(env: Env, b: Batch, a: Arrival, tid: nat)
    ensures var h, was := Handle(env, b, a), b.MetaOf(tid);
            if a.task.tid == tid && h.outcome.Sent? && Relocated(a.task, h.outcome.d)
            then Records(h.batch.MetaOf(tid), a.task.domain, h.outcome.d.domain)
            else Records(h.batch.MetaOf(tid), was.lastFrom, was.lastTo)
  {
    if a.task.tid in env.allowed {
      CarryRecordsMigration(env, b, a, Final(env, SceneOf(env, b, a), a.control), tid);
    }
  }

  lemma ReverseIsSettling(s: Scene, d: nat)
    ensures s.meta.Some? && EndsInWindow(s.meta.value) && s.Reverses(d) ==> s.Settling()
  {
  }

  lemma GuardNeedsReversal(s: Scene, d: nat)
    ensures VerdictOn(s, d) == ReverseBlock ==> !s.Excluded() && s.Reverses(d)
  {
  }

  lemma UnblockedReason(judge: Judge, domains: seq<nat>)
    requires forall d :: judge(d) != ReverseBlock
    ensures BlockReason(judge, domains) != ReverseHysteresis
  {
  }

  lemma NothingIsGuarded(s: Scene)
    requires s.meta.Some? && EndsInWindow(s.meta.value) && (s.Excluded() || !s.Settling())
    ensures forall d :: JudgeOf(s)(d) != ReverseBlock
  {
    forall d ensures JudgeOf(s)(d) != ReverseBlock {
      GuardNeedsReversal(s, d);
      ReverseIsSettling(s, d);
    }
  }

  /** A thread past its window is not kept from going back, and one in an excluded domain never is. */
  lemma UnguardedIsNotBlocked(s: Scene)
    requires s.meta.Some? && EndsInWindow(s.meta.value) && (s.Excluded() || !s.Settling())
    ensures NothingKept(s).reason != ReverseHysteresis
  {
    NothingIsGuarded(s);
    UnblockedReason(JudgeOf(s), Domains(s));
    ReslicedKeepsHome(Stay(s, BlockReason(JudgeOf(s), Domains(s))), RateControlled(s));
  }

  lemma PickNeverReverses(
    spread: Option<Decision>, early: bool, spent: bool, chosen: Option<Decision>, stay: Reason -> Decision, unkept: Decision)
    requires spread.Some? ==> spread.value.reason == IdleSpread
    requires chosen.Some? ==> chosen.value.reason != ReverseHysteresis
    requires forall r :: stay(r).reason == r
    requires early || unkept.reason != ReverseHysteresis
    ensures Pick(spread, early, spent, chosen, stay, unkept).reason != ReverseHysteresis
  {
  }

  lemma FallbackNeverReverses(s: Scene)
    requires s.meta.Some? && EndsInWindow(s.meta.value)
    ensures Decide(s).reason != ReverseHysteresis
  {
    if s.Excluded() || !s.Settling() {
      UnguardedIsNotBlocked(s);
    }
    PickNeverReverses(Spread(s), StaysEarly(s), s.SourceBudgetSpent(), ChosenBest(s), StayFor(s), NothingKept(s));
  }

  lemma PlanNeverReverses(s: Scene, plan: PlacementPlan, epoch: u64)
    requires s.meta.Some? && EndsInWindow(s.meta.value)
    ensures Planned(s, plan, epoch) != Err(ReverseProtect)
  {
    if s.task.tid in plan.entries {
      ReverseIsSettling(s, plan.entries[s.task.tid].domain);
    }
  }

  /**
   * Over any batch, the guard against going back decides nothing, by the plan or by the fallback: it is set to end with the
   * settle window, which always answers first.
   */
  lemma ReverseGuardIsSubsumed(env: Env, b: Batch, arrivals: seq<Arrival>, k: nat, plan: PlacementPlan, epoch: u64)
    requires k < |arrivals| && EndsInWindow(b.MetaOf(arrivals[k].task.tid))
    ensures var s := SceneOf(env, BatchAt(env, b, arrivals, k), arrivals[k]);
            Decide(s).reason != ReverseHysteresis && Planned(s, plan, epoch) != Err(ReverseProtect)
  {
    BatchEndsInWindow(env, b, arrivals, k, arrivals[k].task.tid);
    FallbackNeverReverses(SceneOf(env, BatchAt(env, b, arrivals, k), arrivals[k]));
    PlanNeverReverses(SceneOf(env, BatchAt(env, b, arrivals, k), arrivals[k]), plan, epoch);
  }
}
