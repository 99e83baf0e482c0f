/** A settle window that overruns the clock holds nothing back. */
module SettleLimits {
  import opened Machine
  import opened Ordered
  import opened Samples
  import opened CpuSelect
  import opened HostMapping
  import opened Ledger
  import opened PlacementScene
  import opened Placement
  import opened PlannedDecision
  import opened Dispatch
  import opened SettleWindow

  /** An entry of a current plan that nothing objects to is followed, and the thread moves. */
  lemma PlanMoves(t: Turn, cpu: nat, d: nat)
    requires t.env.topo.Consistent() && t.env.plan.Some? && t.arrival.control.Free? && t.arrival.accepted
    requires t.arrival.task.tid in t.env.allowed && t.arrival.task.tid in t.env.plan.value.entries
    requires t.env.plan.value.entries[t.arrival.task.tid] == Entry(d, Some(cpu))
    requires t.env.latestEpoch == t.env.plan.value.epoch
    requires var s := SceneOf(t.env, t.batch, t.arrival);
             && !s.Excluded() && s.task.domain != Some(d) && Objection(s, d).None? && EntryCpu(s, Entry(d, Some(cpu))).Some?
    ensures t.MovesCooler(t.arrival.task.tid) && t.Outcome().d.domain == Some(d)
  {
    FinalIsConsiderate(t.env, SceneOf(t.env, t.batch, t.arrival), t.arrival.control);
  }

  // ----- a thread that goes back and forth between two domains -----

  const HOST: Topology := Topology([[0], [1]], [Some(0), Some(1)])

  lemma HostIsConsistent()
    ensures HOST.Consistent()
  {
  }

  /** The plan sends the one thread to domain `to`, and its settle window is without end. */
  function Sending(to: nat, cfg: Policy, effect: (Queued, u32) -> Effect): Env {
    Env(HOST, Mapping({0, 1}, {}, {0, 1}, []), [], [], [], cfg, Some(PlacementPlan(0, map[7 := Entry(to, Some(to))])), 0,
        map[7 := {0, 1}], map[], effect)
  }

  function Asking(from: nat, now: u64): Arrival { Arrival(Queued(7, Some(from), Some(from), Enqueue, 9, 0, 0), now, Free, true) }

  /** Nothing objects to the move while no window is open. */
  lemma MoveIsFree(b: Batch, from: nat, to: nat, now: u64, cfg: Policy, effect: (Queued, u32) -> Effect)
    requires b.planned == [] && from < 2 && to < 2 && from != to
    requires b.MetaOf(7).settleUntil <= now && b.MetaOf(7).reverseProtectUntil <= now
    ensures var s := SceneOf(Sending(to, cfg, effect), b, Asking(from, now));
            && !s.Excluded() && Objection(s, to).None? && EntryCpu(s, Entry(to, Some(to))).Some?
  {
    var s := SceneOf(Sending(to, cfg, effect), b, Asking(from, now));
    assert s.allowed == {0, 1} && s.topo.DomainOf(to) == Some(to);
    assert to in LegalDomains(s);
    assert to in TargetCpus(s.topo, s.allowed, s.mapping.eligibleCpus, to) by {
      assert to in InDomain(s.topo, s.allowed * s.mapping.eligibleCpus, to);
    }
  }

  lemma ThreadMoves(b: Batch, from: nat, to: nat, now: u64, cfg: Policy, effect: (Queued, u32) -> Effect)
    requires b.planned == [] && from < 2 && to < 2 && from != to
    requires b.MetaOf(7).settleUntil <= now && b.MetaOf(7).reverseProtectUntil <= now
    ensures var t := Turn(Sending(to, cfg, effect), b, Asking(from, now)); t.MovesCooler(7)
  {
    HostIsConsistent();
    MoveIsFree(b, from, to, now, cfg, effect);
    PlanMoves(Turn(Sending(to, cfg, effect), b, Asking(from, now)), to, to);
  }

  lemma CommitLeaves(env: Env, b: Batch, a: Arrival, d: Decision)
    requires b.planned == []
    ensures Committed(env, b, a, d).planned == [] && Committed(env, b, a, d).threads == b.threads
  {
  }

  lemma CarryLeaves(t: Turn, d: Decision)
    requires t.batch.planned == [] && !d.deferred && t.arrival.accepted && Relocated(t.arrival.task, d)
    ensures var b, until := Carry(t.env, t.batch, t.arrival, d).batch, WindowEnd(t.arrival.now, t.env.cfg.migrateSettleMs);
            b.planned == [] && b.MetaOf(t.arrival.task.tid).settleUntil == b.MetaOf(t.arrival.task.tid).reverseProtectUntil == until
  {
    var m := Protected(t.batch.MetaOf(t.arrival.task.tid), t.arrival, d, t.env.cfg.migrateSettleMs);
    CommitLeaves(t.env, t.batch.(threads := t.batch.threads[t.arrival.task.tid := m]), t.arrival, d);
  }

  /** A turn that opens a window leaves both of the thread's protections at its end. */
  lemma MoveLeaves(t: Turn, tid: nat)
    requires t.Opens(tid) && t.batch.planned == []
    ensures var b, until := t.After(), WindowEnd(t.arrival.now, t.env.cfg.migrateSettleMs);
            b.planned == [] && b.MetaOf(tid).settleUntil == b.MetaOf(tid).reverseProtectUntil == until
  {
    var d := Final(t.env, SceneOf(t.env, t.batch, t.arrival), t.arrival.control);
    assert Handle(t.env, t.batch, t.arrival) == Carry(t.env, t.batch, t.arrival, d);
    CarryLeaves(t, d);
  }

  /** Two turns in a row at one time make a run, and the first window overruns the clock. */
  lemma TwoTurnsRun(turns: seq<Turn>, tid: nat, settleMs: u64)
    requires |turns| == 2 && Steady(turns[0], settleMs) && Steady(turns[1], settleMs)
    requires Follows(turns[0], turns[1], tid) && turns[0].arrival.now == turns[1].arrival.now
    ensures Run(turns, tid, settleMs)
  {
    forall i | 0 <= i < |turns| ensures Steady(turns[i], settleMs) {
      assert i == 0 || i == 1;
    }
    forall i | 0 < i < |turns| ensures Follows(turns[i - 1], turns[i], tid) {
      assert i == 1;
    }
  }

  const START: Batch := Batch([], map[], Book(map[], []), [], map[])

  function There(now: u64, cfg: Policy, effect: (Queued, u32) -> Effect): Turn { Turn(Sending(1, cfg, effect), START, Asking(0, now)) }

  function Back(now: u64, cfg: Policy, effect: (Queued, u32) -> Effect): Turn {
    Turn(Sending(0, cfg, effect), There(now, cfg, effect).After(), Asking(1, now))
  }

  lemma BackIsFree(now: u64, cfg: Policy, effect: (Queued, u32) -> Effect)
    requires now + SatMul64(cfg.migrateSettleMs, 1_000_000) > U64_MAX
    ensures There(now, cfg, effect).MovesCooler(7) && There(now, cfg, effect).Opens(7) && Back(now, cfg, effect).MovesCooler(7)
  {
    var there := There(now, cfg, effect);
    HostIsConsistent();
    ThreadMoves(START, 0, 1, now, cfg, effect);
    CoolerMoveWaits(there, 7);
    MoveLeaves(there, 7);
    WindowIsKept(now, cfg.migrateSettleMs);
    ThreadMoves(there.After(), 1, 0, now, cfg, effect);
  }

  /**
   * Whenever the window would end past the clock, a thread can be sent to another domain and back at one and the same
   * time, however long the settle time is.
   */
  lemma OverrunWindowHoldsNothing(now: u64, cfg: Policy, effect: (Queued, u32) -> Effect)
    requires now + SatMul64(cfg.migrateSettleMs, 1_000_000) > U64_MAX
    ensures var a, b := There(now, cfg, effect), Back(now, cfg, effect);
            && Run([a, b], 7, cfg.migrateSettleMs) && !WindowsFit([a, b], 7, cfg.migrateSettleMs)
            && a.MovesCooler(7) && b.MovesCooler(7) && a.arrival.now == b.arrival.now
  {
    HostIsConsistent();
    BackIsFree(now, cfg, effect);
    var turns := [There(now, cfg, effect), Back(now, cfg, effect)];
    TwoTurnsRun(turns, 7, cfg.migrateSettleMs);
    assert !Fits(turns[0], 7, cfg.migrateSettleMs);
  }
}
