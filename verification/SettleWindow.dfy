/** The settle window of a thread over any run of dispatch batches. */
module SettleWindow {
  import opened Machine
  import opened Samples
  import opened PlacementScene
  import opened Placement
  import opened PlannedDecision
  import opened Dispatch

  /** One task handled, in whatever environment and batch it is handled in. */
  datatype Turn = Turn(env: Env, batch: Batch, arrival: Arrival) {
    function After(): Batch { Handle(env, batch, arrival).batch }

    function Outcome(): Outcome { Handle(env, batch, arrival).outcome }

    /** A migration to a cooler domain is sent for the thread. */
    predicate MovesCooler(tid: nat) {
      arrival.task.tid == tid && Outcome().Sent? && Outcome().d.reason == MoveCoolerDomain
    }

    /** The thread is sent to another domain, for whatever reason, and its settle window opens. */
    predicate Opens(tid: nat) { arrival.task.tid == tid && Outcome().Sent? && Relocated(arrival.task, Outcome().d) }
  }

  /** The end of the thread's settle window as a turn finds it, and as it leaves it. */
  function Before(t: Turn, tid: nat): u64 { t.batch.MetaOf(tid).settleUntil }

  function Then(t: Turn, tid: nat): u64 { t.After().MetaOf(tid).settleUntil }

  ghost predicate Steady(t: Turn, settleMs: u64) { t.env.topo.Consistent() && t.env.cfg.migrateSettleMs == settleMs }

  ghost predicate Follows(a: Turn, b: Turn, tid: nat) { Before(b, tid) == Then(a, tid) }

  ghost predicate Fits(t: Turn, tid: nat, settleMs: u64) {
    t.Opens(tid) ==> t.arrival.now + SatMul64(settleMs, 1_000_000) <= U64_MAX
  }

  /** The clock never runs back, and the thread's window is carried from turn to turn. */
  ghost predicate Run(turns: seq<Turn>, tid: nat, settleMs: u64) {
    && (forall i :: 0 <= i < |turns| ==> Steady(turns[i], settleMs))
    && (forall i, j :: 0 <= i < j < |turns| ==> turns[i].arrival.now <= turns[j].arrival.now)
    && (forall i :: 0 < i < |turns| ==> Follows(turns[i - 1], turns[i], tid))
  }

  /** No window opened for the thread ends past the 64-bit clock. */
  ghost predicate WindowsFit(turns: seq<Turn>, tid: nat, settleMs: u64) {
    forall i :: 0 <= i < |turns| ==> Fits(turns[i], tid, settleMs)
  }

  /** A window is open for its whole length exactly when its end fits the clock. */
  lemma WindowIsKept(now: u64, settleMs: u64)
    ensures WindowEnd(now, settleMs) == now + SatMul64(settleMs, 1_000_000) <==> now + SatMul64(settleMs, 1_000_000) <= U64_MAX
    ensures now + SatMul64(settleMs, 1_000_000) > U64_MAX ==> WindowEnd(now, settleMs) < now
  {
  }

  lemma CarryProtects(t: Turn, d: Decision, tid: nat)
    ensures var h := Carry(t.env, t.batch, t.arrival, d);
            h.batch.MetaOf(tid).settleUntil
            == if t.arrival.task.tid == tid && (d.deferred || t.arrival.accepted) && Relocated(t.arrival.task, d)
               then WindowEnd(t.arrival.now, t.env.cfg.migrateSettleMs) else Before(t, tid)
  {
  }

  /** A turn opens a new window now, or leaves the window alone. */
  lemma WindowMoves(t: Turn, tid: nat)
    ensures Then(t, tid) == if t.Opens(tid) then WindowEnd(t.arrival.now, t.env.cfg.migrateSettleMs) else Before(t, tid)
  {
    if t.arrival.task.tid in t.env.allowed {
      CarryProtects(t, Final(t.env, SceneOf(t.env, t.batch, t.arrival), t.arrival.control), tid);
    }
  }

  /** A cooler move is sent only once the window found has passed, and opens a new one. */
  lemma CoolerMoveWaits(t: Turn, tid: nat)
    requires t.env.topo.Consistent() && t.MovesCooler(tid)
    ensures Before(t, tid) <= t.arrival.now && t.Opens(tid)
    ensures Then(t, tid) == WindowEnd(t.arrival.now, t.env.cfg.migrateSettleMs)
  {
    FinalIsConsiderate(t.env, SceneOf(t.env, t.batch, t.arrival), t.arrival.control);
    WindowMoves(t, tid);
  }

  /** A turn that opens a window, or finds one open long enough, leaves one open long enough. */
  lemma TurnKeepsWindow(t: Turn, tid: nat, settleMs: u64, since: u64)
    requires Steady(t, settleMs) && Fits(t, tid, settleMs) && since <= t.arrival.now
    requires t.Opens(tid) || Before(t, tid) >= since + SatMul64(settleMs, 1_000_000)
    ensures Then(t, tid) >= since + SatMul64(settleMs, 1_000_000)
  {
    WindowIsKept(t.arrival.now, settleMs);
    WindowMoves(t, tid);
  }

  ghost predicate Upheld(value: nat -> int, n: nat, least: int) { value(n) >= least ==> value(n + 1) >= least }

  lemma {:induction false} UpheldThroughout(value: nat -> int, i: nat, k: nat, least: int)
    requires i <= k && value(i) >= least && forall n: nat :: i <= n < k ==> Upheld(value, n, least)
    ensures value(k) >= least
    decreases k
  {
    if i < k {
      UpheldThroughout(value, i, k - 1, least);
      assert Upheld(value, k - 1, least);
    }
  }

  ghost function Ends(turns: seq<Turn>, tid: nat): nat -> int { (n: nat) => if n < |turns| then Then(turns[n], tid) else 0 }

  lemma NextTurnKeepsWindow(a: Turn, b: Turn, tid: nat, settleMs: u64, since: u64)
    requires Steady(b, settleMs) && Fits(b, tid, settleMs) && Follows(a, b, tid) && since <= b.arrival.now
    ensures Then(a, tid) >= since + SatMul64(settleMs, 1_000_000) ==> Then(b, tid) >= since + SatMul64(settleMs, 1_000_000)
  {
    if Before(b, tid) >= since + SatMul64(settleMs, 1_000_000) {
      TurnKeepsWindow(b, tid, settleMs, since);
    }
  }

  lemma NextIsUpheld(turns: seq<Turn>, tid: nat, settleMs: u64, n: nat, since: u64, least: int)
    requires Run(turns, tid, settleMs) && WindowsFit(turns, tid, settleMs) && n + 1 < |turns|
    requires least == since + SatMul64(settleMs, 1_000_000) && since <= turns[n + 1].arrival.now
    ensures Upheld(Ends(turns, tid), n, least)
  {
    var a, b, ends := turns[n], turns[n + 1], Ends(turns, tid);
    assert Follows(turns[n + 1 - 1], turns[n + 1], tid);
    NextTurnKeepsWindow(a, b, tid, settleMs, since);
    assert ends(n) == Then(a, tid) && ends(n + 1) == Then(b, tid);
  }

  /** After a relocation, the window stays open at least until the end it then got. */
  lemma WindowStays(turns: seq<Turn>, tid: nat, settleMs: u64, i: nat, k: nat)
    requires Run(turns, tid, settleMs) && WindowsFit(turns, tid, settleMs) && i <= k < |turns| && turns[i].Opens(tid)
    ensures Then(turns[k], tid) >= turns[i].arrival.now + SatMul64(settleMs, 1_000_000)
  {
    var ends, least := Ends(turns, tid), turns[i].arrival.now + SatMul64(settleMs, 1_000_000);
    TurnKeepsWindow(turns[i], tid, settleMs, turns[i].arrival.now);
    forall n: nat | i <= n < k ensures Upheld(ends, n, least) {
      NextIsUpheld(turns, tid, settleMs, n, turns[i].arrival.now, least);
    }
    assert ends(i) == Then(turns[i], tid) && ends(k) == Then(turns[k], tid);
    UpheldThroughout(ends, i, k, least);
  }

  /**
   * A thread sent to another domain, for whatever reason, is not sent on to a cooler one for a settle window, whether
   * the plan or the fallback decides and whatever is handled in between, as long as the windows opened for the thread
   * fit the clock.
   */
  lemma RelocationsSettle(turns: seq<Turn>, tid: nat, settleMs: u64, i: nat, j: nat)
    requires Run(turns, tid, settleMs) && WindowsFit(turns, tid, settleMs)
    requires i < j < |turns| && turns[i].Opens(tid) && turns[j].MovesCooler(tid)
    ensures turns[j].arrival.now >= turns[i].arrival.now + SatMul64(settleMs, 1_000_000)
  {
    WindowStays(turns, tid, settleMs, i, j - 1);
    CoolerMoveWaits(turns[j], tid);
  }

  /** In particular, two cooler moves of the same thread are at least a settle window apart. */
  lemma CoolerMovesAreApart(turns: seq<Turn>, tid: nat, settleMs: u64, i: nat, j: nat)
    requires Run(turns, tid, settleMs) && WindowsFit(turns, tid, settleMs)
    requires i < j < |turns| && turns[i].MovesCooler(tid) && turns[j].MovesCooler(tid)
    ensures turns[j].arrival.now >= turns[i].arrival.now + SatMul64(settleMs, 1_000_000)
  {
    CoolerMoveWaits(turns[i], tid);
    RelocationsSettle(turns, tid, settleMs, i, j);
  }
}
