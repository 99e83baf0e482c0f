/** The token bucket that slows a latched villain, with a watchdog against starving it. */
module TokenBucket {
  import opened Arithmetic
  import opened Machine
  import opened Samples

  const DEFER_UPPER_BOUND_NS: u64 := 1_000_000_000
  const RESLICE_MIN_NS: u64 := 250_000

  datatype Bucket = Bucket(link: Option<nat>, tokens: u64, lastRefill: u64, deferStarted: u64, defers: u32)

  const FRESH_BUCKET := Bucket(None, 0, 0, 0, 0)

  datatype Action = Defer(tokens: u64) | Reslice(slice: u64, tokens: u64)

  /** The policy as the bucket sees it. */
  datatype Setting = Setting(snapshots: bool, throttle: bool, slice: u64, capacity: u64, divisor: u64)

  type Knobs = k: Setting | 0 < k.slice <= k.capacity && 0 < k.divisor witness Setting(true, true, 1, 1, 1)

  function KnobsOf(cfg: Policy): (k: Knobs)
  {
    var slice: u64 := Max(cfg.villainResliceNs, RESLICE_MIN_NS);
    var bursts: u64 := Max(cfg.tickDeferMax, 1);
    assert slice * bursts >= slice;
    var divisor: u64 := SatMul64(Max(cfg.villainRefillDivisor, 1), Max(cfg.tickReevalEvery, 1));
    Setting(cfg.signatureSnapshots, cfg.villainThrottle, slice, SatMul64(slice, bursts), Max(divisor, 1))
  }

  // ----- one call -----

  function Refilled(b: Bucket, link: nat, now: u64, k: Knobs): Bucket {
    if b.link != Some(link) || b.lastRefill == 0 then Bucket(Some(link), k.capacity, now, 0, 0)
    else
      var refill := SatSub(now, b.lastRefill) / k.divisor;
      b.(tokens := Min(SatAdd64(b.tokens, refill), k.capacity), lastRefill := now)
  }

  function Throttled(b: Bucket, link: nat, now: u64, k: Knobs): (Bucket, Action) {
    var f := Refilled(b, link, now, k);
    var slice := k.slice;
    if f.tokens >= slice then
      (f.(tokens := f.tokens - slice, deferStarted := 0, defers := 0), Reslice(slice, f.tokens - slice))
    else
      var started := if f.deferStarted == 0 then now else f.deferStarted;
      if SatSub(now, started) >= DEFER_UPPER_BOUND_NS then
        (f.(tokens := 0, deferStarted := 0, defers := 0), Reslice(slice, 0))
      else
        (f.(deferStarted := started, defers := SatAdd32(f.defers, 1)), Defer(f.tokens))
  }

  /** One request of a thread: the link it is currently the villain of, if any, and whether a tick asked. */
  datatype Call = Call(villain: Option<nat>, tick: bool, now: u64)

  predicate Acts(c: Call, k: Knobs) {
    k.snapshots && k.throttle && c.tick && c.villain.Some?
  }

  predicate Clears(c: Call, k: Knobs) { c.villain.None? || !k.throttle }

  function Handled(b: Bucket, c: Call, k: Knobs): (Bucket, Option<Action>) {
    var r := if Clears(c, k) then FRESH_BUCKET else b;
    if Acts(c, k) then
      var (b', a) := Throttled(r, c.villain.value, c.now, k);
      (b', Some(a))
    else (r, None)
  }

  // ----- runs -----

  ghost function After(b: Bucket, calls: seq<Call>, k: Knobs): Bucket {
    if calls == [] then b else Handled(After(b, calls[..|calls| - 1], k), calls[|calls| - 1], k).0
  }

  ghost function LastAction(b: Bucket, calls: seq<Call>, k: Knobs): Option<Action>
    requires calls != []
  {
    Handled(After(b, calls[..|calls| - 1], k), calls[|calls| - 1], k).1
  }

  ghost predicate Monotone(calls: seq<Call>) {
    && (forall i :: 0 <= i < |calls| ==> calls[i].now > 0)
    && (forall i, j :: 0 <= i < j < |calls| ==> calls[i].now <= calls[j].now)
  }

  /** The call bought its slice with tokens. */
  ghost predicate Pays(b: Bucket, c: Call, k: Knobs) {
    Acts(c, k) && Refilled(if Clears(c, k) then FRESH_BUCKET else b, c.villain.value, c.now, k).tokens >= k.slice
  }

  /** The call got a slice it could not pay for. */
  ghost predicate Forced(b: Bucket, c: Call, k: Knobs) {
    Acts(c, k) && Handled(b, c, k).1.value.Reslice? && !Pays(b, c, k)
  }

  /** Slice time bought over a run. */
  ghost function Paid(b: Bucket, calls: seq<Call>, k: Knobs): nat {
    if calls == [] then 0 else
      var init := calls[..|calls| - 1];
      Paid(b, init, k) + if Pays(After(b, init, k), calls[|calls| - 1], k) then k.slice else 0
  }

  /** Slices handed out by the watchdog over a run. */
  ghost function ForcedCount(b: Bucket, calls: seq<Call>, k: Knobs): nat {
    if calls == [] then 0 else
      var init := calls[..|calls| - 1];
      ForcedCount(b, init, k) + if Forced(After(b, init, k), calls[|calls| - 1], k) then 1 else 0
  }

  ghost predicate OnLink(calls: seq<Call>, link: nat) {
    forall i :: 0 <= i < |calls| ==> calls[i].villain == Some(link)
  }

  ghost predicate SomeActs(calls: seq<Call>, k: Knobs) {
    exists i :: 0 <= i < |calls| && Acts(calls[i], k)
  }

  /** Refill accrued over a stretch of time. */
  ghost function Accrued(from: nat, to: nat, k: Knobs): nat
    requires from <= to
  {
    (to - from) / k.divisor
  }

  lemma AccruedSplits(x: nat, y: nat, z: nat, k: Knobs)
    requires x <= y <= z
    ensures Accrued(x, y, k) + Accrued(y, z, k) <= Accrued(x, z, k)
  {
    FloorsAdd(y - x, z - y, k.divisor);
  }

  lemma FirstCallSpends(b: Bucket, c: Call, k: Knobs, link: nat)
    requires Acts(c, k) && c.villain == Some(link)
    ensures var s := Handled(b, c, k).0;
            && s.link == Some(link) && s.lastRefill == c.now
            && (if Pays(b, c, k) then k.slice else 0) + s.tokens <= k.capacity
  {
  }

  lemma NextCallSpends(b: Bucket, c: Call, k: Knobs, link: nat)
    requires Acts(c, k) && c.villain == Some(link) && b.link == Some(link) && 0 < b.lastRefill <= c.now
    ensures var s := Handled(b, c, k).0;
            && s.link == Some(link) && s.lastRefill == c.now
            && (if Pays(b, c, k) then k.slice else 0) + s.tokens <= b.tokens + Accrued(b.lastRefill, c.now, k)
  {
  }

  /** What is spent and what is left never exceed the capacity and the accrued refill. */
  ghost predicate Conserved(b: Bucket, calls: seq<Call>, k: Knobs, link: nat)
    requires calls != []
  {
    var s := After(b, calls, k);
    if SomeActs(calls, k)
    then
      && s.link == Some(link) && calls[0].now <= s.lastRefill <= calls[|calls| - 1].now
      && Paid(b, calls, k) + s.tokens <= k.capacity + Accrued(calls[0].now, s.lastRefill, k)
    else Paid(b, calls, k) == 0
  }

  lemma SomeActsNext(init: seq<Call>, c: Call, k: Knobs)
    ensures SomeActs(init + [c], k) <==> SomeActs(init, k) || Acts(c, k)
  {
    var calls := init + [c];
    assert forall i :: 0 <= i < |init| ==> calls[i] == init[i];
    assert calls[|init|] == c;
  }

  /** A call that does not act leaves an account as it was. */
  lemma IdleCallKeeps(b: Bucket, c: Call, k: Knobs, link: nat)
    requires !Acts(c, k) && c.villain == Some(link) && k.snapshots && k.throttle
    ensures Handled(b, c, k).0 == b && !Pays(b, c, k)
  {
  }

  lemma AnotherCallConserves(b: Bucket, init: seq<Call>, c: Call, k: Knobs, link: nat)
    requires init != [] && SomeActs(init, k) && Conserved(b, init, k, link)
    requires c.villain == Some(link) && Monotone(init + [c])
    ensures Conserved(b, init + [c], k, link)
  {
    var calls, p := init + [c], After(b, init, k);
    SomeActsNext(init, c, k);
    assert calls[..|calls| - 1] == init && calls[|calls| - 1] == c && init[0] == calls[0] && init[|init| - 1] == calls[|init| - 1];
    if Acts(c, k) {
      NextCallSpends(p, c, k, link);
      AccruedSplits(calls[0].now, p.lastRefill, c.now, k);
    } else {
      IdleCallKeeps(p, c, k, link);
    }
  }

  lemma FirstCallConserves(b: Bucket, init: seq<Call>, c: Call, k: Knobs, link: nat)
    requires !SomeActs(init, k) && Paid(b, init, k) == 0 && c.villain == Some(link) && Monotone(init + [c])
    ensures Conserved(b, init + [c], k, link)
  {
    var calls := init + [c];
    SomeActsNext(init, c, k);
    assert calls[..|calls| - 1] == init && calls[|calls| - 1] == c;
    if Acts(c, k) {
      FirstCallSpends(After(b, init, k), c, k, link);
    }
  }

  lemma {:induction false} TokensAreConserved(b: Bucket, calls: seq<Call>, k: Knobs, link: nat)
    requires calls != [] && OnLink(calls, link) && Monotone(calls)
    ensures Conserved(b, calls, k, link)
  {
    var init, c := calls[..|calls| - 1], calls[|calls| - 1];
    assert calls == init + [c];
    if init != [] {
      TokensAreConserved(b, init, k, link);
    }
    if SomeActs(init, k) {
      AnotherCallConserves(b, init, c, k, link);
    } else {
      FirstCallConserves(b, init, c, k, link);
    }
  }

  /** A thread that is the villain of one link buys at most the capacity plus its share of the elapsed time. */
  lemma RateBound(b: Bucket, calls: seq<Call>, k: Knobs, link: nat)
    requires calls != [] && OnLink(calls, link) && Monotone(calls)
    ensures Paid(b, calls, k) <= k.capacity + (calls[|calls| - 1].now - calls[0].now) / k.divisor
  {
    TokensAreConserved(b, calls, k, link);
    if SomeActs(calls, k) {
      AccruedSplits(calls[0].now, After(b, calls, k).lastRefill, calls[|calls| - 1].now, k);
    }
    DivisionGrows(0, calls[|calls| - 1].now - calls[0].now, k.divisor);
  }

  /** Over any interleaving, the watchdog hands out at most one slice per full second elapsed. */
  lemma {:induction false} WatchdogBound(b: Bucket, calls: seq<Call>, k: Knobs)
    requires calls != [] && Monotone(calls) && b.deferStarted == 0
    ensures var s, last := After(b, calls, k), calls[|calls| - 1].now;
            && s.deferStarted <= last
            && calls[0].now + ForcedCount(b, calls, k) * DEFER_UPPER_BOUND_NS
               <= (if s.deferStarted == 0 then last else s.deferStarted)
    ensures ForcedCount(b, calls, k) <= (calls[|calls| - 1].now - calls[0].now) / DEFER_UPPER_BOUND_NS
  {
    var init, c := calls[..|calls| - 1], calls[|calls| - 1];
    if init != [] {
      assert forall i :: 0 <= i < |init| ==> calls[i] == init[i];
      WatchdogBound(b, init, k);
    }
  }

  // ----- deferral streaks -----

  /** The link of the last acting call since the villain was last cleared. */
  ghost function LastLink(calls: seq<Call>, k: Knobs): Option<nat> {
    if calls == [] then None else
      var init, c := calls[..|calls| - 1], calls[|calls| - 1];
      if Clears(c, k) then None else if Acts(c, k) then c.villain else LastLink(init, k)
  }

  /**
   * The times of the deferrals in the current unbroken streak: a slice, a cleared villain or another
   * link breaks it, and a call that is not a tick does not.
   */
  ghost function Streak(calls: seq<Call>, k: Knobs): seq<u64> {
    if calls == [] then [] else
      var init, c := calls[..|calls| - 1], calls[|calls| - 1];
      if Clears(c, k) then []
      else match LastAction(FRESH_BUCKET, calls, k)
        case None => Streak(init, k)
        case Some(Reslice(_, _)) => []
        case Some(Defer(_)) => (if LastLink(init, k) == c.villain then Streak(init, k) else []) + [c.now]
  }

  /**
   * The counter is the streak's length, and every deferral of a streak comes less than a second after
   * its first one.
   */
  lemma {:induction false} DeferralIsBounded(calls: seq<Call>, k: Knobs)
    requires Monotone(calls)
    ensures var s, d := After(FRESH_BUCKET, calls, k), Streak(calls, k);
            && s.defers == Min(|d|, U32_MAX)
            && s.link == LastLink(calls, k)
            && (if d == [] then s.deferStarted == 0 else s.deferStarted == d[0] > 0)
            && (s.link.Some? ==> s.lastRefill > 0)
            && forall j :: 0 <= j < |d| ==> d[0] <= d[j] < d[0] + DEFER_UPPER_BOUND_NS && d[j] <= calls[|calls| - 1].now
    ensures calls != [] && LastAction(FRESH_BUCKET, calls, k).Some? && LastAction(FRESH_BUCKET, calls, k).value.Defer? ==>
              && |Streak(calls, k)| >= 1
              && calls[|calls| - 1].now - Streak(calls, k)[0] < DEFER_UPPER_BOUND_NS
  {
    if calls != [] {
      var init := calls[..|calls| - 1];
      assert Monotone(init);
      DeferralIsBounded(init, k);
    }
  }

  /** Moving to another link starts with a full bucket, so it never defers. */
  lemma FreshLinkIsServed(b: Bucket, c: Call, k: Knobs)
    requires Acts(c, k) && b.link != c.villain
    ensures Handled(b, c, k).1.value.Reslice? && Pays(b, c, k)
  {
  }

  // ----- the throttle fields of a managed thread -----

  class ThrottleEntry {
    var link: Option<nat>
    var tokens: u64
    var lastRefill: u64
    var deferStarted: u64
    var consecutiveDefers: u32

    ghost function Value(): Bucket
      reads this
    {
      Bucket(link, tokens, lastRefill, deferStarted, consecutiveDefers)
    }

    constructor ()
      ensures Value() == FRESH_BUCKET
    {
      link, tokens, lastRefill, deferStarted, consecutiveDefers := None, 0, 0, 0, 0;
    }

    method Reset()
      modifies this
      ensures Value() == FRESH_BUCKET
    {
      link, tokens, lastRefill, deferStarted, consecutiveDefers := None, 0, 0, 0, 0;
    }

    method Refill(linkId: nat, now: u64, cfg: Policy)
      modifies this
      ensures Value() == Refilled(old(Value()), linkId, now, KnobsOf(cfg))
    {
      var capacity := KnobsOf(cfg).capacity;
      if link != Some(linkId) || lastRefill == 0 {
        link, tokens, lastRefill := Some(linkId), capacity, now;
        deferStarted, consecutiveDefers := 0, 0;
        return;
      }
      var refill := SatSub(now, lastRefill) / KnobsOf(cfg).divisor;
      tokens := Min(SatAdd64(tokens, refill), capacity);
      lastRefill := now;
    }

    method ApplyThrottle(linkId: nat, now: u64, cfg: Policy) returns (a: Action)
      modifies this
      ensures Throttled(old(Value()), linkId, now, KnobsOf(cfg)) == (Value(), a)
    {
      Refill(linkId, now, cfg);
      var slice := KnobsOf(cfg).slice;
      if tokens >= slice {
        tokens := SatSub(tokens, slice);
        deferStarted, consecutiveDefers := 0, 0;
        a := Reslice(slice, tokens);
      } else {
        if deferStarted == 0 {
          deferStarted := now;
        }
        if SatSub(now, deferStarted) >= DEFER_UPPER_BOUND_NS {
          tokens, deferStarted, consecutiveDefers := 0, 0, 0;
          return Reslice(slice, tokens);
        }
        consecutiveDefers := SatAdd32(consecutiveDefers, 1);
        a := Defer(tokens);
      }
    }

    method MaybeApply(c: Call, cfg: Policy) returns (a: Option<Action>)
      modifies this
      ensures Handled(old(Value()), c, KnobsOf(cfg)) == (Value(), a)
    {
      if c.villain.None? || !cfg.villainThrottle {
        Reset();
      }
      if !(cfg.signatureSnapshots && cfg.villainThrottle && c.tick) || c.villain.None? {
        return None;
      }
      var action := ApplyThrottle(c.villain.value, c.now, cfg);
      a := Some(action);
    }
  }
}
