/** The latch that holds a link's villain through gaps in the evidence. */
module VillainLatch {
  import opened Machine
  import opened Samples
  import opened Contenders

  datatype Latch = Latch(
    contender: Option<LinkContender>, holdUntil: u64, clearSamples: u32,
    lastClearTs: u64, lastHoldLogTs: u64, epoch: u64)

  const CLEAR_LATCH := Latch(None, 0, 0, 0, 0, 0)

  datatype Action = Acquire | Hold | Release | Expire | Invalid

  datatype Event = Event(
    action: Action, link: nat, tid: nat, score: u32, overload: u32, sampleTs: u64,
    holdUntil: u64, clearSamples: u32, epoch: u64)

  /** One round of inputs. */
  datatype Call = Call(
    states: seq<Option<DfState>>, capacities: seq<Option<u32>>, newcomers: seq<Option<LinkContender>>,
    lastSeen: map<nat, u64>, cutoff: u64, now: u64, cfg: Policy)
  {
    function LinkCount(): nat { Min(|states|, MAX_DOMAINS) }

    function Sample(i: nat): Option<DfState> { LiveSample(states, i, now, cfg) }

    function SampleTs(i: nat): u64 { if Sample(i).Some? then Sample(i).value.sampleTs else 0 }

    function Overload(i: nat): u32 { LiveOverload(states, capacities, i, now, cfg) }

    function Newcomer(i: nat): Option<LinkContender> { Lookup(newcomers, i) }

    predicate Live(tid: nat) { tid in lastSeen && lastSeen[tid] >= cutoff }

    /** A live sample shows no overload. */
    predicate Cleared(i: nat) { i < LinkCount() && Sample(i).Some? && Overload(i) == 0 }

    /** A live sample shows overload. */
    predicate Overloaded(i: nat) { i < LinkCount() && Sample(i).Some? && Overload(i) > 0 }

    function Deadline(): u64 { SatAdd64(now, Max(cfg.villainSettleNs, 1)) }

    function Note(action: Action, i: nat, l: Latch, v: LinkContender): Event {
      Event(action, i, v.tid, v.score, Overload(i), SampleTs(i), l.holdUntil, l.clearSamples, l.epoch)
    }
  }

  // ----- one link, one round -----

  datatype Step = Step(latch: Latch, epoch: u64, effective: Option<LinkContender>, events: seq<Event>)

  /** An empty latch takes the fresh contender, if there is one. */
  function Acquiring(l: Latch, epoch: u64, c: Call, i: nat, events: seq<Event>): Step {
    match c.Newcomer(i)
    case None => Step(l, epoch, None, events)
    case Some(v) =>
      var l' := Latch(Some(v), c.Deadline(), 0, 0, c.SampleTs(i), SatAdd64(epoch, 1));
      Step(l', l'.epoch, Some(v), events + [c.Note(Acquire, i, l', v)])
  }

  /** A held latch reports its contender, and logs once per new sample. */
  function Holding(l: Latch, epoch: u64, c: Call, i: nat, v: LinkContender): Step {
    if c.SampleTs(i) != 0 && c.SampleTs(i) != l.lastHoldLogTs
    then Step(l.(lastHoldLogTs := c.SampleTs(i)), epoch, Some(v), [c.Note(Hold, i, l, v)])
    else Step(l, epoch, Some(v), [])
  }

  function CountClear(l: Latch, ts: u64): Latch {
    if ts != 0 && ts != l.lastClearTs then l.(clearSamples := SatAdd32(l.clearSamples, 1), lastClearTs := ts) else l
  }

  function LinkStep(l: Latch, epoch: u64, c: Call, i: nat): Step {
    match l.contender
    case None => Acquiring(l, epoch, c, i, [])
    case Some(v) =>
      if !c.Live(v.tid) then Acquiring(CLEAR_LATCH, epoch, c, i, [c.Note(Invalid, i, l, v)])
      else if c.Sample(i).Some? && c.Overload(i) == 0 then
        var l' := CountClear(l, c.SampleTs(i));
        if l'.clearSamples >= Max(c.cfg.villainReleaseSamples, 1) then
          Step(CLEAR_LATCH, epoch, None, [c.Note(Release, i, l', v)])
        else if c.now >= l'.holdUntil then Acquiring(CLEAR_LATCH, epoch, c, i, [c.Note(Expire, i, l', v)])
        else Holding(l', epoch, c, i, v)
      else if c.now >= l.holdUntil then Acquiring(CLEAR_LATCH, epoch, c, i, [c.Note(Expire, i, l, v)])
      else Holding(if c.Sample(i).Some? then l.(clearSamples := 0, lastClearTs := 0) else l, epoch, c, i, v)
  }

  predicate Ends(a: Action) { a.Invalid? || a.Release? || a.Expire? }

  ghost predicate Emits(s: Step, a: Action) { exists e :: e in s.events && e.action == a }

  ghost predicate EmitsEnd(s: Step) { exists e :: e in s.events && Ends(e.action) }

  /**
   * What one round may do to a latch: report exactly what stays latched; keep a contender only while
   * its thread is live and its deadline is ahead; give one up only with one ending event for it; and
   * acquire only what is fresh, never in the round of a release.
   */
  ghost predicate LawfulStep(l: Latch, epoch: u64, c: Call, i: nat, s: Step) {
    && s.effective == s.latch.contender
    && (forall e :: e in s.events ==> e.link == i && e.overload == c.Overload(i) && e.sampleTs == c.SampleTs(i))
    && (forall e :: e in s.events && Ends(e.action) ==>
          l.contender.Some? && e.tid == l.contender.value.tid && e.epoch == l.epoch)
    && (EmitsEnd(s) <==>
          l.contender.Some? && (s.latch.contender.None? || Emits(s, Acquire)))
    && (l.contender.Some? && !EmitsEnd(s) ==>
          && s.latch.contender == l.contender && s.latch.epoch == l.epoch && s.latch.holdUntil == l.holdUntil
          && c.now < l.holdUntil && c.Live(l.contender.value.tid))
    && (Emits(s, Invalid) <==> l.contender.Some? && !c.Live(l.contender.value.tid))
    && (Emits(s, Release) ==> c.Sample(i).Some? && c.Overload(i) == 0 && s.latch.contender.None?)
    && (Emits(s, Expire) ==> c.now >= l.holdUntil)
    && (Emits(s, Acquire) ==>
          && s.latch.contender == c.Newcomer(i) && s.latch.contender.Some? && s.latch.holdUntil == c.Deadline()
          && s.latch.clearSamples == 0 && s.epoch == s.latch.epoch == SatAdd64(epoch, 1))
    && (s.latch.contender.Some? && !Emits(s, Acquire) ==> l.contender.Some?)
    && (!Emits(s, Acquire) ==> s.epoch == epoch)
  }

  lemma AcquiringEmits(l: Latch, epoch: u64, c: Call, i: nat, events: seq<Event>)
    ensures var s := Acquiring(l, epoch, c, i, events);
            && (forall e :: e in events ==> e in s.events)
            && (forall e :: e in s.events ==> e in events || (e.action == Acquire && e.link == i))
            && (c.Newcomer(i).Some? ==> s.events == events + [c.Note(Acquire, i, s.latch, c.Newcomer(i).value)] && s.events[|events|] in s.events)
  {
  }

  lemma LinkStepLawful(l: Latch, epoch: u64, c: Call, i: nat)
    ensures LawfulStep(l, epoch, c, i, LinkStep(l, epoch, c, i))
  {
    var s := LinkStep(l, epoch, c, i);
    if l.contender.None? {
      AcquiringEmits(l, epoch, c, i, []);
    } else {
      var v := l.contender.value;
      var l' := CountClear(l, c.SampleTs(i));
      if !c.Live(v.tid) {
        AcquiringEmits(CLEAR_LATCH, epoch, c, i, [c.Note(Invalid, i, l, v)]);
        assert c.Note(Invalid, i, l, v) in s.events;
      } else if c.Sample(i).Some? && c.Overload(i) == 0 {
        if l'.clearSamples >= Max(c.cfg.villainReleaseSamples, 1) {
          assert s.events[0] in s.events;
        } else if c.now >= l'.holdUntil {
          AcquiringEmits(CLEAR_LATCH, epoch, c, i, [c.Note(Expire, i, l', v)]);
          assert c.Note(Expire, i, l', v) in s.events;
        }
      } else if c.now >= l.holdUntil {
        AcquiringEmits(CLEAR_LATCH, epoch, c, i, [c.Note(Expire, i, l, v)]);
        assert c.Note(Expire, i, l, v) in s.events;
      }
    }
  }

  // ----- all links, one round -----

  datatype Ctl = Ctl(links: seq<Latch>, nextEpoch: u64)

  datatype Outcome = Outcome(ctl: Ctl, effective: seq<Option<LinkContender>>, events: seq<Event>)

  function LatchAt(links: seq<Latch>, i: nat): Latch {
    if i < |links| then links[i] else CLEAR_LATCH
  }

  function Resized(links: seq<Latch>, n: nat): (r: seq<Latch>)
    ensures |r| >= n
    ensures forall i: nat :: LatchAt(r, i) == LatchAt(links, i)
  {
    if |links| < n then links + seq(n - |links|, _ => CLEAR_LATCH) else links
  }

  /** An outcome extended by the step of the next link. */
  function Joined(o: Outcome, s: Step): Outcome
    requires |o.effective| < |o.ctl.links|
  {
    Outcome(Ctl(o.ctl.links[|o.effective| := s.latch], s.epoch), o.effective + [s.effective], o.events + s.events)
  }

  /** The first `k` links of the round, in order: they share one epoch counter. */
  function RoundUpTo(ctl: Ctl, c: Call, k: nat): (o: Outcome)
    requires k <= |ctl.links|
    ensures |o.ctl.links| == |ctl.links| && |o.effective| == k
  {
    if k == 0 then Outcome(ctl, [], []) else
      var o := RoundUpTo(ctl, c, k - 1);
      Joined(o, LinkStep(o.ctl.links[k - 1], o.ctl.nextEpoch, c, k - 1))
  }

  function Next(ctl: Ctl, c: Call): Outcome {
    if !c.cfg.villainThrottle
    then Outcome(Ctl(seq(|ctl.links|, _ => CLEAR_LATCH), ctl.nextEpoch), seq(c.LinkCount(), i requires 0 <= i => c.Newcomer(i)), [])
    else RoundUpTo(Ctl(Resized(ctl.links, c.LinkCount()), ctl.nextEpoch), c, c.LinkCount())
  }

  /** The epoch counter that the links before `i` leave behind in a round. */
  function EpochBefore(ctl: Ctl, c: Call, i: nat): u64
    requires i < c.LinkCount()
  {
    RoundUpTo(Ctl(Resized(ctl.links, c.LinkCount()), ctl.nextEpoch), c, i).ctl.nextEpoch
  }

  /** The step the round takes on link `i`. */
  function StepAt(ctl: Ctl, c: Call, i: nat): Step
    requires i < c.LinkCount()
  {
    LinkStep(LatchAt(ctl.links, i), EpochBefore(ctl, c, i), c, i)
  }

  /** Link `i` of a round does its own step, and its events are exactly that step's events. */
  ghost predicate TakesStep(o: Outcome, i: nat, s: Step) {
    && i < |o.ctl.links| && i < |o.effective|
    && o.ctl.links[i] == s.latch && o.effective[i] == s.effective == s.latch.contender
    && forall e :: e in s.events <==> e in o.events && e.link == i
  }

  /** Every event so far is of a link already visited. */
  ghost predicate OnlyVisited(o: Outcome) { forall e :: e in o.events ==> e.link < |o.effective| }

  lemma JoiningTakesStep(o: Outcome, s: Step, i: nat, t: Step)
    requires |o.effective| < |o.ctl.links| && OnlyVisited(o) && s.effective == s.latch.contender
    requires forall e :: e in s.events ==> e.link == |o.effective|
    requires i < |o.effective| ==> TakesStep(o, i, t)
    ensures OnlyVisited(Joined(o, s)) && TakesStep(Joined(o, s), |o.effective|, s)
    ensures i < |o.effective| ==> TakesStep(Joined(o, s), i, t)
  {
  }

  lemma StepIsLocal(l: Latch, epoch: u64, c: Call, i: nat)
    ensures var s := LinkStep(l, epoch, c, i); s.effective == s.latch.contender && forall e :: e in s.events ==> e.link == i
  {
    LinkStepLawful(l, epoch, c, i);
  }

  lemma {:induction false} RoundIsLinkwise(ctl: Ctl, c: Call, k: nat, i: nat)
    requires k <= c.LinkCount() <= |ctl.links|
    ensures i < k ==> TakesStep(RoundUpTo(ctl, c, k), i, LinkStep(ctl.links[i], RoundUpTo(ctl, c, i).ctl.nextEpoch, c, i))
    ensures k <= i < |ctl.links| ==> RoundUpTo(ctl, c, k).ctl.links[i] == ctl.links[i]
    ensures OnlyVisited(RoundUpTo(ctl, c, k))
  {
    if k > 0 {
      RoundIsLinkwise(ctl, c, k - 1, i);
      RoundIsLinkwise(ctl, c, k - 1, k - 1);
      var o := RoundUpTo(ctl, c, k - 1);
      var s := LinkStep(o.ctl.links[k - 1], o.ctl.nextEpoch, c, k - 1);
      StepIsLocal(o.ctl.links[k - 1], o.ctl.nextEpoch, c, k - 1);
      JoiningTakesStep(o, s, i, if i < k - 1 then LinkStep(ctl.links[i], RoundUpTo(ctl, c, i).ctl.nextEpoch, c, i) else s);
    }
  }

  /** A round is its per-link steps: nothing else changes, is reported, or is logged. */
  lemma NextIsLinkwise(ctl: Ctl, c: Call, i: nat)
    requires c.cfg.villainThrottle
    ensures |Next(ctl, c).effective| == c.LinkCount()
    ensures i < c.LinkCount() ==> TakesStep(Next(ctl, c), i, StepAt(ctl, c, i))
    ensures i < c.LinkCount() ==> LawfulStep(LatchAt(ctl.links, i), EpochBefore(ctl, c, i), c, i, StepAt(ctl, c, i))
    ensures c.LinkCount() <= i ==> LatchAt(Next(ctl, c).ctl.links, i) == LatchAt(ctl.links, i)
    ensures forall e :: e in Next(ctl, c).events ==> e.link < c.LinkCount()
  {
    var resized := Ctl(Resized(ctl.links, c.LinkCount()), ctl.nextEpoch);
    assert LatchAt(resized.links, i) == LatchAt(ctl.links, i);
    RoundIsLinkwise(resized, c, c.LinkCount(), i);
    if i < c.LinkCount() {
      LinkStepLawful(LatchAt(ctl.links, i), EpochBefore(ctl, c, i), c, i);
    }
  }

  // ----- whole runs -----

  ghost predicate Enabled(calls: seq<Call>) {
    forall n :: 0 <= n < |calls| ==> calls[n].cfg.villainThrottle
  }

  ghost function After(calls: seq<Call>): Ctl {
    if calls == [] then Ctl([], 0) else Next(After(calls[..|calls| - 1]), calls[|calls| - 1]).ctl
  }

  /** The timestamps of the clear samples seen from round `s` on, repeats of the same sample dropped. */
  ghost function ClearTrace(calls: seq<Call>, i: nat, s: nat): seq<u64> {
    if |calls| <= s then [] else
      var init, last := ClearTrace(calls[..|calls| - 1], i, s), calls[|calls| - 1];
      if last.Cleared(i) && (init == [] || init[|init| - 1] != last.SampleTs(i)) then init + [last.SampleTs(i)] else init
  }

  ghost predicate SamplesAdvance(calls: seq<Call>, i: nat) {
    forall m, n :: 0 <= m < n < |calls| && calls[m].Cleared(i) && calls[n].Cleared(i) ==>
                     calls[m].SampleTs(i) <= calls[n].SampleTs(i)
  }

  ghost predicate SeenClear(calls: seq<Call>, i: nat, s: nat, ts: u64) {
    exists n :: s <= n < |calls| && calls[n].Cleared(i) && calls[n].SampleTs(i) == ts
  }

  /** With a forward-moving sampler, the trace counts distinct samples. */
  lemma {:induction false} ClearTraceIsDistinct(calls: seq<Call>, i: nat, s: nat)
    requires SamplesAdvance(calls, i)
    ensures forall j, k :: 0 <= j < k < |ClearTrace(calls, i, s)| ==> ClearTrace(calls, i, s)[j] < ClearTrace(calls, i, s)[k]
    ensures forall j :: 0 <= j < |ClearTrace(calls, i, s)| ==> SeenClear(calls, i, s, ClearTrace(calls, i, s)[j])
  {
    if |calls| > s {
      var init, last := calls[..|calls| - 1], calls[|calls| - 1];
      var t := ClearTrace(init, i, s);
      assert SamplesAdvance(init, i);
      ClearTraceIsDistinct(init, i, s);
      forall j | 0 <= j < |t| ensures SeenClear(calls, i, s, t[j]) && (last.Cleared(i) ==> t[j] <= last.SampleTs(i)) {
        assert SeenClear(init, i, s, t[j]);
        var n :| s <= n < |init| && init[n].Cleared(i) && init[n].SampleTs(i) == t[j];
        assert calls[n].Cleared(i) && calls[n].SampleTs(i) == t[j];
      }
    }
  }

  /** The latch of link `i` after these rounds was acquired in round `a`, and has counted clear samples since round `s`. */
  ghost predicate Tenure(calls: seq<Call>, i: nat, l: Latch, a: nat, s: nat) {
    && a < s <= |calls|
    && i < calls[a].LinkCount()
    && l.contender.Some? && l.contender == calls[a].Newcomer(i) && l.holdUntil == calls[a].Deadline()
    && (forall m :: a < m < |calls| && i < calls[m].LinkCount() ==>
          calls[m].now < l.holdUntil && calls[m].Live(l.contender.value.tid))
    && (s == a + 1 || calls[s - 1].Overloaded(i))
    && (forall m :: s <= m < |calls| ==> !calls[m].Overloaded(i))
    && l.clearSamples == Min(|ClearTrace(calls, i, s)|, U32_MAX)
    && l.lastClearTs == var t := ClearTrace(calls, i, s); if t == [] then 0 else t[|t| - 1]
  }

  lemma LiveSampleHasTime(c: Call, i: nat)
    ensures c.Sample(i).Some? ==> c.SampleTs(i) != 0
    ensures c.Overload(i) > 0 ==> c.Sample(i).Some?
  {
  }

  /** A round that acquires opens a tenure. */
  lemma TenureOpens(calls: seq<Call>, c: Call, i: nat, s: Step)
    requires i < c.LinkCount() && s.latch.contender.Some? && s.latch.contender == c.Newcomer(i)
    requires s.latch.holdUntil == c.Deadline() && s.latch.clearSamples == 0 && s.latch.lastClearTs == 0
    ensures Tenure(calls + [c], i, s.latch, |calls|, |calls| + 1)
  {
  }

  /** A round that neither ends nor begins anything keeps the contender and counts what it sees. */
  ghost predicate Holds(l: Latch, c: Call, i: nat, kept: Latch) {
    && l.contender.Some? && kept.contender == l.contender && kept.holdUntil == l.holdUntil
    && c.now < l.holdUntil && c.Live(l.contender.value.tid)
    && (var counted := if c.Overloaded(i) then l.(clearSamples := 0, lastClearTs := 0)
                       else if c.Cleared(i) then CountClear(l, c.SampleTs(i)) else l;
        kept.clearSamples == counted.clearSamples && kept.lastClearTs == counted.lastClearTs)
  }

  lemma TenureKept(calls: seq<Call>, c: Call, i: nat, l: Latch, kept: Latch, a: nat, s: nat)
    requires i < c.LinkCount() && Tenure(calls, i, l, a, s) && Holds(l, c, i, kept)
    ensures Tenure(calls + [c], i, kept, a, if c.Overloaded(i) then |calls| + 1 else s)
  {
    var calls' := calls + [c];
    LiveSampleHasTime(c, i);
    assert calls'[..|calls|] == calls;
    assert ClearTrace(calls', i, |calls| + 1) == [];
  }

  lemma LinkStepHolds(l: Latch, epoch: u64, c: Call, i: nat)
    requires i < c.LinkCount() && l.contender.Some?
    ensures var s := LinkStep(l, epoch, c, i);
            s.latch.contender.Some? && !Emits(s, Acquire) ==> Holds(l, c, i, s.latch)
  {
    LinkStepLawful(l, epoch, c, i);
    LiveSampleHasTime(c, i);
  }

  lemma AcquiringStartsClear(l: Latch, epoch: u64, c: Call, i: nat)
    ensures var s := LinkStep(l, epoch, c, i);
            Emits(s, Acquire) ==> s.latch.lastClearTs == 0
    ensures l == CLEAR_LATCH || l.contender.Some? ==> LinkStep(l, epoch, c, i).latch.contender.None? ==> LinkStep(l, epoch, c, i).latch == CLEAR_LATCH
  {
  }

  /** One more round keeps the account of a tenure, or opens a new one. */
  lemma TenureStep(calls: seq<Call>, c: Call, i: nat, l: Latch, epoch: u64, a: nat, s: nat) returns (a': nat, s': nat)
    requires i < c.LinkCount()
    requires l.contender.Some? ==> Tenure(calls, i, l, a, s)
    requires l.contender.None? ==> l == CLEAR_LATCH
    ensures var l' := LinkStep(l, epoch, c, i).latch;
            if l'.contender.Some? then Tenure(calls + [c], i, l', a', s') else l' == CLEAR_LATCH
  {
    var step := LinkStep(l, epoch, c, i);
    LinkStepLawful(l, epoch, c, i);
    AcquiringStartsClear(l, epoch, c, i);
    a', s' := a, s;
    if Emits(step, Acquire) {
      TenureOpens(calls, c, i, step);
      a', s' := |calls|, |calls| + 1;
    } else if step.latch.contender.Some? {
      LinkStepHolds(l, epoch, c, i);
      TenureKept(calls, c, i, l, step.latch, a, s);
      s' := if c.Overloaded(i) then |calls| + 1 else s;
    }
  }

  lemma TenureIdle(calls: seq<Call>, c: Call, i: nat, l: Latch, a: nat, s: nat)
    requires c.LinkCount() <= i && Tenure(calls, i, l, a, s)
    ensures Tenure(calls + [c], i, l, a, s)
  {
    assert (calls + [c])[..|calls|] == calls;
  }

  /** Every latched villain has an account: who acquired it, when, and what has been seen since. */
  lemma {:induction false} LatchHistory(calls: seq<Call>, i: nat) returns (a: nat, s: nat)
    requires Enabled(calls)
    ensures var l := LatchAt(After(calls).links, i);
            if l.contender.Some? then Tenure(calls, i, l, a, s) else l == CLEAR_LATCH
  {
    a, s := 0, 0;
    if calls != [] {
      var init, c := calls[..|calls| - 1], calls[|calls| - 1];
      assert calls == init + [c];
      a, s := LatchHistory(init, i);
      var ctl := After(init);
      NextIsLinkwise(ctl, c, i);
      if i < c.LinkCount() {
        a, s := TenureStep(init, c, i, LatchAt(ctl.links, i), EpochBefore(ctl, c, i), a, s);
      } else if LatchAt(ctl.links, i).contender.Some? {
        TenureIdle(init, c, i, LatchAt(ctl.links, i), a, s);
      }
    }
  }

  /**
   * A release ends a tenure begun at round `a` only after the configured number of clear samples, each
   * different from the one before, with no overload sample since the first of them.
   */
  lemma ReleaseNeedsClearSamples(calls: seq<Call>, c: Call, i: nat) returns (a: nat, s: nat)
    requires Enabled(calls) && i < c.LinkCount()
    requires Emits(StepAt(After(calls), c, i), Release)
    ensures Tenure(calls, i, LatchAt(After(calls).links, i), a, s)
    ensures |ClearTrace(calls + [c], i, s)| >= Max(c.cfg.villainReleaseSamples, 1)
    ensures c.Cleared(i) && forall m :: s <= m < |calls| ==> !calls[m].Overloaded(i)
  {
    a, s := LatchHistory(calls, i);
    var ctl := After(calls);
    var l := LatchAt(ctl.links, i);
    LinkStepLawful(l, EpochBefore(ctl, c, i), c, i);
    LiveSampleHasTime(c, i);
    assert (calls + [c])[..|calls|] == calls;
    assert CountClear(l, c.SampleTs(i)).clearSamples >= Max(c.cfg.villainReleaseSamples, 1) by {
      var e :| e in StepAt(ctl, c, i).events && e.action == Release;
    }
  }

  /** Fed by the chooser on the same inputs, the latch acquires only victim links under live overload. */
  lemma AcquireUnderOverload(r: Round, c: Call, i: nat, l: Latch, epoch: u64)
    requires c.states == r.states && c.capacities == r.capacities && c.now == r.now && c.cfg == r.cfg
    requires |c.newcomers| == r.LinkCount() && forall j: nat :: j < |c.newcomers| ==> c.newcomers[j] == r.Fresh(j)
    requires Emits(LinkStep(l, epoch, c, i), Acquire)
    ensures c.Overloaded(i) && i in r.victims
    ensures forall e :: e in LinkStep(l, epoch, c, i).events && e.action == Acquire ==> e.overload > 0
  {
    LinkStepLawful(l, epoch, c, i);
    LiveSampleHasTime(c, i);
  }

  // ----- epochs -----

  /** Until the counter saturates, latched villains carry distinct epochs not above the counter. */
  ghost predicate EpochsDistinct(ctl: Ctl) {
    ctl.nextEpoch < U64_MAX ==>
      && (forall i :: 0 <= i < |ctl.links| && ctl.links[i].contender.Some? ==> ctl.links[i].epoch <= ctl.nextEpoch)
      && (forall i, j :: 0 <= i < j < |ctl.links| && ctl.links[i].contender.Some? && ctl.links[j].contender.Some? ==>
            ctl.links[i].epoch != ctl.links[j].epoch)
  }

  /** A link's new latch carries an epoch above all before it, or the old one. */
  lemma EpochsStay(ctl: Ctl, k: nat, latch: Latch, epoch: u64)
    requires k < |ctl.links| && EpochsDistinct(ctl) && ctl.nextEpoch <= epoch
    requires latch.contender.Some? ==>
               || latch.epoch == epoch == SatAdd64(ctl.nextEpoch, 1)
               || (ctl.links[k].contender.Some? && latch.epoch == ctl.links[k].epoch)
    ensures EpochsDistinct(Ctl(ctl.links[k := latch], epoch))
  {
  }

  lemma {:induction false} RoundKeepsEpochs(ctl: Ctl, c: Call, k: nat)
    requires k <= |ctl.links| && EpochsDistinct(ctl)
    ensures EpochsDistinct(RoundUpTo(ctl, c, k).ctl) && RoundUpTo(ctl, c, k).ctl.nextEpoch >= ctl.nextEpoch
  {
    if k > 0 {
      RoundKeepsEpochs(ctl, c, k - 1);
      var o := RoundUpTo(ctl, c, k - 1);
      var s := LinkStep(o.ctl.links[k - 1], o.ctl.nextEpoch, c, k - 1);
      LinkStepLawful(o.ctl.links[k - 1], o.ctl.nextEpoch, c, k - 1);
      EpochsStay(o.ctl, k - 1, s.latch, s.epoch);
    }
  }

  /** Distinct epochs tell tenures apart after every run. */
  lemma {:induction false} EpochsIdentifyVillains(calls: seq<Call>)
    requires Enabled(calls)
    ensures EpochsDistinct(After(calls))
  {
    if calls != [] {
      var init, c := calls[..|calls| - 1], calls[|calls| - 1];
      EpochsIdentifyVillains(init);
      RoundKeepsEpochs(Ctl(Resized(After(init).links, c.LinkCount()), After(init).nextEpoch), c, c.LinkCount());
    }
  }

  // ----- the controller object -----

  class CsVillainLatchController {
    var links: seq<Latch>
    var nextEpoch: u64

    ghost function Value(): Ctl
      reads this
    {
      Ctl(links, nextEpoch)
    }

    constructor ()
      ensures Value() == After([])
    {
      links, nextEpoch := [], 0;
    }

    /** Ends or holds the latch of one link; `settled` says that the round is over for the link. */
    method Reconsider(c: Call, i: nat)
      returns (effective: Option<LinkContender>, events: seq<Event>, settled: bool)
      requires i < |links|
      modifies this`links
      ensures |links| == |old(links)| && links == old(links)[i := links[i]]
      ensures var s := LinkStep(old(links[i]), nextEpoch, c, i);
              if settled then s == Step(links[i], nextEpoch, effective, events)
              else effective == None && s == Acquiring(links[i], nextEpoch, c, i, events)
    {
      effective, events, settled := None, [], false;
      var latch := links[i];
      if latch.contender.Some? {
        var v := latch.contender.value;
        var sample, overload := c.Sample(i), c.Overload(i);
        if !c.Live(v.tid) {
          events := [c.Note(Invalid, i, latch, v)];
          latch := CLEAR_LATCH;
        } else if sample.Some? && overload == 0 {
          if c.SampleTs(i) != 0 && c.SampleTs(i) != latch.lastClearTs {
            latch := latch.(clearSamples := SatAdd32(latch.clearSamples, 1));
            latch := latch.(lastClearTs := c.SampleTs(i));
          }
          if latch.clearSamples >= Max(c.cfg.villainReleaseSamples, 1) {
            events, settled := [c.Note(Release, i, latch, v)], true;
            latch := CLEAR_LATCH;
          } else if c.now >= latch.holdUntil {
            events := [c.Note(Expire, i, latch, v)];
            latch := CLEAR_LATCH;
          } else {
            effective, settled := Some(v), true;
          }
        } else if c.now >= latch.holdUntil {
          events := [c.Note(Expire, i, latch, v)];
          latch := CLEAR_LATCH;
        } else {
          if sample.Some? && overload > 0 {
            latch := latch.(clearSamples := 0, lastClearTs := 0);
          }
          effective, settled := Some(v), true;
        }
        if effective.Some? && c.SampleTs(i) != 0 && c.SampleTs(i) != latch.lastHoldLogTs {
          events := [c.Note(Hold, i, latch, v)];
          latch := latch.(lastHoldLogTs := c.SampleTs(i));
        }
      }
      links := links[i := latch];
    }

    method EffectiveVillains(c: Call) returns (effective: seq<Option<LinkContender>>, events: seq<Event>)
      modifies this
      ensures Next(old(Value()), c) == Outcome(Value(), effective, events)
    {
      if !c.cfg.villainThrottle {
        links := seq(|links|, _ => CLEAR_LATCH);
        effective := seq(c.LinkCount(), i requires 0 <= i => c.Newcomer(i));
        return effective, [];
      }
      links := Resized(links, c.LinkCount());
      effective, events := [], [];
      ghost var start := Value();
      var i := 0;
      while i < c.LinkCount()
        invariant 0 <= i <= c.LinkCount() <= |links| == |start.links|
        invariant RoundUpTo(start, c, i) == Outcome(Value(), effective, events)
      {
        ghost var before := Value();
        var villain, notes, settled := Reconsider(c, i);
        if !settled {
          if c.Newcomer(i).Some? {
            nextEpoch := SatAdd64(nextEpoch, 1);
            villain := c.Newcomer(i);
            var latch := Latch(villain, c.Deadline(), 0, 0, c.SampleTs(i), nextEpoch);
            notes := notes + [c.Note(Acquire, i, latch, villain.value)];
            links := links[i := latch];
          }
        }
        assert LinkStep(before.links[i], before.nextEpoch, c, i) == Step(links[i], nextEpoch, villain, notes);
        assert links == before.links[i := links[i]];
        effective, events := effective + [villain], events + notes;
        i := i + 1;
      }
    }
  }
}
