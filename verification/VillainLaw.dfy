/** What a latch does in a round, as it follows from the latch and the inputs alone. */
module VillainLaw {
  import opened Machine
  import opened Samples
  import opened Contenders
  import opened VillainLatch

  // ----- the four things that can happen -----

  ghost predicate IsHeld(l: Latch) { l.contender.Some? }

  /** The villain's thread has not been seen since the cutoff. */
  ghost predicate Dies(l: Latch, c: Call) {
    l.contender.Some? && (l.contender.value.tid !in c.lastSeen || c.lastSeen[l.contender.value.tid] < c.cutoff)
  }

  /** The clear samples counted, this round's included if it is another one than the last. */
  ghost function Cleared(l: Latch, c: Call, i: nat): u32 {
    if c.SampleTs(i) != 0 && c.SampleTs(i) != l.lastClearTs then SatAdd32(l.clearSamples, 1) else l.clearSamples
  }

  /** A live sample shows no overload, and with it enough clear samples have been seen. */
  ghost predicate Clears(l: Latch, c: Call, i: nat) {
    && IsHeld(l) && !Dies(l, c) && c.Sample(i).Some? && c.Overload(i) == 0
    && Cleared(l, c, i) >= Max(c.cfg.villainReleaseSamples, 1)
  }

  /** The hold is over, and nothing else ended it. */
  ghost predicate RunsOut(l: Latch, c: Call, i: nat) { IsHeld(l) && !Dies(l, c) && !Clears(l, c, i) && c.now >= l.holdUntil }

  /** There is a newcomer, and the latch is free for it: empty, dead or run out, but not just released. */
  ghost predicate Takes(l: Latch, c: Call, i: nat) { c.Newcomer(i).Some? && (!IsHeld(l) || Dies(l, c) || RunsOut(l, c, i)) }

  /** Nothing ends the hold. */
  ghost predicate Stays(l: Latch, c: Call, i: nat) { IsHeld(l) && !Dies(l, c) && !Clears(l, c, i) && !RunsOut(l, c, i) }

  /** A kept hold that a sample not yet logged was seen for. */
  ghost predicate Logs(l: Latch, c: Call, i: nat) {
    Stays(l, c, i) && c.SampleTs(i) != 0 && c.SampleTs(i) != l.lastHoldLogTs
  }

  /** The latch a round leaves behind. */
  ghost predicate Leaves(l: Latch, epoch: u64, c: Call, i: nat, after: Latch) {
    if Takes(l, c, i) then
      && after.contender == c.Newcomer(i) && after.holdUntil == SatAdd64(c.now, Max(c.cfg.villainSettleNs, 1))
      && after.clearSamples == 0 && after.lastClearTs == 0 && after.epoch == SatAdd64(epoch, 1)
    else if Stays(l, c, i) then
      && after.contender == l.contender && after.holdUntil == l.holdUntil && after.epoch == l.epoch
      && after.clearSamples == (if c.Sample(i).None? then l.clearSamples else if c.Overload(i) > 0 then 0 else Cleared(l, c, i))
      && after.lastClearTs == (if c.Sample(i).None? then l.lastClearTs else if c.Overload(i) > 0 then 0 else c.SampleTs(i))
    else after == CLEAR_LATCH || (!IsHeld(l) && after == l)
  }

  lemma EventIs(events: seq<Event>, e: Event, a: Action)
    requires events == [e] && e.action == a
    ensures forall x :: x in events ==> x == e
    ensures e in events
  {
  }

  /** A latch acquires, releases, expires and is invalidated exactly when its state and the inputs say so. */
  lemma ActionsExactlyWhen(l: Latch, epoch: u64, c: Call, i: nat)
    ensures var s := LinkStep(l, epoch, c, i);
            && (Emits(s, Invalid) <==> Dies(l, c)) && (Emits(s, Release) <==> Clears(l, c, i))
            && (Emits(s, Expire) <==> RunsOut(l, c, i)) && (Emits(s, Acquire) <==> Takes(l, c, i))
            && (Emits(s, Hold) <==> Logs(l, c, i))
            && Leaves(l, epoch, c, i, s.latch) && s.effective == s.latch.contender
  {
    if l.contender.None? {
      EmptyActs(l, epoch, c, i);
    } else {
      HeldActs(l, epoch, c, i);
    }
  }

  lemma EmptyActs(l: Latch, epoch: u64, c: Call, i: nat)
    requires l.contender.None?
    ensures var s := LinkStep(l, epoch, c, i);
            && !Emits(s, Invalid) && !Emits(s, Release) && !Emits(s, Expire) && !Emits(s, Hold) && (Emits(s, Acquire) <==> Takes(l, c, i))
            && Leaves(l, epoch, c, i, s.latch) && s.effective == s.latch.contender
  {
    AcquiringEmits(l, epoch, c, i, []);
  }

  /** What an ended hold does: it logs its end, and takes a newcomer. */
  lemma EndedActs(epoch: u64, c: Call, i: nat, e: Event, a: Action)
    requires e.action == a && a != Acquire
    ensures var s := Acquiring(CLEAR_LATCH, epoch, c, i, [e]);
            && Emits(s, a) && (forall b :: b != a && b != Acquire ==> !Emits(s, b)) && (Emits(s, Acquire) <==> c.Newcomer(i).Some?)
  {
    AcquiringEmits(CLEAR_LATCH, epoch, c, i, [e]);
    assert e in [e];
  }

  lemma HeldActs(l: Latch, epoch: u64, c: Call, i: nat)
    requires l.contender.Some?
    ensures var s := LinkStep(l, epoch, c, i);
            && (Emits(s, Invalid) <==> Dies(l, c)) && (Emits(s, Release) <==> Clears(l, c, i))
            && (Emits(s, Expire) <==> RunsOut(l, c, i)) && (Emits(s, Acquire) <==> Takes(l, c, i))
            && (Emits(s, Hold) <==> Logs(l, c, i))
            && Leaves(l, epoch, c, i, s.latch) && s.effective == s.latch.contender
  {
    LiveSampleHasTime(c, i);
    var v, l' := l.contender.value, CountClear(l, c.SampleTs(i));
    var s := LinkStep(l, epoch, c, i);
    if Dies(l, c) {
      EndedActs(epoch, c, i, c.Note(Invalid, i, l, v), Invalid);
    } else if Clears(l, c, i) {
      EventIs(s.events, c.Note(Release, i, l', v), Release);
    } else if RunsOut(l, c, i) {
      if c.Sample(i).Some? && c.Overload(i) == 0 {
        EndedActs(epoch, c, i, c.Note(Expire, i, l', v), Expire);
      } else {
        EndedActs(epoch, c, i, c.Note(Expire, i, l, v), Expire);
      }
    } else if Logs(l, c, i) {
      EventIs(s.events, s.events[0], Hold);
    }
  }

  // ----- over a run -----

  /** In any round of any run, each link's latch does what its state and the inputs say, and the latched contender is reported. */
  lemma RoundActs(calls: seq<Call>, c: Call, i: nat)
    requires c.cfg.villainThrottle && i < c.LinkCount()
    ensures var ctl, o := After(calls), Next(After(calls), c);
            && After(calls + [c]) == o.ctl
            && Leaves(LatchAt(ctl.links, i), EpochBefore(ctl, c, i), c, i, LatchAt(o.ctl.links, i))
            && o.effective[i] == LatchAt(o.ctl.links, i).contender
  {
    assert (calls + [c])[..|calls|] == calls;
    NextIsLinkwise(After(calls), c, i);
    ActionsExactlyWhen(LatchAt(After(calls).links, i), EpochBefore(After(calls), c, i), c, i);
  }

  /** Whatever the run so far, an empty latch takes the round's newcomer and reports it. */
  lemma EmptyLatchAcquires(calls: seq<Call>, c: Call, i: nat)
    requires c.cfg.villainThrottle && i < c.LinkCount() && LatchAt(After(calls).links, i).contender.None?
    ensures LatchAt(After(calls + [c]).links, i).contender == Next(After(calls), c).effective[i] == c.Newcomer(i)
  {
    RoundActs(calls, c, i);
  }

  /** A villain that is alive, not cleared and not out of time stays, whoever else comes. */
  lemma HeldVillainStays(calls: seq<Call>, c: Call, i: nat)
    requires c.cfg.villainThrottle && i < c.LinkCount() && Stays(LatchAt(After(calls).links, i), c, i)
    ensures LatchAt(After(calls + [c]).links, i).contender == Next(After(calls), c).effective[i] == LatchAt(After(calls).links, i).contender
  {
    RoundActs(calls, c, i);
  }

  /** With throttling off every latch is dropped, and each link reports the newcomer of the round. */
  lemma OffReportsNewcomers(calls: seq<Call>, c: Call, i: nat)
    requires !c.cfg.villainThrottle
    ensures LatchAt(After(calls + [c]).links, i).contender.None?
    ensures i < c.LinkCount() ==> Next(After(calls), c).effective[i] == c.Newcomer(i)
  {
    assert (calls + [c])[..|calls|] == calls;
  }

  /** Where there is a newcomer, only a release leaves the latch empty. */
  lemma EmptyOnlyAfterRelease(calls: seq<Call>, c: Call, i: nat)
    requires c.cfg.villainThrottle && i < c.LinkCount() && c.Newcomer(i).Some?
    ensures LatchAt(After(calls + [c]).links, i).contender.None? <==> Clears(LatchAt(After(calls).links, i), c, i)
  {
    RoundActs(calls, c, i);
  }
}
