/** Who is charged for a change of a link, how much, and what the charge does to the evidence. */
module AttributionLaw {
  import opened Arithmetic
  import opened Machine
  import opened Ordered
  import opened Samples
  import opened Apportion
  import opened KeyedTotals
  import opened SweepTotals
  import opened EvidenceStore
  import opened Attribution
  import opened PendingPlan

  // ----- weights -----

  /** Traffic no smaller than the floor is measured against itself. */
  ghost function Base(baseline: u32): u32 { Max(baseline, WEIGHT_FLOOR) }

  /** A change of one and a half hundredths of the base, or more. */
  ghost predicate Counts(delta: int, baseline: u32) { 10_000 * Abs(delta) >= 150 * Base(baseline) }

  /** A weight is the change in ten-thousandths of the base, rounded down; too small a change has none. */
  lemma WeighsExactly(delta: int, baseline: u32)
    requires Abs(delta) <= U32_MAX
    ensures RelativeWeight(delta, baseline).Some? <==> Counts(delta, baseline)
    ensures RelativeWeight(delta, baseline).Some? ==>
              var w := RelativeWeight(delta, baseline).value;
              w * Base(baseline) <= 10_000 * Abs(delta) < (w + 1) * Base(baseline)
  {
    var n, d := 10_000 * Abs(delta), Base(baseline);
    var q := n / d;
    DivisionSplits(n, d);
    assert (q + 1) * d == q * d + d;
    assert q <= U32_MAX by {
      assert n < (U32_MAX + 1) * WEIGHT_FLOOR;
      MulKeepsOrder(WEIGHT_FLOOR, d, U32_MAX + 1);
      QuotientIsBelow(n, U32_MAX + 1, d);
    }
    if Counts(delta, baseline) {
      DivisionIsGreatest(n, 150, d);
    } else {
      QuotientIsBelow(n, 150, d);
    }
  }

  /** The first change is no smaller than the second, each relative to its base. */
  ghost predicate NoSmaller(d1: int, b1: u32, d2: int, b2: u32) { Abs(d1) * Base(b2) >= Abs(d2) * Base(b1) }

  /** A larger relative change never weighs less, and has a weight whenever the smaller one has. */
  lemma LargerChangeWeighsMore(d1: int, b1: u32, d2: int, b2: u32)
    requires Abs(d1) <= U32_MAX && Abs(d2) <= U32_MAX && NoSmaller(d1, b1, d2, b2) && RelativeWeight(d2, b2).Some?
    ensures RelativeWeight(d1, b1).Some? && RelativeWeight(d1, b1).value >= RelativeWeight(d2, b2).value
  {
    var w2 := RelativeWeight(d2, b2).value;
    WeighsExactly(d1, b1);
    WeighsExactly(d2, b2);
    CrossDivide(w2, Abs(d1), Base(b1), Abs(d2), Base(b2));
    CrossDivide(150, Abs(d1), Base(b1), Abs(d2), Base(b2));
    var w1 := RelativeWeight(d1, b1).value;
    if w1 < w2 {
      MulKeepsOrder(w1 + 1, w2, Base(b1));
    }
  }

  lemma CrossDivide(w: nat, x: nat, b: nat, y: nat, c: nat)
    requires b > 0 && c > 0 && x * c >= y * b && w * c <= 10_000 * y
    ensures w * b <= 10_000 * x
  {
    var wb := w * b;
    assert wb * c == (w * c) * b;
    MulKeepsOrder(w * c, 10_000 * y, b);
    assert (10_000 * y) * b == 10_000 * (y * b) && 10_000 * (x * c) == (10_000 * x) * c;
    CancelFactor(wb, 10_000 * x, c);
  }

  /** The thread was armed and is fresh, and its own traffic moved with the link, far enough to count. */
  ghost predicate MovedWith(s: Scales, source: Source, t: nat) {
    && t in s.armed && t in s.live && s.live[t].lastSeen >= s.cutoff
    && var was: int, now: int := Ingress(s.armed[t], source), Ingress(s.live[t].traffic, source);
       (if now > was then s.delta > 0 else s.delta < 0) && Counts(now - was, was)
  }

  lemma WeighsThoseThatMoved(s: Scales, source: Source, t: nat)
    ensures WeightOf(s, source, t).Some? <==> MovedWith(s, source, t)
  {
    if t in s.armed && t in s.live {
      var was: int, now: int := Ingress(s.armed[t], source), Ingress(s.live[t].traffic, source);
      WeighsExactly(now - was, was);
    }
  }

  lemma {:induction false} WeightsToHave(weigh: Weigher, order: seq<nat>, k: nat, i: nat)
    requires i < k <= |order| && weigh(order[i]).Some?
    ensures Weighted(order[i], weigh(order[i]).value) in WeightsTo(weigh, order, k)
  {
    if i < k - 1 {
      WeightsToHave(weigh, order, k - 1, i);
    }
  }

  ghost predicate Lists(ws: seq<Weighted>, t: nat) { exists w :: w in ws && w.tid == t }

  /** A source weighs exactly the threads that moved with the link. */
  lemma WeightsFromList(s: Scales, source: Source, t: nat)
    ensures Lists(WeightsFrom(s, source), t) <==> MovedWith(s, source, t)
  {
    var order, weigh := Ascending(s.armed.Keys), WeigherOf(s, source);
    WeighsThoseThatMoved(s, source, t);
    if MovedWith(s, source, t) {
      assert t in order;
      var i :| 0 <= i < |order| && order[i] == t;
      WeightsToHave(weigh, order, |order|, i);
    } else if Lists(WeightsFrom(s, source), t) {
      var w :| w in WeightsFrom(s, source) && w.tid == t;
      var i :| 0 <= i < |WeightsFrom(s, source)| && WeightsFrom(s, source)[i] == w;
      WeightsToAre(weigh, order, |order|, i);
    }
  }

  ghost predicate AnyMoved(s: Scales, source: Source) { exists t :: MovedWith(s, source, t) }

  /** The most specific source in which any thread moved. */
  ghost function Deciding(s: Scales): Source {
    if AnyMoved(s, DramNearFill) then DramNearFill else if AnyMoved(s, TotalFill) then TotalFill else L2
  }

  lemma EmptyIffNoneMoved(s: Scales, source: Source)
    ensures WeightsFrom(s, source) == [] <==> !AnyMoved(s, source)
  {
    var ws := WeightsFrom(s, source);
    if ws != [] {
      assert ws[0] in ws;
      assert Lists(ws, ws[0].tid);
      WeightsFromList(s, source, ws[0].tid);
    }
    if AnyMoved(s, source) {
      var t :| MovedWith(s, source, t);
      WeightsFromList(s, source, t);
    }
  }

  /** Those charged are exactly the threads that moved with the link, by the most specific source in which any did. */
  lemma WeightsListMovers(s: Scales, t: nat)
    ensures Lists(Weights(s), t) <==> MovedWith(s, Deciding(s), t)
  {
    EmptyIffNoneMoved(s, DramNearFill);
    EmptyIffNoneMoved(s, TotalFill);
    WeightsFromList(s, Deciding(s), t);
  }

  // ----- the charge -----

  /** Evidence moved a quarter of the way to a share, rounded down; the first share is taken as it is. */
  ghost predicate Toward(before: nat, share: nat, after: nat) {
    && Min(before, share) <= after <= Max(before, share)
    && (before == 0 ==> after == share)
    && (before > 0 ==> 4 * after <= 3 * before + share < 4 * after + 4)
    && (share < before ==> after < before)
    && (share >= before + 4 ==> after > before)
  }

  /** Evidence lowered by a sixteenth of a share, rounded up, as far as it goes. */
  ghost predicate Lessened(before: nat, share: nat, after: nat) {
    && after <= before
    && (after > 0 ==> 16 * (before - after) >= share > 16 * (before - after) - 16)
    && (after == 0 ==> 16 * before < share + 16)
    && (before > 0 && share > 0 ==> after < before)
  }

  /** A positive share of a rising link moves the evidence toward it, and of a falling link takes some away. */
  lemma ChargeMoves(e: Evidence, link: nat, linkCount: nat, share: nat, delta: int, now: u64)
    requires share > 0 && link < MAX_DOMAINS && link < |e.deltas|
    ensures var after := Charged(e, link, linkCount, share, delta, now);
            && after.valid && after.lastUpdate == now
            && (delta > 0 ==> Toward(e.On(link), share, after.On(link)))
            && (delta <= 0 ==> Lessened(e.On(link), share, after.On(link)))
  {
  }

  /** The totals of a signature are those of its links: their sum, and stability from two samples of enough confidence on. */
  ghost predicate BooksMatch(e: Evidence, linkCount: nat) {
    && e.projected == Min(SumTo(e.deltas, Min(|e.deltas|, Min(linkCount, 16))), U32_MAX)
    && (e.stable <==> e.sampleCount >= 2 && e.confidence >= 4_000)
  }

  lemma ProjectedIsSum(deltas: seq<nat>, linkCount: nat)
    ensures Projected(deltas, linkCount) == Min(SumTo(deltas, Min(|deltas|, Min(linkCount, 16))), U32_MAX)
  {
    var n := Min(|deltas|, Min(linkCount, 16));
    SatSumIsCapped(deltas[..n], n);
    SumOfPrefix(deltas[..n], deltas, n);
  }

  /** A charge and a decay both leave the books in order, and count one sample. */
  lemma WritesKeepBooks(e: Evidence, link: nat, linkCount: nat, share: nat, delta: int, value: nat, now: u64)
    requires share > 0 && link < MAX_DOMAINS
    ensures var c := Charged(e, link, linkCount, share, delta, now);
            BooksMatch(c, linkCount) && c.valid && c.sampleCount == SatAdd32(e.sampleCount, 1)
    ensures var d := WriteDecay(e, link, linkCount, value, now);
            BooksMatch(d, linkCount) && d.valid == e.valid && d.sampleCount == SatAdd32(e.sampleCount, 1)
  {
    ProjectedIsSum(Charged(e, link, linkCount, share, delta, now).deltas, linkCount);
    ProjectedIsSum(WriteDecay(e, link, linkCount, value, now).deltas, linkCount);
  }

  /** Two charges make a new signature, or one of some confidence, a stable one. */
  lemma TwoChargesAreStable(e: Evidence, l1: nat, l2: nat, linkCount: nat, share1: nat, share2: nat, delta1: int, delta2: int, t1: u64, t2: u64)
    requires share1 > 0 && share2 > 0 && l1 < MAX_DOMAINS && l2 < MAX_DOMAINS && (!e.valid || e.confidence >= 3_000)
    ensures Charged(Charged(e, l1, linkCount, share1, delta1, t1), l2, linkCount, share2, delta2, t2).stable
  {
    var once := Charged(e, l1, linkCount, share1, delta1, t1);
    WritesKeepBooks(e, l1, linkCount, share1, delta1, 0, t1);
    WritesKeepBooks(once, l2, linkCount, share2, delta2, 0, t2);
    assert once.sampleCount >= 1 && once.confidence >= 3_500;
  }

  /** Evidence that lost at least a sixteenth of a share, or all it had. */
  ghost predicate Reduced(before: nat, share: nat, after: nat) {
    after <= before && (after == 0 || 16 * (before - after) >= share)
  }

  ghost predicate Moves(delta: int, before: nat, share: nat, after: nat) {
    if delta > 0 then Toward(before, share, after) else Reduced(before, share, after)
  }

  /** The thread's share of a change, as a part of it rounded down, is positive. */
  ghost predicate IsCharged(s: Scales, sigs: Threads, c: Change, ws: seq<Weighted>, i: nat) {
    && i < |ws| && Sum(Parts(ws)) > 0 && Sound(s, ws) && ws[i].tid in sigs
    && c.link < MAX_DOMAINS && c.link < |sigs[ws[i].tid].deltas| && ShareOf(c, ws, i) > 0 && c.delta != 0
  }

  /** Applying a link's change moves the evidence of everyone charged for it. */
  lemma LinkMoves(s: Scales, sigs: Threads, c: Change, ws: seq<Weighted>, bandwidth: u32, i: nat)
    requires IsCharged(s, sigs, c, ws, i)
    ensures var t, after := ws[i].tid, LinkApplied(sigs, c, ws, bandwidth);
            t in after && Moves(c.delta, sigs[t].On(c.link), ShareOf(c, ws, i), after[t].On(c.link))
  {
    var t, charged := ws[i].tid, AfterCharges(sigs, c, ws);
    ChargesLand(s, sigs, c, ws, i);
    ChargeMoves(sigs[t], c.link, c.linkCount, ShareOf(c, ws, i), c.delta, c.now);
    if c.delta < 0 {
      DecayOnlyLowers(charged, c.link, c.linkCount, bandwidth, c.now, t);
      DecayLowersFurther(sigs[t], charged[t], DecayLink(charged, c.link, c.linkCount, bandwidth, c.now)[t], c.link, ShareOf(c, ws, i));
    }
  }

  lemma DecayLowersFurther(e: Evidence, mid: Evidence, after: Evidence, link: nat, share: nat)
    requires Lessened(e.On(link), share, mid.On(link)) && OnlyLowers(mid, after, link)
    ensures Reduced(e.On(link), share, after.On(link))
  {
  }

  // ----- over a call -----

  datatype Reading = Reading(value: nat, links: nat)

  /** What the signature of thread `t` says of link `l`, if there is one. */
  ghost function EvidenceOf(l: nat, t: nat): Threads -> Option<Reading> {
    (sigs: Threads) => if t in sigs then Some(Reading(sigs[t].On(l), |sigs[t].deltas|)) else None
  }

  lemma ChargeElsewhere(sigs: Threads, c: Change, tid: nat, share: nat, l: nat, t: nat)
    requires l != c.link
    ensures EvidenceOf(l, t)(ChargeOne(sigs, c, tid, share)) == EvidenceOf(l, t)(sigs)
  {
    if t in sigs {
      ChargeLands(sigs, c, tid, share, t);
      ChargeIsBounded(sigs[t], c.link, c.linkCount, share, c.delta, c.now, l);
    }
  }

  lemma {:induction false} ChargingElsewhere(sigs: Threads, c: Change, ws: seq<Weighted>, l: nat, t: nat, k: nat)
    requires l != c.link
    ensures EvidenceOf(l, t)(SweepUpTo(sigs, ChargerOf(c, ws), k)) == EvidenceOf(l, t)(sigs)
  {
    if k > 0 {
      ChargingElsewhere(sigs, c, ws, l, t, k - 1);
      if k - 1 < |ws| && Sum(Parts(ws)) > 0 {
        ChargeElsewhere(SweepUpTo(sigs, ChargerOf(c, ws), k - 1), c, ws[k - 1].tid, ShareOf(c, ws, k - 1), l, t);
      }
    }
  }

  lemma DecayElsewhere(sigs: Threads, c: Change, bandwidth: u32, l: nat, t: nat)
    requires l != c.link
    ensures EvidenceOf(l, t)(DecayLink(sigs, c.link, c.linkCount, bandwidth, c.now)) == EvidenceOf(l, t)(sigs)
  {
    DecayKeepsKeys(sigs, c.link, c.linkCount, bandwidth, c.now);
    if t in sigs {
      DecayOnlyLowers(sigs, c.link, c.linkCount, bandwidth, c.now, t);
      OtherLinksStay(sigs[t], DecayLink(sigs, c.link, c.linkCount, bandwidth, c.now)[t], c.link, l);
    }
  }

  lemma ChargesElsewhere(sigs: Threads, c: Change, ws: seq<Weighted>, l: nat, t: nat)
    requires l != c.link
    ensures EvidenceOf(l, t)(AfterCharges(sigs, c, ws)) == EvidenceOf(l, t)(sigs)
  {
    if ws != [] && Sum(Parts(ws)) != 0 {
      ChargingElsewhere(sigs, c, ws, l, t, |ws|);
    }
  }

  lemma OtherLinksKeep(sigs: Threads, c: Change, ws: seq<Weighted>, bandwidth: u32, l: nat, t: nat)
    requires l != c.link
    ensures EvidenceOf(l, t)(LinkApplied(sigs, c, ws, bandwidth)) == EvidenceOf(l, t)(sigs)
  {
    var e, charged := EvidenceOf(l, t), AfterCharges(sigs, c, ws);
    ChargesElsewhere(sigs, c, ws, l, t);
    if c.delta < 0 {
      DecayElsewhere(charged, c, bandwidth, l, t);
      assert e(DecayLink(charged, c.link, c.linkCount, bandwidth, c.now)) == e(charged);
    }
  }

  /** If only steps on `l` change what is read, then a pass through `l` reads as that step alone would. */
  lemma {:induction false} FoldedStepsOnce<M(!new), V>(
    m: M, step: (M, nat) -> M, read: M -> V, rel: V -> bool, links: seq<nat>, k: nat, l: nat)
    requires k <= |links| && StrictlyAscending(links)
    requires forall x, link :: link != l ==> read(step(x, link)) == read(x)
    requires forall x :: read(x) == read(m) ==> rel(read(step(x, l)))
    ensures if l in links[..k] then rel(read(Folded(m, step, links, k))) else read(Folded(m, step, links, k)) == read(m)
  {
    if k > 0 {
      FoldedStepsOnce(m, step, read, rel, links, k - 1, l);
      assert links[..k] == links[..k - 1] + [links[k - 1]];
      assert links[k - 1] !in links[..k - 1];
    }
  }

  /** What may be read of a charged thread after the call. */
  ghost function Moved(delta: int, before: nat, share: nat): Option<Reading> -> bool {
    (r: Option<Reading>) => r.Some? && Moves(delta, before, share, r.value.value)
  }

  lemma CallReads<V>(sigs: Threads, p: Pending, w: World, l: nat, step: Stepper, read: Threads -> V, rel: V -> bool)
    requires l < Visited(p, w) && Newer(p, w, l).Some?
    requires step == LinkStepper(p, w)
    requires forall x: Threads, link: nat :: link != l ==> read(step(x, link)) == read(x)
    requires forall x: Threads :: read(x) == read(sigs) ==> rel(read(step(x, l)))
    ensures rel(read(Evidenced(sigs, p, w)))
  {
    FreshAre(p, w, Visited(p, w));
    assert Fresh(p, w)[..|Fresh(p, w)|] == Fresh(p, w);
    FoldedStepsOnce(sigs, step, read, rel, Fresh(p, w), |Fresh(p, w)|, l);
  }

  lemma StepElsewhere(sigs: Threads, p: Pending, w: World, link: nat, l: nat, t: nat)
    requires link != l
    ensures EvidenceOf(l, t)(LinkStepper(p, w)(sigs, link)) == EvidenceOf(l, t)(sigs)
  {
    OtherLinksKeep(sigs, ChangeOn(p, w, link), Weights(ScalesOn(p, w, link)), BandwidthOn(p, w, link), l, t);
  }

  lemma SameReadingMoves(s: Scales, sigs: Threads, x: Threads, c: Change, ws: seq<Weighted>, bandwidth: u32, i: nat)
    requires IsCharged(s, sigs, c, ws, i) && EvidenceOf(c.link, ws[i].tid)(x) == EvidenceOf(c.link, ws[i].tid)(sigs)
    ensures Moved(c.delta, sigs[ws[i].tid].On(c.link), ShareOf(c, ws, i))(EvidenceOf(c.link, ws[i].tid)(LinkApplied(x, c, ws, bandwidth)))
  {
    LinkMoves(s, x, c, ws, bandwidth, i);
  }

  /**
   * In a call that finds a newer sample of a link that changed, the evidence of each thread charged for it rises
   * toward its share, or falls by a sixteenth of it: whatever the other links of the same call do.
   */
  lemma CallMovesEvidence(sigs: Threads, p: Pending, w: World, l: nat, i: nat)
    requires l < Visited(p, w) && Newer(p, w, l).Some?
    requires IsCharged(ScalesOn(p, w, l), sigs, ChangeOn(p, w, l), Weights(ScalesOn(p, w, l)), i)
    ensures var ws := Weights(ScalesOn(p, w, l));
            var t, share := ws[i].tid, ShareOf(ChangeOn(p, w, l), ws, i);
            t in Evidenced(sigs, p, w) && Moves(ChangeOn(p, w, l).delta, sigs[t].On(l), share, Evidenced(sigs, p, w)[t].On(l))
  {
    var s, c := ScalesOn(p, w, l), ChangeOn(p, w, l);
    var ws := Weights(s);
    var t, share := ws[i].tid, ShareOf(c, ws, i);
    var step, read, rel := LinkStepper(p, w), EvidenceOf(l, t), Moved(c.delta, sigs[t].On(l), share);
    forall x: Threads, link: nat | link != l ensures read(step(x, link)) == read(x) {
      StepElsewhere(x, p, w, link, l, t);
    }
    forall x: Threads | read(x) == read(sigs) ensures rel(read(step(x, l))) {
      SameReadingMoves(s, sigs, x, c, ws, BandwidthOn(p, w, l), i);
    }
    CallReads(sigs, p, w, l, step, read, rel);
  }

  // ----- arming, applying and ending -----

  /** The link has a valid sample that is not stale. */
  ghost predicate Sampled(w: World, link: nat, links: nat) {
    && link < |w.states| && w.states[link].Some? && w.states[link].value.valid
    && !IsStale(w.states[link].value.sampleTs, w.now, StaleMs(w.cfg, links))
  }

  /** Some planned thread has been seen lately. */
  ghost predicate AnySeen(w: World, plan: Plan) {
    exists t :: t in plan.tids && t in w.live && w.live[t].lastSeen >= SatSub(w.now, MsToNs(StaleMs(w.cfg, |w.states|)))
  }

  ghost predicate AnySampled(w: World) { exists link: nat :: link < w.Links() && Sampled(w, link, w.Links()) }

  lemma SeenAreCandidates(w: World, plan: Plan)
    ensures Candidates(w, plan) != map[] <==> AnySeen(w, plan)
  {
    var cs := Candidates(w, plan);
    if AnySeen(w, plan) {
      var t :| t in plan.tids && t in w.live && w.live[t].lastSeen >= SatSub(w.now, MsToNs(StaleMs(w.cfg, |w.states|)));
      assert t in cs;
    }
    if cs != map[] {
      var t :| t in cs;
      assert t in plan.tids && t in w.live;
    }
  }

  ghost predicate AnyCaptured(w: World) { exists link: nat :: link < MAX_DOMAINS && Captured(w)[link].Some? }

  lemma CapturedIsSampled(w: World, link: nat)
    requires link < MAX_DOMAINS
    ensures Captured(w)[link].Some? <==> link < w.Links() && Sampled(w, link, w.Links())
  {
  }

  lemma SampledAreCaptured(w: World)
    ensures AnyCaptured(w) <==> AnySampled(w)
  {
    if AnySampled(w) {
      var link: nat :| link < w.Links() && Sampled(w, link, w.Links());
      CapturedIsSampled(w, link);
    }
    if AnyCaptured(w) {
      var link: nat :| link < MAX_DOMAINS && Captured(w)[link].Some?;
      CapturedIsSampled(w, link);
    }
  }

  /** A plan is armed exactly when it is another one than the last armed, has a thread seen lately, and a link is sampled. */
  lemma ArmsExactlyWhen(s: State, w: World, plan: Plan)
    ensures Armed(s, w, plan) != s <==> s.lastArmed != Some((plan.epoch, plan.revision)) && AnySeen(w, plan) && AnySampled(w)
    ensures Armed(s, w, plan) != s ==>
              && Armed(s, w, plan).lastArmed == Some((plan.epoch, plan.revision)) && Armed(s, w, plan).pending.Some?
              && Armed(s, w, plan).pending.value.armedAt == w.now && Armed(s, w, plan).pending.value.applied == {}
  {
    SeenAreCandidates(w, plan);
    SampledAreCaptured(w);
    assert Arms(s, w, plan) <==> s.lastArmed != Some((plan.epoch, plan.revision)) && Candidates(w, plan) != map[] && AnyCaptured(w);
  }

  /** The link has a baseline, has not been applied, and now has a sample newer than the baseline. */
  ghost predicate Due(p: Pending, w: World, l: nat) {
    && l < Min(p.linkCount, MAX_DOMAINS) && l < |p.baselines| && p.baselines[l].Some? && l !in p.applied
    && Sampled(w, l, Visited(p, w)) && w.states[l].value.sampleTs > p.baselines[l].value.sampleTs
  }

  lemma DueIsFresh(p: Pending, w: World, l: nat)
    ensures l in Fresh(p, w) <==> Due(p, w, l)
  {
    FreshAre(p, w, Visited(p, w));
  }

  /** A call applies exactly the links that are due. */
  lemma AppliesExactlyWhen(calls: seq<Call>, k: nat, l: nat)
    requires k < |calls|
    ensures AppliesAt(calls, k, l) <==>
              calls[k].Apply? && PendingPlan.At(calls, k).pending.Some? && Due(PendingPlan.At(calls, k).pending.value, calls[k].w, l)
  {
    if PendingPlan.At(calls, k).pending.Some? {
      DueIsFresh(PendingPlan.At(calls, k).pending.value, calls[k].w, l);
    }
  }

  /** Every link still open is due. */
  ghost predicate AllDue(p: Pending, w: World) { forall l: nat :: p.Open(l) ==> Due(p, w, l) }

  ghost predicate AnyDue(p: Pending, w: World) { exists l :: Due(p, w, l) }

  /** An attribution ends exactly when its last open links are applied, or when none is and its age limit is reached. */
  lemma EndsExactlyWhen(p: Pending, w: World)
    requires !p.Complete()
    ensures AfterApply(p, w).None? <==> (if AnyDue(p, w) then AllDue(p, w) else Expired(p, w))
    ensures AfterApply(p, w).Some? ==>
              && AfterApply(p, w).value == p.(applied := AfterApply(p, w).value.applied)
              && forall l :: l in AfterApply(p, w).value.applied <==> l in p.applied || Due(p, w, l)
  {
    forall l ensures l in Fresh(p, w) <==> Due(p, w, l) {
      DueIsFresh(p, w, l);
    }
    if Fresh(p, w) != [] {
      assert Fresh(p, w)[0] in Fresh(p, w);
    }
    var marked := p.(applied := p.applied + set l | l in Fresh(p, w));
    forall l: nat ensures marked.Open(l) <==> p.Open(l) && !Due(p, w, l) {
    }
  }
}
