/** The life of a pending attribution: armed for a plan, applied link by link, completed, replaced or expired. */
module PendingPlan {
  import opened Machine
  import opened Ordered
  import opened Samples
  import opened Apportion
  import opened KeyedTotals
  import opened EvidenceStore
  import opened Attribution

  const MAX_SWEEPS: u64 := 2

  datatype Baseline = Baseline(bandwidth: u32, sampleTs: u64)

  datatype Pending = Pending(
    armedAt: u64, linkCount: nat, baselines: seq<Option<Baseline>>, applied: set<nat>, candidates: map<nat, Traffic>)
  {
    predicate Open(link: nat) { link < linkCount && Lookup(baselines, link).Some? && link !in applied }

    predicate Complete() { forall link: nat :: link < linkCount ==> !Open(link) }
  }

  /** What a call can see of the world. */
  datatype World = World(live: map<nat, Counters>, states: seq<Option<DfState>>, now: u64, cfg: Policy) {
    function Links(): nat { Min(|states|, MAX_DOMAINS) }
  }

  datatype Plan = Plan(epoch: u64, revision: u64, tids: set<nat>)

  datatype State = State(pending: Option<Pending>, lastArmed: Option<(u64, u64)>)

  function MsToNs(ms: u64): u64 { SatMul64(ms, 1_000_000) }

  // ----- arming -----

  function Candidates(w: World, plan: Plan): map<nat, Traffic> {
    var cutoff := SatSub(w.now, MsToNs(StaleMs(w.cfg, |w.states|)));
    map t | t in plan.tids && t in w.live && w.live[t].lastSeen >= cutoff :: w.live[t].traffic
  }

  function FreshSample(w: World, link: nat, staleMs: u64): Option<DfState> {
    var s := Lookup(w.states, link);
    if s.Some? && s.value.valid && !IsStale(s.value.sampleTs, w.now, staleMs) then s else None
  }

  function Captured(w: World): (r: seq<Option<Baseline>>)
    ensures |r| == MAX_DOMAINS
  {
    seq(MAX_DOMAINS, link requires 0 <= link < MAX_DOMAINS =>
      var s := FreshSample(w, link, StaleMs(w.cfg, w.Links()));
      if link < w.Links() && s.Some? then Some(Baseline(LinkBandwidth(s.value), s.value.sampleTs)) else None)
  }

  predicate Arms(s: State, w: World, plan: Plan) {
    && s.lastArmed != Some((plan.epoch, plan.revision))
    && Candidates(w, plan) != map[]
    && exists link :: 0 <= link < MAX_DOMAINS && Captured(w)[link].Some?
  }

  function Armed(s: State, w: World, plan: Plan): State {
    if Arms(s, w, plan)
    then State(Some(Pending(w.now, w.Links(), Captured(w), {}, Candidates(w, plan))), Some((plan.epoch, plan.revision)))
    else s
  }

  // ----- applying -----

  /** Links visited by a call, and those among them with a sample newer than their baseline. */
  function Visited(p: Pending, w: World): nat { Min(Min(p.linkCount, |w.states|), MAX_DOMAINS) }

  function Newer(p: Pending, w: World, link: nat): Option<DfState> {
    var s := FreshSample(w, link, StaleMs(w.cfg, Visited(p, w)));
    if p.Open(link) && s.Some? && s.value.sampleTs > p.baselines[link].value.sampleTs then s else None
  }

  function FreshTo(p: Pending, w: World, k: nat): seq<nat> {
    if k == 0 then [] else
      var init := FreshTo(p, w, k - 1);
      if Newer(p, w, k - 1).Some? then init + [k - 1] else init
  }

  function Fresh(p: Pending, w: World): seq<nat> { FreshTo(p, w, Visited(p, w)) }

  lemma {:induction false} FreshAre(p: Pending, w: World, k: nat)
    ensures StrictlyAscending(FreshTo(p, w, k))
    ensures forall link: nat :: link in FreshTo(p, w, k) <==> link < k && Newer(p, w, link).Some?
  {
    if k > 0 {
      FreshAre(p, w, k - 1);
      var init := FreshTo(p, w, k - 1);
      assert forall i :: 0 <= i < |init| ==> init[i] in init;
    }
  }

  predicate Expired(p: Pending, w: World) {
    SatSub(w.now, p.armedAt) >= SatMul64(SatMul64(StaleMs(w.cfg, p.linkCount), MAX_SWEEPS), 1_000_000)
  }

  function AfterApply(p: Pending, w: World): Option<Pending> {
    if Fresh(p, w) == [] then (if Expired(p, w) then None else Some(p)) else
      var marked := p.(applied := p.applied + set link | link in Fresh(p, w));
      if marked.Complete() then None else Some(marked)
  }

  function Applied(s: State, w: World): State {
    if s.pending.None? then s else s.(pending := AfterApply(s.pending.value, w))
  }

  // ----- what an application does to the evidence -----

  function ChangeOn(p: Pending, w: World, link: nat): Change {
    var s := Newer(p, w, link);
    var delta := if s.Some? then LinkBandwidth(s.value) - p.baselines[link].value.bandwidth else 0;
    Change(link, Visited(p, w), delta, w.now)
  }

  function BandwidthOn(p: Pending, w: World, link: nat): u32 {
    var s := Newer(p, w, link);
    if s.Some? then LinkBandwidth(s.value) else 0
  }

  function ScalesOn(p: Pending, w: World, link: nat): Scales {
    Scales(p.candidates, w.live, ChangeOn(p, w, link).delta, SatSub(w.now, MsToNs(StaleMs(w.cfg, Visited(p, w)))))
  }

  function AppliedOn(sigs: Threads, p: Pending, w: World, link: nat): Threads {
    LinkApplied(sigs, ChangeOn(p, w, link), Weights(ScalesOn(p, w, link)), BandwidthOn(p, w, link))
  }

  type Stepper = (Threads, nat) -> Threads

  function LinkStepper(p: Pending, w: World): Stepper { (sigs: Threads, link: nat) => AppliedOn(sigs, p, w, link) }

  /** One step per link, in order. */
  function Folded<M>(m: M, step: (M, nat) -> M, links: seq<nat>, k: nat): M
    requires k <= |links|
  {
    if k == 0 then m else step(Folded(m, step, links, k - 1), links[k - 1])
  }

  function Evidenced(sigs: Threads, p: Pending, w: World): Threads {
    Folded(sigs, LinkStepper(p, w), Fresh(p, w), |Fresh(p, w)|)
  }

  lemma AppliedOnIsBounded(sigs: Threads, p: Pending, w: World, link: nat, l: nat)
    ensures var after, before := Total(AppliedOn(sigs, p, w, link), OnLink(l)), Total(sigs, OnLink(l));
            if l == link then after <= before + Max(ChangeOn(p, w, l).delta, 0) else after == before
  {
    LinkAppliedIsBounded(sigs, ChangeOn(p, w, link), Weights(ScalesOn(p, w, link)), BandwidthOn(p, w, link), l);
  }

  /** If only steps on `l` move a measure, and raise it by at most `rise`, then visiting `l` at most once does. */
  lemma {:induction false} FoldedMovesOnce<M(!new)>(
    m: M, step: (M, nat) -> M, measure: M -> nat, links: seq<nat>, k: nat, l: nat, rise: nat)
    requires k <= |links| && StrictlyAscending(links)
    requires forall x, link :: measure(step(x, link)) <= measure(x) + (if link == l then rise else 0)
    requires forall x, link :: link != l ==> measure(step(x, link)) == measure(x)
    ensures var after, before := measure(Folded(m, step, links, k)), measure(m);
            if l in links[..k] then after <= before + rise else after == before
  {
    if k > 0 {
      FoldedMovesOnce(m, step, measure, links, k - 1, l, rise);
      assert links[..k] == links[..k - 1] + [links[k - 1]];
      assert links[k - 1] !in links[..k - 1];
    }
  }

  /**
   * One call never records more on a link than the link's own rise since its baseline, records nothing on a
   * link that fell, and leaves alone every link without a newer sample.
   */
  lemma EvidenceIsBounded(sigs: Threads, p: Pending, w: World, l: nat)
    ensures var after, before := Total(Evidenced(sigs, p, w), OnLink(l)), Total(sigs, OnLink(l));
            if l < Visited(p, w) && Newer(p, w, l).Some? then after <= before + Max(ChangeOn(p, w, l).delta, 0)
            else after == before
  {
    FreshAre(p, w, Visited(p, w));
    assert Fresh(p, w)[..|Fresh(p, w)|] == Fresh(p, w);
    var step, rise := LinkStepper(p, w), Max(ChangeOn(p, w, l).delta, 0);
    forall m: Threads, link: nat
      ensures TotalOn(l)(step(m, link)) <= TotalOn(l)(m) + (if link == l then rise else 0)
      ensures link != l ==> TotalOn(l)(step(m, link)) == TotalOn(l)(m)
    {
      AppliedOnIsBounded(m, p, w, link, l);
    }
    FoldedMovesOnce(sigs, step, TotalOn(l), Fresh(p, w), |Fresh(p, w)|, l, rise);
  }

  // ----- whole runs -----

  datatype Call = Arm(w: World, plan: Plan) | Apply(w: World)

  function After(s: State, call: Call): State {
    match call
    case Arm(w, plan) => Armed(s, w, plan)
    case Apply(w) => Applied(s, w)
  }

  function At(calls: seq<Call>, k: nat): State
    requires k <= |calls|
  {
    if k == 0 then State(None, None) else After(At(calls, k - 1), calls[k - 1])
  }

  /** Call `k` arms a new attribution. */
  predicate ArmsAt(calls: seq<Call>, k: nat)
    requires k < |calls|
  {
    calls[k].Arm? && Arms(At(calls, k), calls[k].w, calls[k].plan)
  }

  /** Call `k` applies link `l` of the pending attribution. */
  predicate AppliesAt(calls: seq<Call>, k: nat, l: nat)
    requires k < |calls|
  {
    var s := At(calls, k);
    calls[k].Apply? && s.pending.Some? && l in Fresh(s.pending.value, calls[k].w)
  }

  lemma AppliedOnlyGrows(p: Pending, w: World)
    ensures AfterApply(p, w).Some? ==> p.applied <= AfterApply(p, w).value.applied
    ensures AfterApply(p, w).Some? ==> forall l :: l in Fresh(p, w) ==> l in AfterApply(p, w).value.applied
  {
  }

  predicate Done(s: State, l: nat) { s.pending.Some? ==> l in s.pending.value.applied }

  lemma NotArmedStays(s: State, call: Call, l: nat)
    requires call.Arm? ==> !Arms(s, call.w, call.plan)
    requires Done(s, l) || (call.Apply? && l in Fresh(s.pending.value, call.w))
    ensures Done(After(s, call), l)
  {
    if call.Apply? && s.pending.Some? {
      AppliedOnlyGrows(s.pending.value, call.w);
    }
  }

  /** What a step keeps, unless it arms, is kept from call to call. */
  lemma {:induction false} KeptWithoutArming(calls: seq<Call>, i: nat, j: nat, l: nat)
    requires i <= j <= |calls| && Done(At(calls, i), l)
    requires forall k :: i <= k < j ==> Keeps(calls, k, l)
    ensures Done(At(calls, j), l)
    decreases j
  {
    if i < j {
      KeptWithoutArming(calls, i, j - 1, l);
      assert Keeps(calls, j - 1, l);
    }
  }

  predicate Keeps(calls: seq<Call>, k: nat, l: nat)
    requires k < |calls|
  {
    Done(At(calls, k), l) ==> Done(At(calls, k + 1), l)
  }

  lemma StaysApplied(calls: seq<Call>, i: nat, j: nat, l: nat)
    requires i < j <= |calls| && AppliesAt(calls, i, l)
    requires forall k :: i < k < j ==> !ArmsAt(calls, k)
    ensures Done(At(calls, j), l)
  {
    NotArmedStays(At(calls, i), calls[i], l);
    forall k | i + 1 <= k < j ensures Keeps(calls, k, l) {
      if Done(At(calls, k), l) {
        assert !ArmsAt(calls, k);
        NotArmedStays(At(calls, k), calls[k], l);
      }
    }
    KeptWithoutArming(calls, i + 1, j, l);
  }

  /** A link is applied at most once for each time an attribution is armed. */
  lemma LinksApplyOnce(calls: seq<Call>, i: nat, j: nat, l: nat)
    requires i < j < |calls| && AppliesAt(calls, i, l) && AppliesAt(calls, j, l)
    ensures exists k :: i < k < j && ArmsAt(calls, k)
  {
    if forall k :: i < k < j ==> !ArmsAt(calls, k) {
      StaysApplied(calls, i, j, l);
      FreshAre(At(calls, j).pending.value, calls[j].w, Visited(At(calls, j).pending.value, calls[j].w));
    }
  }

  /** The call that armed what is pending, if anything is. */
  function Arming(calls: seq<Call>, k: nat): Option<nat>
    requires k <= |calls|
  {
    if k == 0 then None else if ArmsAt(calls, k - 1) then Some(k - 1) else Arming(calls, k - 1)
  }

  /** The pending attribution still has the baselines, candidates and links of its arming. */
  ghost predicate ArmedBy(p: Pending, w: World, plan: Plan) {
    && p.baselines == Captured(w) && p.armedAt == w.now && p.linkCount == w.Links() && p.candidates == Candidates(w, plan)
  }

  lemma ApplyingKeepsArming(s: State, w: World)
    ensures var s' := Applied(s, w);
            s'.pending.Some? ==> s.pending.Some? && s'.pending.value == s.pending.value.(applied := s'.pending.value.applied)
  {
  }

  lemma {:induction false} PendingWasArmed(calls: seq<Call>, k: nat)
    requires k <= |calls|
    ensures At(calls, k).pending.Some? ==>
              var p, a := At(calls, k).pending.value, Arming(calls, k);
              && a.Some? && a.value < k && ArmsAt(calls, a.value) && (forall i :: a.value < i < k ==> !ArmsAt(calls, i))
              && ArmedBy(p, calls[a.value].w, calls[a.value].plan)
  {
    if k > 0 {
      PendingWasArmed(calls, k - 1);
      if calls[k - 1].Apply? {
        ApplyingKeepsArming(At(calls, k - 1), calls[k - 1].w);
      }
    }
  }

  /**
   * A link is applied only for an attribution armed earlier and not replaced since, with a baseline measured at
   * its arming, and only from a valid sample newer than that baseline.
   */
  lemma AppliesFromNewerSample(calls: seq<Call>, k: nat, l: nat)
    requires k < |calls| && AppliesAt(calls, k, l)
    ensures exists a :: a < k && Arming(calls, k) == Some(a) && ArmsAt(calls, a) && (forall i :: a < i < k ==> !ArmsAt(calls, i))
                        && l < |calls[a].w.states| && l < |calls[k].w.states|
                        && calls[a].w.states[l].Some? && calls[k].w.states[l].Some?
                        && calls[k].w.states[l].value.valid
                        && calls[a].w.states[l].value.sampleTs < calls[k].w.states[l].value.sampleTs
  {
    PendingWasArmed(calls, k);
    var p := At(calls, k).pending.value;
    FreshAre(p, calls[k].w, Visited(p, calls[k].w));
    var a := Arming(calls, k).value;
    assert Captured(calls[a].w)[l].Some?;
  }

  /** What is pending always has a link left to apply. */
  lemma {:induction false} PendingHasWork(calls: seq<Call>, k: nat)
    requires k <= |calls|
    ensures At(calls, k).pending.Some? ==> !At(calls, k).pending.value.Complete()
  {
    if k > 0 {
      PendingHasWork(calls, k - 1);
      if ArmsAt(calls, k - 1) {
        var w := calls[k - 1].w;
        var link :| 0 <= link < MAX_DOMAINS && Captured(w)[link].Some?;
        assert At(calls, k).pending.value.Open(link);
      }
    }
  }

  /** Once the age limit is reached, a call either applies a link or gives the attribution up. */
  lemma OldPendingEnds(s: State, w: World)
    requires s.pending.Some? && Expired(s.pending.value, w)
    ensures Applied(s, w).pending.None? || exists l: nat :: l < Visited(s.pending.value, w) && Newer(s.pending.value, w, l).Some?
  {
    var p := s.pending.value;
    FreshAre(p, w, Visited(p, w));
    if Fresh(p, w) != [] {
      assert Fresh(p, w)[0] in Fresh(p, w);
    }
  }
}
