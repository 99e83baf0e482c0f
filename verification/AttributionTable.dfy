/** The pending attribution and the signatures it charges, updated in place. */
module AttributionTable {
  import opened Machine
  import opened Ordered
  import opened Samples
  import opened Apportion
  import opened SweepTotals
  import opened EvidenceStore
  import opened EvidenceTable
  import opened Attribution
  import opened PendingPlan

  method CollectWeights(weigh: Weigher, order: seq<nat>) returns (ws: seq<Weighted>)
    ensures ws == WeightsTo(weigh, order, |order|)
  {
    ws := [];
    for i := 0 to |order|
      invariant ws == WeightsTo(weigh, order, i)
    {
      var w := weigh(order[i]);
      if w.Some? {
        ws := ws + [Weighted(order[i], w.value)];
      }
    }
  }

  const SOURCES: seq<Source> := [DramNearFill, TotalFill, L2]

  method ChooseWeights(s: Scales) returns (ws: seq<Weighted>)
    ensures ws == Weights(s)
  {
    for i := 0 to |SOURCES|
      invariant forall j :: 0 <= j < i ==> WeightsFrom(s, SOURCES[j]) == []
    {
      ws := CollectWeights(WeigherOf(s, SOURCES[i]), Ascending(s.armed.Keys));
      if ws != [] {
        assert i > 0 ==> WeightsFrom(s, SOURCES[0]) == [];
        assert i > 1 ==> WeightsFrom(s, SOURCES[1]) == [];
        return;
      }
    }
    assert WeightsFrom(s, SOURCES[0]) == [] && WeightsFrom(s, SOURCES[1]) == [] && WeightsFrom(s, SOURCES[2]) == [];
    ws := [];
  }

  /** What the first `i` shares leave of the delta and of the weights. */
  ghost predicate LeftOver(delta: nat, parts: seq<nat>, i: nat, remainingDelta: nat, remainingWeight: nat) {
    && i <= |parts| && Sum(parts) > 0
    && remainingDelta == SatSub(delta, SharesUpTo(delta, parts, i))
    && remainingWeight == SatSub(Sum(parts), SumTo(parts, i))
  }

  lemma ShareIsTaken(delta: nat, parts: seq<nat>, i: nat, remainingDelta: nat, remainingWeight: nat, share: nat)
    requires LeftOver(delta, parts, i, remainingDelta, remainingWeight) && i < |parts|
    requires share == if i + 1 == |parts| || remainingWeight <= parts[i] then remainingDelta else Product(delta, parts[i]) / Sum(parts)
    ensures share == ShareAt(delta, parts, i)
    ensures LeftOver(delta, parts, i + 1, SatSub(remainingDelta, share), SatSub(remainingWeight, parts[i]))
  {
  }

  /** The next share: its floor, or all that is left for the last weighted thread. */
  method TakeShare(delta: nat, parts: seq<nat>, i: nat, remainingDelta: nat, remainingWeight: nat)
    returns (share: nat, leftDelta: nat, leftWeight: nat)
    requires LeftOver(delta, parts, i, remainingDelta, remainingWeight) && i < |parts|
    ensures share == ShareAt(delta, parts, i)
    ensures LeftOver(delta, parts, i + 1, leftDelta, leftWeight)
  {
    if i + 1 == |parts| || remainingWeight <= parts[i] {
      share := remainingDelta;
    } else {
      share := Product(delta, parts[i]) / Sum(parts);
    }
    ShareIsTaken(delta, parts, i, remainingDelta, remainingWeight, share);
    leftDelta, leftWeight := SatSub(remainingDelta, share), SatSub(remainingWeight, parts[i]);
  }

  class Attributor {
    var pending: Option<Pending>
    var lastArmed: Option<(u64, u64)>
    const table: Signatures

    ghost function Now(): State
      reads this
    {
      State(pending, lastArmed)
    }

    constructor (table: Signatures)
      ensures Now() == State(None, None) && this.table == table
    {
      pending, lastArmed := None, None;
      this.table := table;
    }

    method ArmPlan(w: World, plan: Plan)
      modifies this
      ensures Now() == Armed(old(Now()), w, plan)
    {
      var key := Some((plan.epoch, plan.revision));
      if lastArmed == key {
        return;
      }
      var candidates := Candidates(w, plan);
      if candidates == map[] {
        return;
      }
      var baselines := Captured(w);
      if !exists link :: 0 <= link < MAX_DOMAINS && baselines[link].Some? {
        return;
      }
      pending := Some(Pending(w.now, w.Links(), baselines, {}, candidates));
      lastArmed := key;
    }

    /** Charge the shares of a change, the last thread taking what is left of it. */
    method ChargeShares(c: Change, ws: seq<Weighted>)
      requires ws != [] && 0 < Sum(Parts(ws)) <= U64_MAX
      modifies table
      ensures table.sigs == Charges(old(table.sigs), c, ws)
    {
      var parts := Parts(ws);
      var remainingDelta, remainingWeight := Abs(c.delta), Sum(parts);
      for i := 0 to |ws|
        invariant LeftOver(Abs(c.delta), parts, i, remainingDelta, remainingWeight)
        invariant table.sigs == SweepUpTo(old(table.sigs), ChargerOf(c, ws), i)
      {
        var share;
        share, remainingDelta, remainingWeight := TakeShare(Abs(c.delta), parts, i, remainingDelta, remainingWeight);
        ChargeThread(c, ws[i].tid, share);
      }
    }

    method ChargeThread(c: Change, tid: nat, share: nat)
      modifies table
      ensures table.sigs == ChargeOne(old(table.sigs), c, tid, share)
    {
      if share != 0 && tid in table.sigs {
        table.sigs := table.sigs[tid := Charged(table.sigs[tid], c.link, c.linkCount, share, c.delta, c.now)];
      }
    }

    method ApplyLink(c: Change, scales: Scales, bandwidth: u32)
      requires scales.delta == c.delta && forall tid :: tid in scales.armed ==> tid <= U32_MAX
      modifies table
      ensures table.sigs == LinkApplied(old(table.sigs), c, Weights(scales), bandwidth)
    {
      if c.delta == 0 {
        return;
      }
      var ws := ChooseWeights(scales);
      WeightsAreSound(scales);
      WeightsFitWord(scales);
      if ws != [] {
        ChargeShares(c, ws);
      }
      if c.delta < 0 {
        table.DecayLinkEvidence(c.link, c.linkCount, bandwidth, c.now);
      }
    }

    method CollectFresh(p: Pending, w: World) returns (links: seq<nat>)
      ensures links == Fresh(p, w)
    {
      links := [];
      for link := 0 to Visited(p, w)
        invariant links == FreshTo(p, w, link)
      {
        if Newer(p, w, link).Some? {
          links := links + [link];
        }
      }
    }

    method ApplyLinks(p: Pending, w: World, links: seq<nat>)
      requires forall tid :: tid in p.candidates ==> tid <= U32_MAX
      modifies table
      ensures table.sigs == Folded(old(table.sigs), LinkStepper(p, w), links, |links|)
    {
      for i := 0 to |links|
        invariant table.sigs == Folded(old(table.sigs), LinkStepper(p, w), links, i)
      {
        ApplyFresh(p, w, links[i]);
      }
    }

    method ApplyFresh(p: Pending, w: World, link: nat)
      requires forall tid :: tid in p.candidates ==> tid <= U32_MAX
      modifies table
      ensures table.sigs == LinkStepper(p, w)(old(table.sigs), link)
    {
      ApplyLink(ChangeOn(p, w, link), ScalesOn(p, w, link), BandwidthOn(p, w, link));
    }

    /** One pass over the pending attribution: apply every link with a newer sample, or let it age out. */
    method ApplyPending(w: World)
      requires pending.Some? ==> forall tid :: tid in pending.value.candidates ==> tid <= U32_MAX
      modifies this, table
      ensures Now() == Applied(old(Now()), w)
      ensures table.sigs == if old(pending).None? then old(table.sigs) else Evidenced(old(table.sigs), old(pending).value, w)
    {
      if pending.None? {
        return;
      }
      var p := pending.value;
      pending := None;
      var links := CollectFresh(p, w);
      if links == [] {
        if !Expired(p, w) {
          pending := Some(p);
        }
        return;
      }
      ApplyLinks(p, w, links);
      var marked := p.(applied := p.applied + set link | link in links);
      if !marked.Complete() {
        pending := Some(marked);
      }
    }
  }
}
