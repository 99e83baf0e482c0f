/** The table of thread signatures, decayed in place link by link. */
module EvidenceTable {
  import opened Machine
  import opened Ordered
  import opened Samples
  import opened Apportion
  import opened KeyedTotals
  import opened SweepTotals
  import opened DecayMath
  import opened EvidenceStore

  /** `now` is `before` with a value written to each of the first `k` listed entries. */
  ghost predicate WrittenTo<E(!new)>(before: map<nat, E>, now: map<nat, E>, write: (E, nat) -> E, tids: seq<nat>, vals: seq<nat>, k: nat) {
    && k <= |tids| == |vals| && now.Keys == before.Keys && (forall i :: 0 <= i < |tids| ==> tids[i] in before)
    && (forall i :: 0 <= i < k ==> now[tids[i]] == write(before[tids[i]], vals[i]))
    && (forall t :: t in before && t !in tids[..k] ==> now[t] == before[t])
  }

  lemma WriteNext<E(!new)>(
    before: map<nat, E>, now: map<nat, E>, write: (E, nat) -> E, tids: seq<nat>, vals: seq<nat>, k: nat, e: E)
    requires WrittenTo(before, now, write, tids, vals, k) && Distinct(tids) && k < |tids|
    requires e == write(now[tids[k]], vals[k])
    ensures now[tids[k]] == before[tids[k]]
    ensures WrittenTo(before, now[tids[k] := e], write, tids, vals, k + 1)
  {
    assert tids[k] !in tids[..k];
    assert tids[..k + 1] == tids[..k] + [tids[k]];
  }

  lemma AllWritten<E(!new)>(before: map<nat, E>, now: map<nat, E>, write: (E, nat) -> E, tids: seq<nat>, vals: seq<nat>)
    requires |tids| == |vals| && WrittenTo(before, now, write, tids, vals, |tids|)
    ensures now == Rewritten(before, write, tids, vals)
  {
    assert tids[..|tids|] == tids;
  }

  /** What the first `i` scaled contributions leave of the limit, until the last one has been served. */
  ghost predicate LeavesRoom(cs: seq<nat>, limit: nat, before: nat, i: nat, remaining: nat) {
    before > 0 && (i < |cs| ==> remaining == SatSub(limit, ScaledUpTo(cs, limit, before, i)))
  }

  /** The next contribution: scaled, or for the last contributor what remains of the limit. */
  method TakePart(cs: seq<nat>, limit: nat, before: nat, i: nat, remaining: nat) returns (value: nat, left: nat)
    requires i < |cs| && LeavesRoom(cs, limit, before, i, remaining)
    ensures value == DecayedAt(cs, limit, before, i) && LeavesRoom(cs, limit, before, i + 1, left)
  {
    if i + 1 == |cs| {
      return Min(remaining, cs[i]), remaining;
    }
    value := Scaled(cs[i], limit, before);
    left := SatSub(remaining, value);
  }

  class Signatures {
    var sigs: Threads

    constructor (sigs: Threads)
      ensures this.sigs == sigs
    {
      this.sigs := sigs;
    }

    /** Scale the evidence on a link down to what the link now carries. */
    method DecayLinkEvidence(link: nat, linkCount: nat, bandwidth: u32, now: u64)
      modifies this
      ensures sigs == DecayLink(old(sigs), link, linkCount, bandwidth, now)
    {
      var tids, cs, limit := TidsOn(sigs, link), ContributionsOn(sigs, link), EvidenceLimit(bandwidth);
      var before := SatSum32(cs);
      if link >= MAX_DOMAINS || tids == [] || before <= limit {
        return;
      }
      LoweredFacts(cs, limit);
      DecayValuesFacts(cs, limit, before, |cs|);
      ScaleDown(link, linkCount, now, tids, cs, limit, before, Lowered(cs, limit));
    }

    method ScaleDown(link: nat, linkCount: nat, now: u64, tids: seq<nat>, cs: seq<nat>, limit: u32, before: u32, ghost vals: seq<nat>)
      requires |cs| == |tids| == |vals| && Distinct(tids) && (forall i :: 0 <= i < |tids| ==> tids[i] in sigs)
      requires before > 0 && forall i :: 0 <= i < |cs| ==> vals[i] == DecayedAt(cs, limit, before, i)
      modifies this
      ensures sigs == Rewritten(old(sigs), DecayWriter(link, linkCount, now), tids, vals)
    {
      ghost var write := DecayWriter(link, linkCount, now);
      var remaining: nat := limit;
      for i := 0 to |tids|
        invariant LeavesRoom(cs, limit, before, i, remaining)
        invariant WrittenTo(old(sigs), sigs, write, tids, vals, i)
      {
        var value;
        value, remaining := TakePart(cs, limit, before, i, remaining);
        WriteNext(old(sigs), sigs, write, tids, vals, i, write(sigs[tids[i]], value));
        sigs := sigs[tids[i] := WriteDecay(sigs[tids[i]], link, linkCount, value, now)];
      }
      AllWritten(old(sigs), sigs, write, tids, vals);
    }

    method DecayFresh(ghost w: Sweep, link: nat, bandwidth: Option<u32>, linkCount: nat, now: u64)
      requires bandwidth == w.Bandwidth(link) && linkCount == w.LinkCount() && now == w.now
      modifies this
      ensures sigs == StepperOf(w)(old(sigs), link)
    {
      if bandwidth.Some? {
        DecayLinkEvidence(link, linkCount, bandwidth.value, now);
      }
    }

    /** Decay every link that has a fresh sample. */
    method DecayToCurrentSamples(states: seq<Option<DfState>>, now: u64, cfg: Policy)
      modifies this
      ensures sigs == Swept(old(sigs), Sweep(states, now, cfg))
    {
      ghost var w := Sweep(states, now, cfg);
      var linkCount := Min(|states|, MAX_DOMAINS);
      var staleMs := StaleMs(cfg, linkCount);
      for link := 0 to linkCount
        invariant sigs == SweepUpTo(old(sigs), StepperOf(w), link)
      {
        DecayFresh(w, link, FreshBandwidth(states, link, now, staleMs), linkCount, now);
      }
    }
  }
}
