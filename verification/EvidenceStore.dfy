/** Per-thread evidence of link traffic, and the decay of totals that exceed what a link carries. */
module EvidenceStore {
  import opened Machine
  import opened Ordered
  import opened Samples
  import opened Apportion
  import opened KeyedTotals
  import opened SweepTotals
  import opened DecayMath

  const STABLE_SAMPLES: u32 := 2
  const CONFIDENCE_THRESHOLD: u32 := 4_000

  /** The evidence part of a thread's signature; the two vectors have one entry per link. */
  datatype Evidence = Evidence(
    valid: bool, stable: bool, sampleCount: u32, lastUpdate: u64, confidence: u32, projected: u32,
    deltas: seq<nat>, raw: seq<nat>)
  {
    function On(link: nat): nat { if link < |deltas| then deltas[link] else 0 }

    /** Evidence on a link that counts: that of a valid signature. */
    function HeldOn(link: nat): nat { if valid then On(link) else 0 }
  }

  type Threads = map<nat, Evidence>

  function Held(link: nat): Evidence -> nat { (e: Evidence) => e.HeldOn(link) }

  function Put(s: seq<nat>, i: nat, v: nat): seq<nat> { if i < |s| then s[i := v] else s }

  /** Five quarters of the current bandwidth, rounded down. */
  function EvidenceLimit(bandwidth: u32): u32 { Min(bandwidth * 5 / 4, U32_MAX) }

  function Projected(deltas: seq<nat>, linkCount: nat): u32 { SatSum32(deltas[..Min(|deltas|, Min(linkCount, MAX_DOMAINS))]) }

  predicate Settled(sampleCount: u32, confidence: u32) {
    sampleCount >= STABLE_SAMPLES && confidence >= CONFIDENCE_THRESHOLD
  }

  /** What a decay writes into one signature. */
  function WriteDecay(e: Evidence, link: nat, linkCount: nat, value: nat, now: u64): Evidence {
    var samples := SatAdd32(e.sampleCount, 1);
    e.(deltas := Put(e.deltas, link, value), raw := Put(e.raw, link, value), lastUpdate := now, sampleCount := samples,
       projected := Projected(Put(e.deltas, link, value), linkCount), stable := Settled(samples, e.confidence))
  }

  function DecayWriter(link: nat, linkCount: nat, now: u64): (Evidence, nat) -> Evidence {
    (e: Evidence, v: nat) => WriteDecay(e, link, linkCount, v, now)
  }

  // ----- one link -----

  function TidsOn(threads: Threads, link: nat): (r: seq<nat>)
    ensures Distinct(r) && forall i :: 0 <= i < |r| ==> r[i] in threads && threads[r[i]].HeldOn(link) > 0
  {
    PositiveFacts(threads, Held(link));
    KeyedTotals.Positive(threads, Held(link))
  }

  function ContributionsOn(threads: Threads, link: nat): (r: seq<nat>)
    ensures |r| == |TidsOn(threads, link)| && forall i :: 0 <= i < |r| ==> r[i] == threads[TidsOn(threads, link)[i]].HeldOn(link)
  {
    Measures(threads, TidsOn(threads, link), Held(link))
  }

  function DecayLink(threads: Threads, link: nat, linkCount: nat, bandwidth: u32, now: u64): Threads {
    var tids, cs := TidsOn(threads, link), ContributionsOn(threads, link);
    LoweredFacts(cs, EvidenceLimit(bandwidth));
    if link >= MAX_DOMAINS || tids == [] || SatSum32(cs) <= EvidenceLimit(bandwidth) then threads
    else Rewritten(threads, DecayWriter(link, linkCount, now), tids, Lowered(cs, EvidenceLimit(bandwidth)))
  }

  lemma ContributorsFacts(threads: Threads, link: nat)
    ensures Total(threads, Held(link)) == Sum(ContributionsOn(threads, link))
  {
    PositiveFacts(threads, Held(link));
  }

  /** A decay touches only the evidence on its link, and never raises it. */
  ghost predicate OnlyLowers(a: Evidence, b: Evidence, link: nat) {
    && b.valid == a.valid && b.confidence == a.confidence && b.On(link) <= a.On(link)
    && |b.deltas| == |a.deltas| && |b.raw| == |a.raw|
    && (forall l :: 0 <= l < |a.deltas| && l != link ==> b.deltas[l] == a.deltas[l])
    && (forall l :: 0 <= l < |a.raw| && l != link ==> b.raw[l] == a.raw[l])
  }

  lemma WriteLowers(e: Evidence, link: nat, linkCount: nat, value: nat, now: u64)
    requires value <= e.HeldOn(link)
    ensures OnlyLowers(e, WriteDecay(e, link, linkCount, value, now), link)
    ensures e.HeldOn(link) > 0 ==> WriteDecay(e, link, linkCount, value, now).HeldOn(link) == value
  {
  }

  /** The effect of writing lower values to the contributors, one thread at a time. */
  lemma DecayWrites(threads: Threads, link: nat, linkCount: nat, now: u64, vals: seq<nat>, t: nat)
    requires |vals| == |TidsOn(threads, link)| && t in threads
    requires forall i :: 0 <= i < |vals| ==> vals[i] <= threads[TidsOn(threads, link)[i]].HeldOn(link)
    ensures var after := Rewritten(threads, DecayWriter(link, linkCount, now), TidsOn(threads, link), vals);
            && OnlyLowers(threads[t], after[t], link)
            && forall i :: 0 <= i < |vals| && TidsOn(threads, link)[i] == t ==> after[t].HeldOn(link) == vals[i]
  {
    var tids := TidsOn(threads, link);
    if t in tids {
      var i := IndexOf(tids, t);
      WriteLowers(threads[t], link, linkCount, vals[i], now);
    }
  }

  lemma DecayWritesTotal(threads: Threads, link: nat, linkCount: nat, now: u64, vals: seq<nat>)
    requires |vals| == |TidsOn(threads, link)|
    requires forall i :: 0 <= i < |vals| ==> vals[i] <= threads[TidsOn(threads, link)[i]].HeldOn(link)
    ensures Total(Rewritten(threads, DecayWriter(link, linkCount, now), TidsOn(threads, link), vals), Held(link)) == Sum(vals)
  {
    var tids := TidsOn(threads, link);
    var after := Rewritten(threads, DecayWriter(link, linkCount, now), tids, vals);
    var f := Held(link);
    forall t | t in threads && f(threads[t]) == 0 ensures f(after[t]) == 0 {
      DecayWrites(threads, link, linkCount, now, vals, t);
    }
    forall i | 0 <= i < |vals| ensures tids[i] in after && f(after[tids[i]]) == vals[i] {
      DecayWrites(threads, link, linkCount, now, vals, tids[i]);
    }
    RewrittenTotal(threads, after, f, vals);
  }

  lemma NothingIsLowered(e: Evidence, link: nat)
    ensures OnlyLowers(e, e, link)
  {
  }

  /** No contribution grows, and other links are untouched. */
  lemma DecayOnlyLowers(threads: Threads, link: nat, linkCount: nat, bandwidth: u32, now: u64, t: nat)
    requires t in threads
    ensures DecayLink(threads, link, linkCount, bandwidth, now).Keys == threads.Keys
    ensures OnlyLowers(threads[t], DecayLink(threads, link, linkCount, bandwidth, now)[t], link)
  {
    var cs, limit := ContributionsOn(threads, link), EvidenceLimit(bandwidth);
    LoweredFacts(cs, limit);
    NothingIsLowered(threads[t], link);
    DecayWrites(threads, link, linkCount, now, Lowered(cs, limit), t);
  }

  /** A link at or under its limit is left alone. */
  lemma DecayLeavesSmallTotals(threads: Threads, link: nat, linkCount: nat, bandwidth: u32, now: u64)
    requires Total(threads, Held(link)) <= EvidenceLimit(bandwidth)
    ensures DecayLink(threads, link, linkCount, bandwidth, now) == threads
  {
    ContributorsFacts(threads, link);
    SatSumIsCapped(ContributionsOn(threads, link), |ContributionsOn(threads, link)|);
  }

  /**
   * The total after a decay is within the limit exactly when the scaled evidence leaves room for the last
   * contributor, which it does whenever the prior sum fits in 32 bits.
   */
  lemma DecayCapsTotal(threads: Threads, link: nat, linkCount: nat, bandwidth: u32, now: u64)
    requires link < MAX_DOMAINS
    ensures Total(DecayLink(threads, link, linkCount, bandwidth, now), Held(link)) <= EvidenceLimit(bandwidth)
            <==> RoomFor(ContributionsOn(threads, link), EvidenceLimit(bandwidth))
    ensures Total(threads, Held(link)) <= U32_MAX ==> RoomFor(ContributionsOn(threads, link), EvidenceLimit(bandwidth))
  {
    var cs, limit := ContributionsOn(threads, link), EvidenceLimit(bandwidth);
    ContributorsFacts(threads, link);
    LoweredFacts(cs, limit);
    DecayWritesTotal(threads, link, linkCount, now, Lowered(cs, limit));
  }

  /** So it is enough that the contributions before the last fit, if the link carries less than the 32-bit range. */
  lemma DecayCapsWhenOthersFit(threads: Threads, link: nat, linkCount: nat, bandwidth: u32, now: u64)
    requires link < MAX_DOMAINS && EvidenceLimit(bandwidth) < U32_MAX
    requires var cs := ContributionsOn(threads, link); cs != [] ==> SumTo(cs, |cs| - 1) <= U32_MAX
    ensures Total(DecayLink(threads, link, linkCount, bandwidth, now), Held(link)) <= EvidenceLimit(bandwidth)
  {
    var cs := ContributionsOn(threads, link);
    DecayCapsTotal(threads, link, linkCount, bandwidth, now);
    if cs != [] {
      RoomWhenOthersFit(cs, EvidenceLimit(bandwidth));
    }
  }

  /** Every thread holds all the evidence a word can hold on the link. */
  ghost predicate AllFull(threads: Threads, link: nat) { forall t :: t in threads ==> threads[t].HeldOn(link) == U32_MAX }

  lemma FullContributions(threads: Threads, link: nat)
    requires AllFull(threads, link)
    ensures |ContributionsOn(threads, link)| == |threads.Keys|
    ensures forall i :: 0 <= i < |ContributionsOn(threads, link)| ==> ContributionsOn(threads, link)[i] == U32_MAX
  {
    AllPositive(threads, Held(link));
  }

  lemma FullIsLoweredToTen()
    ensures var cs := [U32_MAX, U32_MAX, U32_MAX]; SatSum32(cs) > 5 && |Lowered(cs, 5)| == 3 && Sum(Lowered(cs, 5)) == 10
  {
    var cs := [U32_MAX, U32_MAX, U32_MAX];
    OverflowMissesLimit();
    DecayValuesFacts(cs, 5, SatSum32(cs), 3);
  }

  /** Three such threads are decayed to twice the cap of a link that carries next to nothing. */
  lemma DecayMissesCap(threads: Threads, link: nat, linkCount: nat, now: u64)
    requires link < MAX_DOMAINS && |threads.Keys| == 3 && AllFull(threads, link)
    ensures EvidenceLimit(4) == 5 && Total(DecayLink(threads, link, linkCount, 4, now), Held(link)) == 10
  {
    var cs := [U32_MAX, U32_MAX, U32_MAX];
    FullContributions(threads, link);
    assert ContributionsOn(threads, link) == cs;
    FullIsLoweredToTen();
    LoweredFacts(cs, 5);
    DecayWritesTotal(threads, link, linkCount, now, Lowered(cs, 5));
  }

  /** Such threads exist. */
  lemma FullThreads() returns (threads: Threads)
    ensures |threads.Keys| == 3 && AllFull(threads, 0)
  {
    var full := Evidence(true, true, 2, 1, 7_000, U32_MAX, [U32_MAX], [U32_MAX]);
    threads := map[0 := full, 1 := full, 2 := full];
    assert threads.Keys == {0, 1, 2};
  }

  // ----- all links -----

  function StaleMs(cfg: Policy, linkCount: nat): u64 {
    SatMul64(Max(cfg.dfStaleMs, 1), Min(Max(linkCount, 1), U64_MAX))
  }

  /** The bandwidth of a link whose sample is fresh. */
  function FreshBandwidth(states: seq<Option<DfState>>, link: nat, now: u64, staleMs: u64): Option<u32> {
    var s := Lookup(states, link);
    if s.Some? && s.value.valid && !IsStale(s.value.sampleTs, now, staleMs) then Some(LinkBandwidth(s.value)) else None
  }

  datatype Sweep = Sweep(states: seq<Option<DfState>>, now: u64, cfg: Policy) {
    function LinkCount(): nat { Min(|states|, MAX_DOMAINS) }

    function Bandwidth(link: nat): Option<u32> { FreshBandwidth(states, link, now, StaleMs(cfg, LinkCount())) }
  }

  type Stepper = (Threads, nat) -> Threads

  /** Decay a link to its fresh bandwidth, if it has one. */
  function DecayStep(w: Sweep, threads: Threads, link: nat): Threads {
    match w.Bandwidth(link)
    case None => threads
    case Some(bw) => DecayLink(threads, link, w.LinkCount(), bw, w.now)
  }

  function StepperOf(w: Sweep): Stepper { (threads: Threads, link: nat) => DecayStep(w, threads, link) }

  function Swept(threads: Threads, w: Sweep): Threads { SweepUpTo(threads, StepperOf(w), w.LinkCount()) }

  lemma DecayKeepsKeys(threads: Threads, link: nat, linkCount: nat, bandwidth: u32, now: u64)
    ensures DecayLink(threads, link, linkCount, bandwidth, now).Keys == threads.Keys
  {
    LoweredFacts(ContributionsOn(threads, link), EvidenceLimit(bandwidth));
  }

  lemma OtherLinksStay(a: Evidence, b: Evidence, link: nat, l: nat)
    requires OnlyLowers(a, b, link)
    ensures b.On(l) <= a.On(l) && b.HeldOn(l) <= a.HeldOn(l)
    ensures l != link ==> b.On(l) == a.On(l) && b.HeldOn(l) == a.HeldOn(l)
  {
  }

  function Recorded(): (Evidence, nat) -> nat { (e: Evidence, l: nat) => e.On(l) }

  function Counted(): (Evidence, nat) -> nat { (e: Evidence, l: nat) => e.HeldOn(l) }

  /** A decay step lowers both what is recorded and what counts, on its own link only. */
  lemma DecaySteps(w: Sweep)
    ensures Steps(StepperOf(w), Recorded()) && Steps(StepperOf(w), Counted())
  {
    forall m: Threads, l: nat ensures StepperOf(w)(m, l).Keys == m.Keys {
      if w.Bandwidth(l).Some? {
        DecayKeepsKeys(m, l, w.LinkCount(), w.Bandwidth(l).value, w.now);
      }
    }
    forall m: Threads, l: nat, t: nat, j: nat | t in m && t in StepperOf(w)(m, l)
      ensures Recorded()(StepperOf(w)(m, l)[t], j) <= Recorded()(m[t], j) && Counted()(StepperOf(w)(m, l)[t], j) <= Counted()(m[t], j)
      ensures j != l ==>
                Recorded()(StepperOf(w)(m, l)[t], j) == Recorded()(m[t], j) && Counted()(StepperOf(w)(m, l)[t], j) == Counted()(m[t], j)
    {
      NothingIsLowered(m[t], l);
      if w.Bandwidth(l).Some? {
        DecayOnlyLowers(m, l, w.LinkCount(), w.Bandwidth(l).value, w.now, t);
      }
      OtherLinksStay(m[t], StepperOf(w)(m, l)[t], l, j);
    }
  }

  lemma HeldIsCounted(m: Threads, l: nat)
    ensures Total(m, Held(l)) == Total(m, At(Counted(), l))
  {
    SameMeasure(m, Held(l), At(Counted(), l));
  }

  /** Equal measures make the same entries count, with the same measures. */
  lemma SameContributions(a: Threads, b: Threads, l: nat)
    requires a.Keys == b.Keys && forall t :: t in a ==> a[t].HeldOn(l) == b[t].HeldOn(l)
    ensures ContributionsOn(a, l) == ContributionsOn(b, l)
  {
    SamePositive(a, b, Held(l));
    assert TidsOn(a, l) == TidsOn(b, l);
  }

  lemma StepCapsTotal(w: Sweep, here: Threads, l: nat)
    requires l < w.LinkCount() && w.Bandwidth(l).Some?
    ensures var limit := EvidenceLimit(w.Bandwidth(l).value);
            && (Total(StepperOf(w)(here, l), Held(l)) <= limit <==> RoomFor(ContributionsOn(here, l), limit))
            && (Total(here, Held(l)) <= U32_MAX ==> RoomFor(ContributionsOn(here, l), limit))
  {
    DecayCapsTotal(here, l, w.LinkCount(), w.Bandwidth(l).value, w.now);
  }

  /** A link's contributions are untouched when the sweep reaches it. */
  lemma ContributionsOnArrival(threads: Threads, w: Sweep, l: nat)
    ensures ContributionsOn(SweepUpTo(threads, StepperOf(w), l), l) == ContributionsOn(threads, l)
  {
    var step := StepperOf(w);
    DecaySteps(w);
    SweepKeepsKeys(threads, step, Counted(), l);
    forall t | t in threads ensures SweepUpTo(threads, step, l)[t].HeldOn(l) == threads[t].HeldOn(l) {
      SweepEntry(threads, step, Counted(), l, l, t);
    }
    SameContributions(SweepUpTo(threads, step, l), threads, l);
  }

  /**
   * After a sweep, a link with a fresh sample holds no more than its limit exactly when its scaled contributions left
   * room for the last one, and so whenever its prior total fits in 32 bits.
   */
  lemma SweepCapsLinks(threads: Threads, w: Sweep, l: nat)
    requires l < w.LinkCount() && w.Bandwidth(l).Some?
    ensures var limit := EvidenceLimit(w.Bandwidth(l).value);
            && (Total(Swept(threads, w), Held(l)) <= limit <==> RoomFor(ContributionsOn(threads, l), limit))
            && (Total(threads, Held(l)) <= U32_MAX ==> RoomFor(ContributionsOn(threads, l), limit))
  {
    var step := StepperOf(w);
    var here := SweepUpTo(threads, step, l);
    DecaySteps(w);
    TotalOnDeparture(threads, step, Counted(), l, w.LinkCount());
    HeldIsCounted(step(here, l), l);
    HeldIsCounted(Swept(threads, w), l);
    StepCapsTotal(w, here, l);
    ContributionsOnArrival(threads, w, l);
    ContributorsFacts(threads, l);
    ContributorsFacts(here, l);
  }

  lemma StepLeavesSmallTotals(w: Sweep, here: Threads, l: nat)
    requires w.Bandwidth(l).Some? ==> Total(here, Held(l)) <= EvidenceLimit(w.Bandwidth(l).value)
    ensures StepperOf(w)(here, l) == here
  {
    if w.Bandwidth(l).Some? {
      DecayLeavesSmallTotals(here, l, w.LinkCount(), w.Bandwidth(l).value, w.now);
    }
  }

  /** No thread's contribution grows on any link. */
  lemma SweepNeverRaises(threads: Threads, w: Sweep, l: nat, t: nat)
    requires t in threads
    ensures Swept(threads, w).Keys == threads.Keys && Swept(threads, w)[t].On(l) <= threads[t].On(l)
  {
    DecaySteps(w);
    SweepEntry(threads, StepperOf(w), Recorded(), w.LinkCount(), l, t);
    SweepKeepsKeys(threads, StepperOf(w), Recorded(), w.LinkCount());
  }

  /** A link already under its limit, or without a fresh sample, keeps every contribution. */
  lemma SweepKeepsSmallLinks(threads: Threads, w: Sweep, l: nat, t: nat)
    requires t in threads && l < w.LinkCount()
    requires w.Bandwidth(l).Some? ==> Total(threads, Held(l)) <= EvidenceLimit(w.Bandwidth(l).value)
    ensures t in Swept(threads, w) && Swept(threads, w)[t].On(l) == threads[t].On(l)
  {
    var step := StepperOf(w);
    var here := SweepUpTo(threads, step, l);
    DecaySteps(w);
    TotalOnArrival(threads, step, Counted(), l);
    HeldIsCounted(threads, l);
    HeldIsCounted(here, l);
    StepLeavesSmallTotals(w, here, l);
    SweepPassesBy(threads, step, Recorded(), w.LinkCount(), l, t);
    SweepEntry(threads, step, Recorded(), l, l, t);
  }
}
