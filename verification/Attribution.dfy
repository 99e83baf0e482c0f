/** Charging a measured change of link traffic to the threads whose own traffic moved with it. */
module Attribution {
  import opened Arithmetic
  import opened Machine
  import opened Ordered
  import opened Samples
  import opened Apportion
  import opened KeyedTotals
  import opened SweepTotals
  import opened DecayMath
  import opened EvidenceStore

  const DRAM_NEAR: nat := 2
  const WEIGHT_FLOOR: u32 := 100_000
  const WEIGHT_SCALE: u64 := 10_000
  const WEIGHT_MIN: u32 := 150
  const NEGATIVE_DECAY_DIVISOR: nat := 16

  datatype Traffic = Traffic(fill: seq<u32>, l2: u32)

  datatype Counters = Counters(lastSeen: u64, traffic: Traffic)

  datatype Source = DramNearFill | TotalFill | L2

  datatype Weighted = Weighted(tid: nat, weight: nat)

  function Ingress(t: Traffic, source: Source): u32 {
    match source
    case DramNearFill => if DRAM_NEAR < |t.fill| then t.fill[DRAM_NEAR] else 0
    case TotalFill => SatSum32(t.fill)
    case L2 => t.l2
  }

  function Abs(x: int): nat { if x < 0 then -x else x }

  predicate SameDirection(a: int, b: int) { (b > 0 && a > 0) || (b < 0 && a < 0) }

  /** The change of a thread's traffic relative to its baseline, when it is large enough to matter. */
  function RelativeWeight(delta: int, baseline: u32): Option<nat>
    requires Abs(delta) <= U32_MAX
  {
    if delta == 0 then None else
      var relative := Max(1, Min(SatMul64(Abs(delta), WEIGHT_SCALE) / Max(baseline, WEIGHT_FLOOR), U32_MAX));
      if relative < WEIGHT_MIN then None else Some(relative)
  }

  /** What decides weights: the armed counters, the live ones, the direction of the link, and the oldest sighting allowed. */
  datatype Scales = Scales(armed: map<nat, Traffic>, live: map<nat, Counters>, delta: int, cutoff: u64)

  function WeightOf(s: Scales, source: Source, tid: nat): Option<nat> {
    if tid !in s.armed || tid !in s.live || s.live[tid].lastSeen < s.cutoff then None else
      var was, now := Ingress(s.armed[tid], source), Ingress(s.live[tid].traffic, source);
      if !SameDirection(now - was, s.delta) then None else RelativeWeight(now - was, was)
  }

  type Weigher = nat -> Option<nat>

  function WeigherOf(s: Scales, source: Source): Weigher { (tid: nat) => WeightOf(s, source, tid) }

  /** The weighted threads among the first `k`. */
  function WeightsTo(weigh: Weigher, order: seq<nat>, k: nat): seq<Weighted>
    requires k <= |order|
  {
    if k == 0 then [] else
      var init, w := WeightsTo(weigh, order, k - 1), weigh(order[k - 1]);
      if w.Some? then init + [Weighted(order[k - 1], w.value)] else init
  }

  function WeightsFrom(s: Scales, source: Source): seq<Weighted> {
    var order := Ascending(s.armed.Keys);
    WeightsTo(WeigherOf(s, source), order, |order|)
  }

  /** The weights of the first source under which any thread moved with the link. */
  function Weights(s: Scales): seq<Weighted> {
    var near, total := WeightsFrom(s, DramNearFill), WeightsFrom(s, TotalFill);
    if near != [] then near else if total != [] then total else WeightsFrom(s, L2)
  }

  function Parts(ws: seq<Weighted>): (r: seq<nat>)
    ensures |r| == |ws| && forall i :: 0 <= i < |r| ==> r[i] == ws[i].weight
  {
    seq(|ws|, i requires 0 <= i < |ws| => ws[i].weight)
  }

  ghost predicate Sound(s: Scales, ws: seq<Weighted>) {
    && (forall i :: 0 <= i < |ws| ==> ws[i].tid in s.armed && ws[i].tid in s.live && WEIGHT_MIN <= ws[i].weight <= U32_MAX)
    && (forall i, j :: 0 <= i < j < |ws| ==> ws[i].tid < ws[j].tid)
  }

  lemma {:induction false} WeightsToAre(weigh: Weigher, order: seq<nat>, k: nat, i: nat)
    requires k <= |order| && i < |WeightsTo(weigh, order, k)|
    ensures var w := WeightsTo(weigh, order, k)[i]; w.tid in order[..k] && weigh(w.tid) == Some(w.weight)
  {
    assert order[..k] == order[..k - 1] + [order[k - 1]];
    if i < |WeightsTo(weigh, order, k - 1)| {
      WeightsToAre(weigh, order, k - 1, i);
    }
  }

  lemma {:induction false} WeightsToAscend(weigh: Weigher, order: seq<nat>, k: nat, i: nat, j: nat)
    requires k <= |order| && StrictlyAscending(order) && i < j < |WeightsTo(weigh, order, k)|
    ensures WeightsTo(weigh, order, k)[i].tid < WeightsTo(weigh, order, k)[j].tid
  {
    if j < |WeightsTo(weigh, order, k - 1)| {
      WeightsToAscend(weigh, order, k - 1, i, j);
    } else {
      WeightsToAre(weigh, order, k - 1, i);
    }
  }

  lemma WeightIsSound(s: Scales, source: Source, tid: nat)
    ensures var w := WeigherOf(s, source)(tid);
            w.Some? ==> tid in s.armed && tid in s.live && WEIGHT_MIN <= w.value <= U32_MAX
  {
  }

  lemma WeightsFromAreSound(s: Scales, source: Source)
    ensures Sound(s, WeightsFrom(s, source))
  {
    var order, ws := Ascending(s.armed.Keys), WeightsFrom(s, source);
    forall i | 0 <= i < |ws| ensures ws[i].tid in s.armed && ws[i].tid in s.live && WEIGHT_MIN <= ws[i].weight <= U32_MAX {
      WeightsToAre(WeigherOf(s, source), order, |order|, i);
      WeightIsSound(s, source, ws[i].tid);
    }
    forall i, j | 0 <= i < j < |ws| ensures ws[i].tid < ws[j].tid {
      WeightsToAscend(WeigherOf(s, source), order, |order|, i, j);
    }
  }

  /** Every weighted thread is armed and live, weighs at least the minimum, and is listed once. */
  lemma WeightsAreSound(s: Scales)
    ensures Sound(s, Weights(s))
    ensures Weights(s) != [] ==> Sum(Parts(Weights(s))) > 0
  {
    WeightsFromAreSound(s, DramNearFill);
    WeightsFromAreSound(s, TotalFill);
    WeightsFromAreSound(s, L2);
    if Weights(s) != [] {
      PositiveSum(Parts(Weights(s)));
    }
  }

  lemma {:induction false} AscendingCounts(s: Scales, ws: seq<Weighted>, k: nat)
    requires Sound(s, ws) && k < |ws|
    ensures k <= ws[k].tid
  {
    if k > 0 {
      AscendingCounts(s, ws, k - 1);
    }
  }

  /** With 32-bit thread ids, a 64-bit accumulator of the weights cannot saturate. */
  lemma WeightsFitWord(s: Scales)
    requires forall tid :: tid in s.armed ==> tid <= U32_MAX
    ensures Sum(Parts(Weights(s))) <= U64_MAX
  {
    var ws := Weights(s);
    WeightsAreSound(s);
    if ws != [] {
      AscendingCounts(s, ws, |ws| - 1);
      SumFitsWord(Parts(ws), |ws|);
      MulKeepsOrder(|ws|, U32_MAX + 1, U32_MAX);
    }
  }

  // ----- one share -----

  function Ewma(previous: nat, sample: nat): nat {
    if previous == 0 then sample else (previous * 3 + sample) / 4
  }

  function Filtered(previous: nat, share: nat, delta: int): nat {
    if delta > 0 then Ewma(previous, share)
    else SatSub(previous, (share + NEGATIVE_DECAY_DIVISOR - 1) / NEGATIVE_DECAY_DIVISOR)
  }

  /** A share of a rising link is blended in; a share of a falling one takes a sixteenth of itself away. */
  function Charged(e: Evidence, link: nat, linkCount: nat, share: nat, delta: int, now: u64): Evidence {
    if share == 0 || link >= MAX_DOMAINS then e else
      var samples := SatAdd32(e.sampleCount, 1);
      var confidence := if e.valid then Min(SatAdd32(e.confidence, 500), 10_000) else 7_000;
      var deltas := Put(e.deltas, link, Filtered(e.On(link), share, delta));
      e.(valid := true, sampleCount := samples, lastUpdate := now, confidence := confidence, deltas := deltas,
         raw := Put(e.raw, link, if delta > 0 then share else 0),
         projected := Projected(deltas, linkCount), stable := Settled(samples, confidence))
  }

  /** A charge moves evidence on its own link only, up by at most the share, and never up on a falling link. */
  lemma ChargeIsBounded(e: Evidence, link: nat, linkCount: nat, share: nat, delta: int, now: u64, l: nat)
    ensures Charged(e, link, linkCount, share, delta, now).On(l) <= e.On(l) + (if l == link && delta > 0 then share else 0)
    ensures l != link ==> Charged(e, link, linkCount, share, delta, now).On(l) == e.On(l)
    ensures e.valid ==> Charged(e, link, linkCount, share, delta, now).valid
  {
  }

  // ----- all shares of a link's delta -----

  datatype Change = Change(link: nat, linkCount: nat, delta: int, now: u64)

  function ChargeOne(sigs: Threads, c: Change, tid: nat, share: nat): Threads {
    if share == 0 || tid !in sigs then sigs
    else sigs[tid := Charged(sigs[tid], c.link, c.linkCount, share, c.delta, c.now)]
  }

  type Charger = (Threads, nat) -> Threads

  /** Charge the `i`-th weighted thread its share. */
  function ChargerOf(c: Change, ws: seq<Weighted>): Charger {
    (sigs: Threads, i: nat) =>
      if i < |ws| && Sum(Parts(ws)) > 0 then ChargeOne(sigs, c, ws[i].tid, ShareAt(Abs(c.delta), Parts(ws), i)) else sigs
  }

  function Charges(sigs: Threads, c: Change, ws: seq<Weighted>): Threads { SweepUpTo(sigs, ChargerOf(c, ws), |ws|) }

  function OnLink(l: nat): Evidence -> nat { (e: Evidence) => e.On(l) }

  lemma ChargeOneIsBounded(sigs: Threads, c: Change, tid: nat, share: nat, l: nat)
    ensures ChargeOne(sigs, c, tid, share).Keys == sigs.Keys
    ensures Total(ChargeOne(sigs, c, tid, share), OnLink(l)) <= Total(sigs, OnLink(l)) + (if l == c.link && c.delta > 0 then share else 0)
    ensures l != c.link ==> Total(ChargeOne(sigs, c, tid, share), OnLink(l)) == Total(sigs, OnLink(l))
  {
    if share != 0 && tid in sigs {
      var e := Charged(sigs[tid], c.link, c.linkCount, share, c.delta, c.now);
      ChargeIsBounded(sigs[tid], c.link, c.linkCount, share, c.delta, c.now, l);
      TotalMoves(sigs, tid, e, OnLink(l));
    }
  }

  function TotalOn(l: nat): Threads -> nat { (sigs: Threads) => Total(sigs, OnLink(l)) }

  function SharesOf(c: Change, ws: seq<Weighted>): nat -> nat {
    (i: nat) => if i < |ws| && Sum(Parts(ws)) > 0 && c.delta > 0 then ShareAt(Abs(c.delta), Parts(ws), i) else 0
  }

  lemma {:induction false} SharesOfSum(c: Change, ws: seq<Weighted>, k: nat)
    requires k <= |ws| && Sum(Parts(ws)) > 0
    ensures SumF(SharesOf(c, ws), k) == if c.delta > 0 then SharesUpTo(Abs(c.delta), Parts(ws), k) else 0
  {
    if k > 0 {
      SharesOfSum(c, ws, k - 1);
    }
  }

  lemma ChargerIsBounded(sigs: Threads, c: Change, ws: seq<Weighted>, i: nat, l: nat)
    ensures var step := ChargerOf(c, ws);
            && step(sigs, i).Keys == sigs.Keys
            && TotalOn(l)(step(sigs, i)) <= TotalOn(l)(sigs) + SharesOf(c, ws)(i)
            && (l != c.link ==> TotalOn(l)(step(sigs, i)) == TotalOn(l)(sigs))
  {
    if i < |ws| && Sum(Parts(ws)) > 0 {
      ChargeOneIsBounded(sigs, c, ws[i].tid, ShareAt(Abs(c.delta), Parts(ws), i), l);
    }
  }

  /** The charges together raise the link's total by at most the rise of the link, and no other link's total. */
  lemma ChargesAreBounded(sigs: Threads, c: Change, ws: seq<Weighted>, l: nat)
    requires Sum(Parts(ws)) > 0
    ensures var after := Charges(sigs, c, ws);
            && after.Keys == sigs.Keys && TotalOn(l)(after) <= TotalOn(l)(sigs) + Max(c.delta, 0)
            && (l != c.link ==> TotalOn(l)(after) == TotalOn(l)(sigs))
  {
    var step := ChargerOf(c, ws);
    forall m: Threads, i: nat
      ensures step(m, i).Keys == m.Keys && TotalOn(l)(step(m, i)) <= TotalOn(l)(m) + SharesOf(c, ws)(i)
      ensures l != c.link ==> TotalOn(l)(step(m, i)) == TotalOn(l)(m)
    {
      ChargerIsBounded(m, c, ws, i, l);
    }
    SweepRises(sigs, step, TotalOn(l), SharesOf(c, ws), |ws|);
    if l != c.link {
      SweepHolds(sigs, step, TotalOn(l), |ws|);
    }
    SharesOfSum(c, ws, |ws|);
    SharesAreExact(Abs(c.delta), Parts(ws));
  }

  lemma ChargeLands(sigs: Threads, c: Change, tid: nat, share: nat, t: nat)
    requires t in sigs
    ensures var after := ChargeOne(sigs, c, tid, share);
            t in after && after[t] == if tid == t then Charged(sigs[t], c.link, c.linkCount, share, c.delta, c.now) else sigs[t]
  {
  }

  function ShareOf(c: Change, ws: seq<Weighted>, i: nat): nat
    requires i < |ws| && Sum(Parts(ws)) > 0
  {
    ShareAt(Abs(c.delta), Parts(ws), i)
  }

  /** A thread not among the first `k` weighted is as it was. */
  lemma {:induction false} ChargesMiss(sigs: Threads, c: Change, ws: seq<Weighted>, k: nat, t: nat)
    requires k <= |ws| && Sum(Parts(ws)) > 0 && t in sigs && forall i :: 0 <= i < k ==> ws[i].tid != t
    ensures var after := SweepUpTo(sigs, ChargerOf(c, ws), k); t in after && after[t] == sigs[t]
  {
    if k > 0 {
      ChargesMiss(sigs, c, ws, k - 1, t);
      ChargeLands(SweepUpTo(sigs, ChargerOf(c, ws), k - 1), c, ws[k - 1].tid, ShareOf(c, ws, k - 1), t);
    }
  }

  lemma {:induction false} ChargesHit(s: Scales, sigs: Threads, c: Change, ws: seq<Weighted>, k: nat, i: nat)
    requires i < k <= |ws| && Sum(Parts(ws)) > 0 && Sound(s, ws) && ws[i].tid in sigs
    ensures var after, t := SweepUpTo(sigs, ChargerOf(c, ws), k), ws[i].tid;
            t in after && after[t] == Charged(sigs[t], c.link, c.linkCount, ShareOf(c, ws, i), c.delta, c.now)
  {
    var t := ws[i].tid;
    if i + 1 < k {
      ChargesHit(s, sigs, c, ws, k - 1, i);
    } else {
      ChargesMiss(sigs, c, ws, i, t);
    }
    ChargeLands(SweepUpTo(sigs, ChargerOf(c, ws), k - 1), c, ws[k - 1].tid, ShareOf(c, ws, k - 1), t);
  }

  /** Each weighted thread is charged exactly its own share, and the shares charged add up to the change. */
  lemma ChargesLand(s: Scales, sigs: Threads, c: Change, ws: seq<Weighted>, i: nat)
    requires i < |ws| && Sum(Parts(ws)) > 0 && Sound(s, ws) && ws[i].tid in sigs
    ensures var after, t := Charges(sigs, c, ws), ws[i].tid;
            t in after && after[t] == Charged(sigs[t], c.link, c.linkCount, ShareOf(c, ws, i), c.delta, c.now)
    ensures SharesUpTo(Abs(c.delta), Parts(ws), |ws|) == Abs(c.delta)
  {
    ChargesHit(s, sigs, c, ws, |ws|, i);
    SharesAreExact(Abs(c.delta), Parts(ws));
  }

  // ----- one link -----

  /** The signatures when the shares of a change have been charged, and before any decay. */
  function AfterCharges(sigs: Threads, c: Change, ws: seq<Weighted>): Threads {
    if ws == [] || Sum(Parts(ws)) == 0 then sigs else Charges(sigs, c, ws)
  }

  /** A fresh link: its change, and the bandwidth it now carries. */
  function LinkApplied(sigs: Threads, c: Change, ws: seq<Weighted>, bandwidth: u32): Threads {
    if c.delta == 0 then sigs else
      var charged := AfterCharges(sigs, c, ws);
      if c.delta < 0 then DecayLink(charged, c.link, c.linkCount, bandwidth, c.now) else charged
  }

  lemma DecayIsBounded(sigs: Threads, c: Change, bandwidth: u32, l: nat)
    ensures var after := DecayLink(sigs, c.link, c.linkCount, bandwidth, c.now);
            && after.Keys == sigs.Keys && Total(after, OnLink(l)) <= Total(sigs, OnLink(l))
            && (l != c.link ==> Total(after, OnLink(l)) == Total(sigs, OnLink(l)))
  {
    var after := DecayLink(sigs, c.link, c.linkCount, bandwidth, c.now);
    DecayKeepsKeys(sigs, c.link, c.linkCount, bandwidth, c.now);
    forall t | t in sigs
      ensures OnLink(l)(after[t]) <= OnLink(l)(sigs[t]) && (l != c.link ==> OnLink(l)(after[t]) == OnLink(l)(sigs[t]))
    {
      DecayOnlyLowers(sigs, c.link, c.linkCount, bandwidth, c.now, t);
      OtherLinksStay(sigs[t], after[t], c.link, l);
    }
    TotalsOrdered(after, sigs, OnLink(l));
    if l != c.link {
      SameTotal(after, sigs, OnLink(l));
    }
  }

  lemma TotalsOrdered<E>(a: map<nat, E>, b: map<nat, E>, f: E -> nat)
    requires a.Keys == b.Keys && forall t :: t in a ==> f(a[t]) <= f(b[t])
    ensures Total(a, f) <= Total(b, f)
  {
    var order := Ascending(a.Keys);
    forall i | 0 <= i < |order| ensures order[i] in a && order[i] in b && f(a[order[i]]) <= f(b[order[i]]) {
      assert order[i] in order;
    }
    TotalsOrderedTo(a, b, order, f, |order|);
  }

  lemma {:induction false} TotalsOrderedTo<E>(a: map<nat, E>, b: map<nat, E>, order: seq<nat>, f: E -> nat, k: nat)
    requires k <= |order| && forall i :: 0 <= i < k ==> order[i] in a && order[i] in b && f(a[order[i]]) <= f(b[order[i]])
    ensures TotalTo(a, order, f, k) <= TotalTo(b, order, f, k)
  {
    if k > 0 {
      TotalsOrderedTo(a, b, order, f, k - 1);
    }
  }

  /**
   * Applying a link's change records at most that change: the evidence on the link grows by no more than
   * the link's own rise, and not at all when it fell; other links keep their totals.
   */
  lemma LinkAppliedIsBounded(sigs: Threads, c: Change, ws: seq<Weighted>, bandwidth: u32, l: nat)
    ensures var after := LinkApplied(sigs, c, ws, bandwidth);
            && after.Keys == sigs.Keys
            && Total(after, OnLink(l)) <= Total(sigs, OnLink(l)) + (if l == c.link then Max(c.delta, 0) else 0)
            && (l != c.link ==> Total(after, OnLink(l)) == Total(sigs, OnLink(l)))
  {
    if c.delta != 0 {
      if ws != [] && Sum(Parts(ws)) > 0 {
        ChargesAreBounded(sigs, c, ws, l);
      }
      DecayIsBounded(AfterCharges(sigs, c, ws), c, bandwidth, l);
    }
  }

  lemma HeldIsRecorded(sigs: Threads, l: nat, order: seq<nat>, k: nat)
    requires k <= |order| && forall i :: 0 <= i < |order| ==> order[i] in sigs
    ensures TotalTo(sigs, order, Held(l), k) <= TotalTo(sigs, order, OnLink(l), k)
  {
  }

  lemma ChargedFallFits(sigs: Threads, c: Change, ws: seq<Weighted>)
    requires c.delta < 0 && Total(sigs, OnLink(c.link)) <= U32_MAX
    ensures Total(AfterCharges(sigs, c, ws), Held(c.link)) <= U32_MAX
  {
    var charged := AfterCharges(sigs, c, ws);
    if ws != [] && Sum(Parts(ws)) > 0 {
      ChargesAreBounded(sigs, c, ws, c.link);
    }
    var order := Ascending(charged.Keys);
    assert forall i :: 0 <= i < |order| ==> order[i] in order;
    HeldIsRecorded(charged, c.link, order, |order|);
  }

  /**
   * When a link fell, the evidence left on it is within five quarters of what it now carries exactly when the scaled
   * contributions leave room for the last one, and so whenever the prior evidence fits in 32 bits.
   */
  lemma FallingLinkIsCapped(sigs: Threads, c: Change, ws: seq<Weighted>, bandwidth: u32)
    requires c.delta < 0 && c.link < MAX_DOMAINS
    ensures var contributions, limit := ContributionsOn(AfterCharges(sigs, c, ws), c.link), EvidenceLimit(bandwidth);
            && (Total(LinkApplied(sigs, c, ws, bandwidth), Held(c.link)) <= limit <==> RoomFor(contributions, limit))
            && (Total(sigs, OnLink(c.link)) <= U32_MAX ==> RoomFor(contributions, limit))
  {
    DecayCapsTotal(AfterCharges(sigs, c, ws), c.link, c.linkCount, bandwidth, c.now);
    if Total(sigs, OnLink(c.link)) <= U32_MAX {
      ChargedFallFits(sigs, c, ws);
    }
  }
}
