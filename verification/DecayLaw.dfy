/** A decay takes no more than it has to: what it leaves is its limit, short of it by rounding only. */
module DecayLaw {
  import opened Arithmetic
  import opened Machine
  import opened Apportion
  import opened Samples
  import opened KeyedTotals
  import opened SweepTotals
  import opened DecayMath
  import opened EvidenceStore

  /** Scaling one contribution keeps more than its part of the limit less one. */
  lemma ScaledIsClose(c: nat, limit: nat, before: nat, total: nat)
    requires 0 < before <= total && limit <= total
    ensures Product(Scaled(c, limit, before) + 1, total) >= Product(limit, c)
  {
    var q := Product(limit, c) / before;
    DivisionSplits(Product(limit, c), before);
    Distributes(q, 1, before);
    assert Product(q + 1, before) >= Product(limit, c);
    Commutes(before, q + 1);
    Commutes(total, q + 1);
    MulKeepsOrder(before, total, q + 1);
    Distributes(c, 1, total);
    MulKeepsOrder(limit, total, c);
    Commutes(c, total);
  }

  lemma {:induction false} ScaledAreClose(cs: seq<nat>, limit: nat, before: nat, total: nat, i: nat)
    requires 0 < before <= total && limit <= total && i <= |cs|
    ensures Product(ScaledUpTo(cs, limit, before, i) + i, total) >= Product(limit, SumTo(cs, i))
  {
    if i > 0 {
      ScaledAreClose(cs, limit, before, total, i - 1);
      var taken, s := ScaledUpTo(cs, limit, before, i - 1), Scaled(cs[i - 1], limit, before);
      ScaledIsClose(cs[i - 1], limit, before, total);
      Distributes(taken + i - 1, s + 1, total);
      DistributesRight(limit, SumTo(cs, i - 1), cs[i - 1]);
    }
  }

  /** If the last contribution is kept whole, the sum misses the limit by less than one for each other one. */
  lemma KeptLastIsClose(cs: seq<nat>, limit: nat, before: nat)
    requires cs != [] && 0 < before <= Sum(cs) && limit <= Sum(cs)
    ensures ScaledUpTo(cs, limit, before, |cs| - 1) + cs[|cs| - 1] + |cs| - 1 >= limit
  {
    var n, total := |cs| - 1, Sum(cs);
    var taken, last := ScaledUpTo(cs, limit, before, n), cs[n];
    ScaledAreClose(cs, limit, before, total, n);
    Distributes(taken + n, last, total);
    DistributesRight(limit, SumTo(cs, n), last);
    MulKeepsOrder(limit, total, last);
    Commutes(last, total);
    CancelFactor(limit, taken + n + last, total);
  }

  /** What is left of contributions above their limit, last one included. */
  ghost predicate LeftAtLimit(cs: seq<nat>, limit: nat, r: seq<nat>) {
    && |r| == |cs| && Sum(r) + |cs| > limit
    && (Sum(r) <= limit ==> Sum(r) == limit || r[|cs| - 1] == cs[|cs| - 1])
  }

  lemma LoweredIsClose(cs: seq<nat>, limit: nat)
    requires Sum(cs) > limit
    ensures LeftAtLimit(cs, limit, Lowered(cs, limit))
  {
    SatSumIsCapped(cs, |cs|);
    var n, before, r := |cs| - 1, SatSum32(cs), Lowered(cs, limit);
    if before > limit {
      DecayValuesFacts(cs, limit, before, |cs|);
      DecayedIsScaled(cs, limit, before, n);
      KeptLastIsClose(cs, limit, before);
      assert r[n] == DecayedAt(cs, limit, before, n);
    }
  }

  ghost function PartOf(limit: nat, c: nat, total: nat): nat
    requires total > 0
  {
    limit * c / total
  }

  /** When the sum fits in 32 bits, all but the last keep exactly the floor of their part of the limit. */
  lemma LoweredInProportion(cs: seq<nat>, limit: nat, i: nat)
    requires i + 1 < |cs| && limit < Sum(cs) <= U32_MAX
    ensures |Lowered(cs, limit)| == |cs| && Lowered(cs, limit)[i] == PartOf(limit, cs[i], Sum(cs))
  {
    SatSumIsCapped(cs, |cs|);
    DecayValuesFacts(cs, limit, Sum(cs), |cs|);
    var c, total := cs[i], Sum(cs);
    MulKeepsOrder(limit, total, c);
    Commutes(limit, c);
    DivisionGrows(Product(limit, c), c * total, total);
    QuotientOf(c, total, 0);
  }

  // ----- on a link -----

  /** The cap is five quarters of the bandwidth, short by less than one, as far as a word holds it. */
  lemma CapIsFiveQuarters(bandwidth: u32)
    ensures 5 * bandwidth < 4 * (U32_MAX + 1) ==> 4 * EvidenceLimit(bandwidth) <= 5 * bandwidth < 4 * EvidenceLimit(bandwidth) + 4
    ensures 5 * bandwidth >= 4 * U32_MAX ==> EvidenceLimit(bandwidth) == U32_MAX
  {
  }

  /** A total above the cap is left at the cap: below it by less than the number of contributors, and no thread wiped for it. */
  lemma DecayIsClose(threads: Threads, link: nat, linkCount: nat, bandwidth: u32, now: u64)
    requires link < MAX_DOMAINS && Total(threads, Held(link)) > EvidenceLimit(bandwidth)
    ensures var after, tids := DecayLink(threads, link, linkCount, bandwidth, now), TidsOn(threads, link);
            && Total(after, Held(link)) + |tids| > EvidenceLimit(bandwidth)
            && (Total(after, Held(link)) < EvidenceLimit(bandwidth) ==>
                  && tids != [] && tids[|tids| - 1] in after
                  && after[tids[|tids| - 1]].HeldOn(link) == threads[tids[|tids| - 1]].HeldOn(link))
  {
    var cs, limit, tids := ContributionsOn(threads, link), EvidenceLimit(bandwidth), TidsOn(threads, link);
    ContributorsFacts(threads, link);
    LoweredFacts(cs, limit);
    LoweredIsClose(cs, limit);
    DecayWritesTotal(threads, link, linkCount, now, Lowered(cs, limit));
    DecayWrites(threads, link, linkCount, now, Lowered(cs, limit), tids[|tids| - 1]);
  }

  lemma WritesLand(threads: Threads, link: nat, linkCount: nat, now: u64, vals: seq<nat>, i: nat)
    requires |vals| == |TidsOn(threads, link)| && i < |vals|
    requires forall j :: 0 <= j < |vals| ==> vals[j] <= ContributionsOn(threads, link)[j]
    ensures var after, t := Rewritten(threads, DecayWriter(link, linkCount, now), TidsOn(threads, link), vals), TidsOn(threads, link)[i];
            t in after && after[t].HeldOn(link) == vals[i]
  {
    DecayWrites(threads, link, linkCount, now, vals, TidsOn(threads, link)[i]);
  }

  lemma DecayIs(threads: Threads, link: nat, linkCount: nat, bandwidth: u32, now: u64, vals: seq<nat>)
    requires link < MAX_DOMAINS && TidsOn(threads, link) != []
    requires SatSum32(ContributionsOn(threads, link)) > EvidenceLimit(bandwidth)
    requires vals == Lowered(ContributionsOn(threads, link), EvidenceLimit(bandwidth))
    ensures |vals| == |TidsOn(threads, link)| && forall j :: 0 <= j < |vals| ==> vals[j] <= ContributionsOn(threads, link)[j]
    ensures DecayLink(threads, link, linkCount, bandwidth, now)
            == Rewritten(threads, DecayWriter(link, linkCount, now), TidsOn(threads, link), vals)
  {
    LoweredFacts(ContributionsOn(threads, link), EvidenceLimit(bandwidth));
  }

  lemma DecayWritesLowered(threads: Threads, link: nat, linkCount: nat, bandwidth: u32, now: u64, vals: seq<nat>, i: nat)
    requires link < MAX_DOMAINS && SatSum32(ContributionsOn(threads, link)) > EvidenceLimit(bandwidth) && i < |TidsOn(threads, link)|
    requires vals == Lowered(ContributionsOn(threads, link), EvidenceLimit(bandwidth))
    ensures var after, t := DecayLink(threads, link, linkCount, bandwidth, now), TidsOn(threads, link)[i];
            |vals| == |TidsOn(threads, link)| && t in after && after[t].HeldOn(link) == vals[i]
  {
    DecayIs(threads, link, linkCount, bandwidth, now, vals);
    WritesLand(threads, link, linkCount, now, vals, i);
  }

  /** A total that fits in 32 bits is shared out in proportion: each contributor but the last keeps the floor of its part of the cap. */
  lemma DecayKeepsProportion(threads: Threads, link: nat, linkCount: nat, bandwidth: u32, now: u64, i: nat)
    requires link < MAX_DOMAINS && EvidenceLimit(bandwidth) < Total(threads, Held(link)) <= U32_MAX
    requires i + 1 < |TidsOn(threads, link)|
    ensures var after, t := DecayLink(threads, link, linkCount, bandwidth, now), TidsOn(threads, link)[i];
            && t in after
            && after[t].HeldOn(link) == PartOf(EvidenceLimit(bandwidth), threads[t].HeldOn(link), Total(threads, Held(link)))
  {
    var cs, limit := ContributionsOn(threads, link), EvidenceLimit(bandwidth);
    ContributorsFacts(threads, link);
    SatSumIsCapped(cs, |cs|);
    LoweredInProportion(cs, limit, i);
    DecayWritesLowered(threads, link, linkCount, bandwidth, now, Lowered(cs, limit), i);
  }

  /** A sweep leaves each link with a fresh sample that was above its cap at the cap, short of it by rounding only. */
  lemma SweepIsClose(threads: Threads, w: Sweep, l: nat)
    requires l < w.LinkCount() && w.Bandwidth(l).Some? && Total(threads, Held(l)) > EvidenceLimit(w.Bandwidth(l).value)
    ensures Total(Swept(threads, w), Held(l)) + |TidsOn(threads, l)| > EvidenceLimit(w.Bandwidth(l).value)
  {
    var step := StepperOf(w);
    var here := SweepUpTo(threads, step, l);
    DecaySteps(w);
    TotalOnDeparture(threads, step, Counted(), l, w.LinkCount());
    HeldIsCounted(step(here, l), l);
    HeldIsCounted(Swept(threads, w), l);
    ContributionsOnArrival(threads, w, l);
    ContributorsFacts(threads, l);
    ContributorsFacts(here, l);
    DecayIsClose(here, l, w.LinkCount(), w.Bandwidth(l).value, w.now);
  }
}
