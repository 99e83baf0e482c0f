/** The cost of a placement candidate, its order, and the margin a move must clear. */
module PlacementCost {
  import opened Arithmetic
  import opened Machine
  import opened Ordered
  import opened CpuSelect

  const PRESSURE_COST_UNIT: u64 := 4_000_000_000_000
  const BALANCE_DEADBAND: u32 := 250_000

  // ----- slots -----

  datatype Slots = Within | Over(extra: u32, domains: u32) {
    function Combine(other: Slots): Slots {
      if Within? then other else if other.Within? then this
      else Over(SatAdd32(extra, other.extra), SatAdd32(domains, other.domains))
    }

    predicate Less(other: Slots) {
      match this
      case Within => other.Over?
      case Over(e, d) => other.Over? && (e < other.extra || (e == other.extra && d < other.domains))
    }

    function Rank(): seq<int> {
      match this
      case Within => [0, 0, 0]
      case Over(e, d) => [1, e, d]
    }
  }

  function SlotsOf(tasks: u32, cpus: nat): Slots {
    var extra := if cpus == 0 then tasks else SatSub(tasks, cpus);
    if extra == 0 then Within else Over(extra, 1)
  }

  /** Over capacity exactly when there are more tasks than CPUs, and by how many. */
  lemma SlotsCountExtraTasks(tasks: u32, cpus: nat)
    ensures SlotsOf(tasks, cpus).Over? <==> tasks > cpus
    ensures SlotsOf(tasks, cpus).Over? ==> SlotsOf(tasks, cpus).extra + cpus == tasks
  {
  }

  // ----- costs -----

  datatype Cost = Cost(overload: u32, maxOverload: u32, pairPenalty: u64, pressure: u64, slots: Slots, cpuCost: u64) {
    function Soft(): u64 { SatAdd64(pressure, cpuCost) }

    /** The slot constraint decides; the soft cost breaks its ties. */
    predicate Better(other: Cost) {
      slots.Less(other.slots) || (!other.slots.Less(slots) && Soft() < other.Soft())
    }

    predicate ClearsMargin(baseline: Cost, margin: u32) {
      && Better(baseline)
      && (slots.Less(baseline.slots) || margin == 0
          || (Soft() < baseline.Soft() && Soft() <= SatSub(baseline.Soft(), SatMul64(baseline.Soft(), margin) / 10_000)))
    }
  }

  datatype Eval = Eval(domain: nat, cpu: nat, dfBefore: u32, llcBefore: u32, cost: Cost) {
    predicate Better(other: Eval) {
      cost.Better(other.cost) || (!other.cost.Better(cost) && LexLess(TieBreak(), other.TieBreak()))
    }

    function TieBreak(): seq<int> { [cost.overload, cost.maxOverload, cost.pairPenalty, cpu] }

    /** The whole key, most significant part first. */
    function Key(): seq<int> { cost.slots.Rank() + [cost.Soft()] + TieBreak() }
  }

  lemma SlotsLessIsRank(a: Slots, b: Slots)
    ensures a.Less(b) <==> LexLess(a.Rank(), b.Rank())
    ensures !a.Less(b) && !b.Less(a) ==> a.Rank() == b.Rank()
  {
    LexThree(a.Rank(), b.Rank());
  }

  lemma LexThree(x: seq<int>, y: seq<int>)
    requires |x| == |y| == 3
    ensures LexLess(x, y) <==> x[0] < y[0] || (x[0] == y[0] && (x[1] < y[1] || (x[1] == y[1] && x[2] < y[2])))
  {
    var x1, y1 := x[1..], y[1..];
    var x2, y2 := x1[1..], y1[1..];
    assert LexLess(x, y) <==> x[0] < y[0] || (x[0] == y[0] && LexLess(x1, y1));
    assert LexLess(x1, y1) <==> x1[0] < y1[0] || (x1[0] == y1[0] && LexLess(x2, y2));
    assert LexLess(x2, y2) <==> x2[0] < y2[0] || (x2[0] == y2[0] && LexLess(x2[1..], y2[1..]));
  }

  lemma {:induction false} LexAppend(a: seq<int>, b: seq<int>, x: seq<int>, y: seq<int>)
    requires |a| == |b|
    ensures LexLess(a + x, b + y) <==> LexLess(a, b) || (a == b && LexLess(x, y))
  {
    if a == [] {
      assert a + x == x && b + y == y;
    } else {
      LexAppend(a[1..], b[1..], x, y);
      assert (a + x)[1..] == a[1..] + x && (b + y)[1..] == b[1..] + y;
      assert a == [a[0]] + a[1..] && b == [b[0]] + b[1..];
    }
  }

  lemma CostBetterIsLex(a: Cost, b: Cost)
    ensures a.Better(b) <==> LexLess(a.slots.Rank() + [a.Soft()], b.slots.Rank() + [b.Soft()])
  {
    SlotsLessIsRank(a.slots, b.slots);
    SlotsLessIsRank(b.slots, a.slots);
    LexTotal(a.slots.Rank(), b.slots.Rank());
    LexAppend(a.slots.Rank(), b.slots.Rank(), [a.Soft()], [b.Soft()]);
  }

  /** Being better is the lexicographic order of the keys, hence a strict order, total on candidates of distinct CPUs. */
  lemma BetterIsLex(a: Eval, b: Eval)
    ensures a.Better(b) <==> LexLess(a.Key(), b.Key())
    ensures a.cpu != b.cpu ==> a.Better(b) || b.Better(a)
  {
    var x, y := a.cost.slots.Rank() + [a.cost.Soft()], b.cost.slots.Rank() + [b.cost.Soft()];
    CostBetterIsLex(a.cost, b.cost);
    CostBetterIsLex(b.cost, a.cost);
    LexTotal(x, y);
    LexAppend(x, y, a.TieBreak(), b.TieBreak());
    LexTotal(a.TieBreak(), b.TieBreak());
    assert a.cpu != b.cpu ==> a.TieBreak()[3] != b.TieBreak()[3];
  }

  lemma BetterIsTransitive(a: Eval, b: Eval, c: Eval)
    requires a.Better(b) && b.Better(c)
    ensures a.Better(c)
  {
    BetterIsLex(a, b);
    BetterIsLex(b, c);
    BetterIsLex(a, c);
    LexTransitive(a.Key(), b.Key(), c.Key());
  }

  lemma BetterIsStrict(a: Eval, b: Eval)
    ensures !(a.Better(b) && b.Better(a)) && !a.Better(a)
  {
    BetterIsLex(a, b);
    BetterIsLex(b, a);
    BetterIsLex(a, a);
    LexTotal(a.Key(), b.Key());
  }

  // ----- the margin -----

  /** The gain a margin stands for: that many hundredths of a per cent of the cost, rounded down, and at most all of it. */
  function NominalGain(soft: u64, margin: u32): nat {
    MulKeepsOrder(0, soft, margin);
    Min(soft, soft * margin / 10_000)
  }

  /** The gain that is asked for in 64 bits. */
  function AskedGain(soft: u64, margin: u32): nat { Min(soft, SatMul64(soft, margin) / 10_000) }

  predicate GainsMargin(a: Cost, b: Cost, margin: u32) {
    a.Soft() < b.Soft() && b.Soft() - a.Soft() >= NominalGain(b.Soft(), margin)
  }

  /** A product that saturates asks for no more than a ten-thousandth of the 64-bit range. */
  lemma AskedIsCapped(soft: u64, margin: u32)
    ensures AskedGain(soft, margin) == Min(NominalGain(soft, margin), U64_MAX / 10_000)
  {
    MulKeepsOrder(0, soft, margin);
    var product: nat := soft * margin;
    if product <= U64_MAX {
      DivisionGrows(product, U64_MAX, 10_000);
    } else {
      DivisionGrows(U64_MAX, product, 10_000);
    }
  }

  lemma AskedDecides(a: Cost, b: Cost, margin: u32)
    requires !a.slots.Less(b.slots)
    ensures a.ClearsMargin(b, margin) <==> a.Better(b) && b.Soft() - a.Soft() >= AskedGain(b.Soft(), margin)
  {
    assert margin == 0 ==> b.Soft() * margin == 0;
  }

  /** The candidate that gains just a ten-thousandth of the 64-bit range. */
  function Sliver(b: Cost): Cost
    requires b.Soft() >= U64_MAX / 10_000
  {
    Cost(0, 0, 0, b.Soft() - U64_MAX / 10_000, b.slots, 0)
  }

  /**
   * At an equal slot constraint the margin asks every candidate for its nominal gain exactly when that gain is at
   * most a ten-thousandth of the 64-bit range; above that, a candidate that gains just so much clears it.
   */
  lemma MarginIsRelativeGain(b: Cost, margin: u32)
    ensures (forall a: Cost | a.slots == b.slots :: a.ClearsMargin(b, margin) <==> GainsMargin(a, b, margin))
            <==> NominalGain(b.Soft(), margin) <= U64_MAX / 10_000
    ensures NominalGain(b.Soft(), margin) > U64_MAX / 10_000 ==>
              Sliver(b).ClearsMargin(b, margin) && !GainsMargin(Sliver(b), b, margin)
  {
    AskedIsCapped(b.Soft(), margin);
    forall a: Cost | a.slots == b.slots
      ensures a.ClearsMargin(b, margin) <==> a.Soft() < b.Soft() && b.Soft() - a.Soft() >= AskedGain(b.Soft(), margin)
    {
      AskedDecides(a, b, margin);
    }
    if NominalGain(b.Soft(), margin) > U64_MAX / 10_000 {
      assert Sliver(b).slots == b.slots && Sliver(b).Soft() == b.Soft() - U64_MAX / 10_000;
    }
  }

  /** The nominal gain is a part of the cost up to a whole, and all of it beyond: then only a zero cost gains it. */
  lemma MarginBeyondTheWhole(a: Cost, b: Cost, margin: u32)
    ensures margin <= 10_000 ==> NominalGain(b.Soft(), margin) == b.Soft() * margin / 10_000
    ensures margin >= 10_000 ==> (GainsMargin(a, b, margin) <==> 0 == a.Soft() < b.Soft())
  {
    MulKeepsOrder(0, b.Soft(), margin);
    Whole(b.Soft());
    if margin <= 10_000 {
      MulKeepsOrder(margin, 10_000, b.Soft());
      DivisionGrows(b.Soft() * margin, b.Soft() * 10_000, 10_000);
    } else {
      MulKeepsOrder(10_000, margin, b.Soft());
      DivisionGrows(b.Soft() * 10_000, b.Soft() * margin, 10_000);
    }
  }

  lemma Whole(x: nat)
    ensures x * 10_000 / 10_000 == x
  {
    QuotientOf(x, 10_000, 0);
  }

  lemma AskedGrows(soft: u64, small: u32, large: u32)
    requires small <= large
    ensures AskedGain(soft, small) <= AskedGain(soft, large)
  {
    MulKeepsOrder(small, large, soft);
    MulKeepsOrder(0, small, soft);
    assert SatMul64(soft, small) <= SatMul64(soft, large);
    DivisionGrows(SatMul64(soft, small), SatMul64(soft, large), 10_000);
  }

  /** A move that clears a margin clears every smaller one. */
  lemma LargerMarginIsStricter(a: Cost, b: Cost, small: u32, large: u32)
    requires small <= large && a.ClearsMargin(b, large)
    ensures a.ClearsMargin(b, small)
  {
    if !a.slots.Less(b.slots) {
      AskedGrows(b.Soft(), small, large);
      AskedDecides(a, b, small);
      AskedDecides(a, b, large);
    }
  }

  /** So when the product does not fit, the margin asked for shrinks: here 20 per cent is asked, and 0.02 per cent suffices. */
  lemma SaturationShrinksMargin()
    ensures var b := Cost(0, 0, 0, U64_MAX, Within, 0);
            var a := Cost(0, 0, 0, U64_MAX - U64_MAX / 5_000, Within, 0);
            && a.ClearsMargin(b, 2_000) && !GainsMargin(a, b, 2_000)
            && (b.Soft() - a.Soft()) * 10_000 < b.Soft() * 3
  {
  }

  // ----- the best of the candidates seen -----

  function Note(best: Option<Eval>, e: Eval): Option<Eval> {
    if best.None? || e.Better(best.value) then Some(e) else best
  }

  /** The best of what the first `k` domains offer. */
  function BestTo(offer: nat -> Option<Eval>, order: seq<nat>, k: nat): Option<Eval>
    requires k <= |order|
  {
    if k == 0 then None else
      var best, e := BestTo(offer, order, k - 1), offer(order[k - 1]);
      if e.Some? then Note(best, e.value) else best
  }

  /** `d` is among the domains and offers a candidate that none of the others beats. */
  ghost predicate IsBest(offer: nat -> Option<Eval>, domains: seq<nat>, d: nat) {
    && d in domains && offer(d).Some?
    && forall x :: x in domains && offer(x).Some? ==> !offer(x).value.Better(offer(d).value)
  }

  function BestDomain(offer: nat -> Option<Eval>, order: seq<nat>, k: nat): nat
    requires k <= |order| && BestTo(offer, order, k).Some?
  {
    if offer(order[k - 1]).Some? && BestTo(offer, order, k) == offer(order[k - 1]) then order[k - 1]
    else BestDomain(offer, order, k - 1)
  }

  lemma {:induction false} BestToIsBest(offer: nat -> Option<Eval>, order: seq<nat>, k: nat)
    requires k <= |order|
    ensures BestTo(offer, order, k).None? ==> forall x :: x in order[..k] ==> offer(x).None?
    ensures BestTo(offer, order, k).Some? ==>
              var d := BestDomain(offer, order, k); BestTo(offer, order, k) == offer(d) && IsBest(offer, order[..k], d)
  {
    if k > 0 {
      BestToIsBest(offer, order, k - 1);
      var last := order[k - 1];
      assert order[..k] == order[..k - 1] + [last];
      var best := BestTo(offer, order, k - 1);
      if offer(last).Some? {
        var e := offer(last).value;
        BetterIsStrict(e, e);
        if best.Some? {
          BetterIsStrict(e, best.value);
          forall x | x in order[..k - 1] && offer(x).Some? && e.Better(best.value)
            ensures !offer(x).value.Better(e)
          {
            if offer(x).value.Better(e) {
              BetterIsTransitive(offer(x).value, e, best.value);
            }
          }
        }
      }
    }
  }

  /** When domains offer candidates on distinct CPUs, the best does not depend on the order of visiting them. */
  lemma BestIgnoresOrder(offer: nat -> Option<Eval>, a: seq<nat>, b: seq<nat>)
    requires forall x :: x in a <==> x in b
    requires forall x, y :: x in a && y in a && x != y && offer(x).Some? && offer(y).Some? ==> offer(x).value.cpu != offer(y).value.cpu
    ensures BestTo(offer, a, |a|) == BestTo(offer, b, |b|)
  {
    BestToIsBest(offer, a, |a|);
    BestToIsBest(offer, b, |b|);
    assert a[..|a|] == a && b[..|b|] == b;
    if BestTo(offer, a, |a|).Some? && BestTo(offer, b, |b|).Some? {
      var x, y := BestDomain(offer, a, |a|), BestDomain(offer, b, |b|);
      assert y in a && x in b;
      if x != y {
        BetterIsLex(offer(x).value, offer(y).value);
      }
    }
  }

  /** It strictly beats every other candidate. */
  lemma BestIsStrict(offer: nat -> Option<Eval>, order: seq<nat>, x: nat)
    requires x in order && offer(x).Some?
    requires forall y, z :: y in order && z in order && y != z && offer(y).Some? && offer(z).Some? ==> offer(y).value.cpu != offer(z).value.cpu
    ensures BestTo(offer, order, |order|).Some?
    ensures offer(x) == BestTo(offer, order, |order|) || LexLess(BestTo(offer, order, |order|).value.Key(), offer(x).value.Key())
  {
    BestToIsBest(offer, order, |order|);
    assert order[..|order|] == order;
    var b := BestDomain(offer, order, |order|);
    if b != x {
      BetterIsLex(offer(b).value, offer(x).value);
      BetterIsLex(offer(x).value, offer(b).value);
    }
  }
}
