/** Scaling a list of contributions down to a limit. */
module DecayMath {
  import opened Arithmetic
  import opened Machine
  import opened Apportion

  function Scaled(c: nat, limit: nat, before: nat): nat
    requires before > 0
  {
    Min(Product(limit, c) / before, c)
  }

  function ScaledUpTo(cs: seq<nat>, limit: nat, before: nat, i: nat): nat
    requires i <= |cs| && before > 0
  {
    if i == 0 then 0 else ScaledUpTo(cs, limit, before, i - 1) + Scaled(cs[i - 1], limit, before)
  }

  /** The contribution a contributor is left with: its scaled one, and for the last one what remains of the limit. */
  function DecayedAt(cs: seq<nat>, limit: nat, before: nat, i: nat): nat
    requires i < |cs| && before > 0
  {
    if i + 1 == |cs| then Min(SatSub(limit, ScaledUpTo(cs, limit, before, i)), cs[i]) else Scaled(cs[i], limit, before)
  }

  function DecayedUpTo(cs: seq<nat>, limit: nat, before: nat, i: nat): nat
    requires i <= |cs| && before > 0
  {
    if i == 0 then 0 else DecayedUpTo(cs, limit, before, i - 1) + DecayedAt(cs, limit, before, i - 1)
  }

  lemma {:induction false} DecayedIsScaled(cs: seq<nat>, limit: nat, before: nat, i: nat)
    requires i < |cs| && before > 0
    ensures DecayedUpTo(cs, limit, before, i) == ScaledUpTo(cs, limit, before, i)
  {
    if i > 0 {
      DecayedIsScaled(cs, limit, before, i - 1);
    }
  }

  /** The decayed contributions meet the limit exactly when the scaled ones before the last do. */
  lemma DecayMeetsLimit(cs: seq<nat>, limit: nat, before: nat)
    requires cs != [] && before > 0
    ensures DecayedUpTo(cs, limit, before, |cs|) <= limit <==> ScaledUpTo(cs, limit, before, |cs| - 1) <= limit
  {
    DecayedIsScaled(cs, limit, before, |cs| - 1);
  }

  lemma {:induction false} ScaledAreShares(cs: seq<nat>, limit: nat, i: nat)
    requires (forall j :: 0 <= j < |cs| ==> cs[j] > 0) && Sum(cs) > limit && i < |cs|
    ensures ScaledUpTo(cs, limit, Sum(cs), i) == SharesUpTo(limit, cs, i)
  {
    if i > 0 {
      ScaledAreShares(cs, limit, i - 1);
      SharesAreFloors(limit, cs, i - 1);
      var c, total := cs[i - 1], Sum(cs);
      MulKeepsOrder(limit, total, c);
      DivisionGrows(Product(limit, c), total * c, total);
      assert total * c / total == c by { QuotientOf(c, total, 0); assert c * total + 0 == total * c; }
    }
  }

  /** When the prior sum fits in 32 bits it is exact, and the limit is met. */
  lemma FittingSumsMeetLimit(cs: seq<nat>, limit: nat)
    requires cs != [] && (forall j :: 0 <= j < |cs| ==> cs[j] > 0) && limit < Sum(cs) <= U32_MAX
    ensures SatSum32(cs) == Sum(cs) && DecayedUpTo(cs, limit, SatSum32(cs), |cs|) <= limit
  {
    SatSumIsCapped(cs, |cs|);
    ScaledAreShares(cs, limit, |cs| - 1);
    FloorsFit(limit, cs, |cs| - 1);
    DecayMeetsLimit(cs, limit, Sum(cs));
  }

  /** When it does not fit, the limit can be missed: the saturated sum scales too little away. */
  lemma OverflowMissesLimit()
    ensures var cs := [U32_MAX, U32_MAX, U32_MAX];
            SatSum32(cs) > 5 && DecayedUpTo(cs, 5, SatSum32(cs), 3) == 10
  {
    var cs := [U32_MAX, U32_MAX, U32_MAX];
    SatSumIsCapped(cs, |cs|);
    assert SumTo(cs, 1) == U32_MAX && SumTo(cs, 2) == 2 * U32_MAX;
    assert SatSum32(cs) == U32_MAX;
    QuotientOf(5, U32_MAX, 0);
    assert Scaled(U32_MAX, 5, U32_MAX) == 5;
    assert ScaledUpTo(cs, 5, U32_MAX, 1) == ScaledUpTo(cs, 5, U32_MAX, 0) + Scaled(cs[0], 5, U32_MAX);
    assert ScaledUpTo(cs, 5, U32_MAX, 2) == ScaledUpTo(cs, 5, U32_MAX, 1) + Scaled(cs[1], 5, U32_MAX);
    DecayedIsScaled(cs, 5, U32_MAX, 2);
  }

  /** The values the contributors are left with. */
  function DecayValues(cs: seq<nat>, limit: nat, before: nat, k: nat): seq<nat>
    requires before > 0 && k <= |cs|
  {
    if k == 0 then [] else DecayValues(cs, limit, before, k - 1) + [DecayedAt(cs, limit, before, k - 1)]
  }

  lemma {:induction false} DecayValuesFacts(cs: seq<nat>, limit: nat, before: nat, k: nat)
    requires before > 0 && k <= |cs|
    ensures var r := DecayValues(cs, limit, before, k);
            |r| == k && SumTo(r, k) == DecayedUpTo(cs, limit, before, k) && forall i :: 0 <= i < k ==> r[i] == DecayedAt(cs, limit, before, i) <= cs[i]
  {
    if k > 0 {
      DecayValuesFacts(cs, limit, before, k - 1);
      SumOfPrefix(DecayValues(cs, limit, before, k - 1), DecayValues(cs, limit, before, k), k - 1);
    }
  }

  /** Whether the contributions scaled before the last one leave room for it. */
  ghost predicate RoomFor(cs: seq<nat>, limit: nat) {
    if cs == [] then true
    else if SatSum32(cs) <= limit then Sum(cs) <= limit
    else ScaledUpTo(cs, limit, SatSum32(cs), |cs| - 1) <= limit
  }

  /** Scaled contributions take no more of the limit than their part of the computed sum. */
  lemma {:induction false} ScaledTakeTheirPart(cs: seq<nat>, limit: nat, before: nat, i: nat)
    requires i <= |cs| && before > 0
    ensures Product(ScaledUpTo(cs, limit, before, i), before) <= Product(limit, SumTo(cs, i))
  {
    if i > 0 {
      ScaledTakeTheirPart(cs, limit, before, i - 1);
      var taken, s := ScaledUpTo(cs, limit, before, i - 1), Scaled(cs[i - 1], limit, before);
      DivisionSplits(Product(limit, cs[i - 1]), before);
      MulKeepsOrder(s, Product(limit, cs[i - 1]) / before, before);
      Distributes(taken, s, before);
      DistributesRight(limit, SumTo(cs, i - 1), cs[i - 1]);
    }
  }

  /**
   * There is room whenever all contributions but the last fit in 32 bits, provided the sum is recognised as above the
   * limit: the limit is below the 32-bit maximum, or the whole sum fits.
   */
  lemma RoomWhenOthersFit(cs: seq<nat>, limit: nat)
    requires cs != [] && (forall j :: 0 <= j < |cs| ==> cs[j] > 0) && SumTo(cs, |cs| - 1) <= U32_MAX
    requires limit < U32_MAX || (limit == U32_MAX && Sum(cs) <= U32_MAX)
    ensures RoomFor(cs, limit)
  {
    var n, before := |cs| - 1, SatSum32(cs);
    SatSumIsCapped(cs, |cs|);
    if before > limit {
      ScaledTakeTheirPart(cs, limit, before, n);
      MulKeepsOrder(SumTo(cs, n), before, limit);
      Commutes(limit, SumTo(cs, n));
      Commutes(limit, before);
      CancelFactor(ScaledUpTo(cs, limit, before, n), limit, before);
    }
  }

  /** What the contributions become: unchanged while the computed sum is within the limit. */
  function Lowered(cs: seq<nat>, limit: nat): seq<nat> {
    if SatSum32(cs) <= limit then cs else DecayValues(cs, limit, SatSum32(cs), |cs|)
  }

  /** Nothing grows; the sum meets the limit exactly when there is room; and there is room when the sum fits in 32 bits. */
  lemma LoweredFacts(cs: seq<nat>, limit: nat)
    requires forall j :: 0 <= j < |cs| ==> cs[j] > 0
    ensures var r := Lowered(cs, limit);
            && |r| == |cs| && (forall i :: 0 <= i < |cs| ==> r[i] <= cs[i])
            && (Sum(r) <= limit <==> RoomFor(cs, limit))
            && (Sum(cs) <= limit ==> r == cs)
    ensures Sum(cs) <= U32_MAX ==> RoomFor(cs, limit)
  {
    SatSumIsCapped(cs, |cs|);
    if cs != [] && SatSum32(cs) > limit {
      DecayValuesFacts(cs, limit, SatSum32(cs), |cs|);
      DecayMeetsLimit(cs, limit, SatSum32(cs));
      if Sum(cs) <= U32_MAX {
        FittingSumsMeetLimit(cs, limit);
      }
    }
  }
}
