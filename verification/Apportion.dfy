/** Splitting a measured change of link traffic exactly over weighted threads. */
module Apportion {
  import opened Arithmetic
  import opened Machine

  // ----- sums -----

  /** The sum of the first `k` entries. */
  function SumTo(v: seq<nat>, k: nat): nat
    requires k <= |v|
  {
    if k == 0 then 0 else SumTo(v, k - 1) + v[k - 1]
  }

  function Sum(v: seq<nat>): nat { SumTo(v, |v|) }

  function SatSumTo(v: seq<nat>, k: nat): u32
    requires k <= |v|
  {
    if k == 0 then 0 else Min(SatSumTo(v, k - 1) + v[k - 1], U32_MAX)
  }

  /** A 32-bit accumulator that saturates. */
  function SatSum32(v: seq<nat>): u32 { SatSumTo(v, |v|) }

  lemma {:induction false} SatSumIsCapped(v: seq<nat>, k: nat)
    requires k <= |v|
    ensures SatSumTo(v, k) == Min(SumTo(v, k), U32_MAX)
  {
    if k > 0 {
      SatSumIsCapped(v, k - 1);
    }
  }

  lemma {:induction false} SumGrows(v: seq<nat>, i: nat, j: nat)
    requires i <= j <= |v|
    ensures SumTo(v, i) <= SumTo(v, j)
    decreases j
  {
    if i < j {
      SumGrows(v, i, j - 1);
    }
  }

  lemma {:induction false} SumOfPrefix(a: seq<nat>, b: seq<nat>, k: nat)
    requires k <= |a| && k <= |b| && forall i :: 0 <= i < k ==> a[i] == b[i]
    ensures SumTo(a, k) == SumTo(b, k)
  {
    if k > 0 {
      SumOfPrefix(a, b, k - 1);
    }
  }

  // ----- splitting a link delta over weights -----

  function Product(a: nat, b: nat): nat { a * b }

  /** The share of entry `i`: the remainder for the last one, or when no later weight is left; else its floor. */
  function ShareAt(delta: nat, weights: seq<nat>, i: nat): nat
    requires i < |weights| && Sum(weights) > 0
    decreases i, 1
  {
    if i + 1 == |weights| || SatSub(Sum(weights), SumTo(weights, i)) <= weights[i]
    then SatSub(delta, SharesUpTo(delta, weights, i))
    else Product(delta, weights[i]) / Sum(weights)
  }

  function SharesUpTo(delta: nat, weights: seq<nat>, i: nat): nat
    requires i <= |weights| && Sum(weights) > 0
    decreases i, 0
  {
    if i == 0 then 0 else SharesUpTo(delta, weights, i - 1) + ShareAt(delta, weights, i - 1)
  }

  /** Floors taken so far are at most the delta's proportional part. */
  lemma {:induction false} FloorsFit(delta: nat, weights: seq<nat>, i: nat)
    requires i <= |weights| && Sum(weights) > 0
    ensures SharesUpTo(delta, weights, i) <= delta
    ensures SumTo(weights, i) < Sum(weights) ==> Product(SharesUpTo(delta, weights, i), Sum(weights)) <= Product(delta, SumTo(weights, i))
    ensures i > 0 && SumTo(weights, i) == Sum(weights) ==> SharesUpTo(delta, weights, i) == delta
  {
    SumGrows(weights, i, |weights|);
    if i > 0 {
      FloorsFit(delta, weights, i - 1);
      SumGrows(weights, i - 1, |weights|);
      var w, total, before := weights[i - 1], Sum(weights), SharesUpTo(delta, weights, i - 1);
      if SumTo(weights, i) < total {
        var floor := Product(delta, w) / total;
        assert i < |weights|;
        assert ShareAt(delta, weights, i - 1) == floor;
        FloorStep(delta, w, total, before, SumTo(weights, i - 1));
      }
    }
  }

  lemma FloorStep(delta: nat, w: nat, total: nat, before: nat, prefix: nat)
    requires total > 0 && Product(before, total) <= Product(delta, prefix) && prefix + w <= total
    ensures var floor := Product(delta, w) / total;
            Product(before + floor, total) <= Product(delta, prefix + w) && before + floor <= delta
  {
    var floor := Product(delta, w) / total;
    DivisionSplits(Product(delta, w), total);
    assert Product(before + floor, total) == Product(before, total) + Product(floor, total) by { Distributes(before, floor, total); }
    assert Product(delta, prefix + w) == Product(delta, prefix) + Product(delta, w) by { DistributesRight(delta, prefix, w); }
    MulKeepsOrder(prefix + w, total, delta);
    assert Product(delta, prefix + w) <= Product(delta, total) by { Commutes(delta, prefix + w); Commutes(delta, total); }
    CancelFactor(before + floor, delta, total);
  }

  lemma Distributes(a: nat, b: nat, c: nat)
    ensures Product(a + b, c) == Product(a, c) + Product(b, c)
  {
  }

  lemma DistributesRight(a: nat, b: nat, c: nat)
    ensures Product(a, b + c) == Product(a, b) + Product(a, c)
  {
  }

  lemma Commutes(a: nat, b: nat)
    ensures Product(a, b) == b * a
  {
  }

  lemma CancelFactor(a: nat, b: nat, c: nat)
    requires c > 0 && Product(a, c) <= Product(b, c)
    ensures a <= b
  {
    Distributes(b, 1, c);
    if a >= b + 1 {
      MulKeepsOrder(b + 1, a, c);
    }
  }

  /** The shares are exact: they add up to the delta, whatever the weights. */
  lemma SharesAreExact(delta: nat, weights: seq<nat>)
    requires Sum(weights) > 0
    ensures SharesUpTo(delta, weights, |weights|) == delta
  {
    FloorsFit(delta, weights, |weights|);
  }

  /** With positive weights, every share but the last is the floor of its proportional part. */
  lemma SharesAreFloors(delta: nat, weights: seq<nat>, i: nat)
    requires (forall j :: 0 <= j < |weights| ==> weights[j] > 0) && i + 1 < |weights| && Sum(weights) > 0
    ensures ShareAt(delta, weights, i) == delta * weights[i] / Sum(weights)
  {
    SumGrows(weights, i + 2, |weights|);
  }

  /** The last share makes up the rounding: at least its floor, and less than one unit per other entry above it. */
  lemma LastShareIsClose(delta: nat, weights: seq<nat>)
    requires (forall j :: 0 <= j < |weights| ==> weights[j] > 0) && weights != [] && Sum(weights) > 0
    ensures var n := |weights| - 1;
            delta * weights[n] / Sum(weights) <= ShareAt(delta, weights, n)
  {
    var n := |weights| - 1;
    var total, before := Sum(weights), SharesUpTo(delta, weights, n);
    FloorsFit(delta, weights, n);
    FloorStep(delta, weights[n], total, before, SumTo(weights, n));
  }

  lemma {:induction false} SumFitsWord(weights: seq<nat>, k: nat)
    requires k <= |weights| && forall i :: 0 <= i < k ==> weights[i] <= U32_MAX
    ensures SumTo(weights, k) <= k * U32_MAX
  {
    if k > 0 {
      SumFitsWord(weights, k - 1);
    }
  }

  lemma PositiveSum(weights: seq<nat>)
    requires weights != [] && forall j :: 0 <= j < |weights| ==> weights[j] > 0
    ensures Sum(weights) > 0
  {
  }
}
