/** A pass over links that lowers one link's measure at a time. */
module SweepTotals {
  import opened Ordered
  import opened KeyedTotals

  function SweepUpTo<E>(m: map<nat, E>, step: (map<nat, E>, nat) -> map<nat, E>, k: nat): map<nat, E> {
    if k == 0 then m else step(SweepUpTo(m, step, k - 1), k - 1)
  }

  function SumF(f: nat -> nat, k: nat): nat { if k == 0 then 0 else SumF(f, k - 1) + f(k - 1) }

  /** If step `i` raises a measure by at most `rise(i)`, the pass raises it by at most their sum. */
  lemma {:induction false} SweepRises<E(!new)>(
    m: map<nat, E>, step: (map<nat, E>, nat) -> map<nat, E>, measure: map<nat, E> -> nat, rise: nat -> nat, k: nat)
    requires forall x, i: nat :: step(x, i).Keys == x.Keys && measure(step(x, i)) <= measure(x) + rise(i)
    ensures SweepUpTo(m, step, k).Keys == m.Keys && measure(SweepUpTo(m, step, k)) <= measure(m) + SumF(rise, k)
  {
    if k > 0 {
      SweepRises(m, step, measure, rise, k - 1);
    }
  }

  lemma {:induction false} SweepHolds<E(!new)>(
    m: map<nat, E>, step: (map<nat, E>, nat) -> map<nat, E>, measure: map<nat, E> -> nat, k: nat)
    requires forall x, i: nat :: measure(step(x, i)) == measure(x)
    ensures measure(SweepUpTo(m, step, k)) == measure(m)
  {
    if k > 0 {
      SweepHolds(m, step, measure, k - 1);
    }
  }

  /** The measure of an entry on one link. */
  function At<E>(g: (E, nat) -> nat, l: nat): E -> nat { (e: E) => g(e, l) }

  /** A step on link `l` keeps the keys, raises no measure, and leaves every other link's measure alone. */
  ghost predicate Steps<E(!new)>(step: (map<nat, E>, nat) -> map<nat, E>, g: (E, nat) -> nat) {
    && (forall m: map<nat, E>, l: nat :: step(m, l).Keys == m.Keys)
    && (forall m: map<nat, E>, l: nat, t: nat, j: nat :: t in m && t in step(m, l) ==> g(step(m, l)[t], j) <= g(m[t], j))
    && (forall m: map<nat, E>, l: nat, t: nat, j: nat :: t in m && t in step(m, l) && j != l ==> g(step(m, l)[t], j) == g(m[t], j))
  }

  lemma {:induction false} SweepKeepsKeys<E(!new)>(m: map<nat, E>, step: (map<nat, E>, nat) -> map<nat, E>, g: (E, nat) -> nat, k: nat)
    requires Steps(step, g)
    ensures SweepUpTo(m, step, k).Keys == m.Keys
  {
    if k > 0 {
      SweepKeepsKeys(m, step, g, k - 1);
    }
  }

  /** One entry through the pass: nothing grows, and links not yet reached are as they were. */
  lemma {:induction false} SweepEntry<E(!new)>(
    m: map<nat, E>, step: (map<nat, E>, nat) -> map<nat, E>, g: (E, nat) -> nat, k: nat, l: nat, t: nat)
    requires Steps(step, g) && t in m
    ensures t in SweepUpTo(m, step, k) && g(SweepUpTo(m, step, k)[t], l) <= g(m[t], l)
    ensures k <= l ==> g(SweepUpTo(m, step, k)[t], l) == g(m[t], l)
  {
    if k > 0 {
      SweepEntry(m, step, g, k - 1, l, t);
      var before := SweepUpTo(m, step, k - 1);
      assert t in step(before, k - 1);
    }
  }

  /** Once a link has been passed, the rest of the pass does not touch it. */
  lemma {:induction false} SweepPassesBy<E(!new)>(
    m: map<nat, E>, step: (map<nat, E>, nat) -> map<nat, E>, g: (E, nat) -> nat, k: nat, l: nat, t: nat)
    requires Steps(step, g) && t in m && l < k
    ensures t in SweepUpTo(m, step, k) && t in SweepUpTo(m, step, l + 1)
    ensures g(SweepUpTo(m, step, k)[t], l) == g(SweepUpTo(m, step, l + 1)[t], l)
  {
    SweepKeepsKeys(m, step, g, k);
    SweepKeepsKeys(m, step, g, l + 1);
    if l + 1 < k {
      SweepPassesBy(m, step, g, k - 1, l, t);
    }
  }

  /** The total a link holds when the pass reaches it is the one it started with. */
  lemma TotalOnArrival<E(!new)>(m: map<nat, E>, step: (map<nat, E>, nat) -> map<nat, E>, g: (E, nat) -> nat, l: nat)
    requires Steps(step, g)
    ensures Total(SweepUpTo(m, step, l), At(g, l)) == Total(m, At(g, l))
  {
    SweepKeepsKeys(m, step, g, l);
    forall t | t in m ensures At(g, l)(SweepUpTo(m, step, l)[t]) == At(g, l)(m[t]) {
      SweepEntry(m, step, g, l, l, t);
    }
    SameTotal(SweepUpTo(m, step, l), m, At(g, l));
  }

  /** The total a link holds when the pass is over is the one its own step left. */
  lemma TotalOnDeparture<E(!new)>(m: map<nat, E>, step: (map<nat, E>, nat) -> map<nat, E>, g: (E, nat) -> nat, l: nat, n: nat)
    requires Steps(step, g) && l < n
    ensures Total(SweepUpTo(m, step, n), At(g, l)) == Total(step(SweepUpTo(m, step, l), l), At(g, l))
  {
    SweepKeepsKeys(m, step, g, n);
    SweepKeepsKeys(m, step, g, l + 1);
    var last, own := SweepUpTo(m, step, n), SweepUpTo(m, step, l + 1);
    forall t | t in m ensures At(g, l)(last[t]) == At(g, l)(own[t]) {
      SweepPassesBy(m, step, g, n, l, t);
    }
    SameTotal(last, own, At(g, l));
  }

  /** Equal measures have equal totals. */
  lemma SameMeasure<E>(m: map<nat, E>, f: E -> nat, g: E -> nat)
    requires forall t :: t in m ==> f(m[t]) == g(m[t])
    ensures Total(m, f) == Total(m, g)
  {
    var order := Ascending(m.Keys);
    assert forall i :: 0 <= i < |order| ==> order[i] in order;
    SameMeasureTo(m, order, f, g, |order|);
  }

  lemma {:induction false} SameMeasureTo<E>(m: map<nat, E>, order: seq<nat>, f: E -> nat, g: E -> nat, k: nat)
    requires k <= |order| && (forall i :: 0 <= i < |order| ==> order[i] in m)
    requires forall t :: t in m ==> f(m[t]) == g(m[t])
    ensures TotalTo(m, order, f, k) == TotalTo(m, order, g, k)
  {
    if k > 0 {
      SameMeasureTo(m, order, f, g, k - 1);
    }
  }
}
