/** Totals of a measure over a keyed table, and how writing distinct entries moves them. */
module KeyedTotals {
  import opened Machine
  import opened Ordered
  import opened Apportion

  /** The measure of the first `k` keys of the order. */
  function TotalTo<E>(m: map<nat, E>, order: seq<nat>, f: E -> nat, k: nat): nat
    requires k <= |order| && forall i :: 0 <= i < k ==> order[i] in m
  {
    if k == 0 then 0 else TotalTo(m, order, f, k - 1) + f(m[order[k - 1]])
  }

  function Total<E>(m: map<nat, E>, f: E -> nat): nat {
    var order := Ascending(m.Keys);
    assert forall i :: 0 <= i < |order| ==> order[i] in order;
    TotalTo(m, order, f, |order|)
  }

  lemma {:induction false} TotalToUpdate<E>(m: map<nat, E>, order: seq<nat>, t: nat, e: E, f: E -> nat, k: nat, j: nat)
    requires Distinct(order) && k <= |order| && (forall i :: 0 <= i < |order| ==> order[i] in m)
    requires j < |order| && order[j] == t
    ensures TotalTo(m[t := e], order, f, k) + (if j < k then f(m[t]) else 0)
            == TotalTo(m, order, f, k) + (if j < k then f(e) else 0)
  {
    if k > 0 {
      TotalToUpdate(m, order, t, e, f, k - 1, j);
    }
  }

  /** Replacing one entry moves the total by exactly that entry's change. */
  lemma TotalMoves<E>(m: map<nat, E>, t: nat, e: E, f: E -> nat)
    requires t in m
    ensures Total(m[t := e], f) + f(m[t]) == Total(m, f) + f(e)
  {
    var order := Ascending(m.Keys);
    assert m[t := e].Keys == m.Keys;
    assert t in order && forall i :: 0 <= i < |order| ==> order[i] in order;
    var j: nat :| j < |order| && order[j] == t;
    TotalToUpdate(m, order, t, e, f, |order|, j);
  }

  lemma {:induction false} SameTotalTo<E>(a: map<nat, E>, b: map<nat, E>, order: seq<nat>, f: E -> nat, k: nat)
    requires k <= |order| && forall i :: 0 <= i < k ==> order[i] in a && order[i] in b && f(a[order[i]]) == f(b[order[i]])
    ensures TotalTo(a, order, f, k) == TotalTo(b, order, f, k)
  {
    if k > 0 {
      SameTotalTo(a, b, order, f, k - 1);
    }
  }

  lemma SameTotal<E>(a: map<nat, E>, b: map<nat, E>, f: E -> nat)
    requires a.Keys == b.Keys && forall t :: t in a ==> f(a[t]) == f(b[t])
    ensures Total(a, f) == Total(b, f)
  {
    var order := Ascending(a.Keys);
    forall i | 0 <= i < |order| ensures order[i] in a && order[i] in b && f(a[order[i]]) == f(b[order[i]]) {
      assert order[i] in order;
    }
    SameTotalTo(a, b, order, f, |order|);
  }

  // ----- the entries that count -----

  /** The keys among the first `k` of the order whose entries measure something. */
  function PositiveTo<E>(m: map<nat, E>, order: seq<nat>, f: E -> nat, k: nat): seq<nat>
    requires k <= |order| && forall i :: 0 <= i < k ==> order[i] in m
  {
    if k == 0 then [] else
      var init, t := PositiveTo(m, order, f, k - 1), order[k - 1];
      if f(m[t]) > 0 then init + [t] else init
  }

  function Positive<E>(m: map<nat, E>, f: E -> nat): seq<nat> {
    var order := Ascending(m.Keys);
    assert forall i :: 0 <= i < |order| ==> order[i] in order;
    PositiveTo(m, order, f, |order|)
  }

  function Measures<E>(m: map<nat, E>, tids: seq<nat>, f: E -> nat): (r: seq<nat>)
    requires forall i :: 0 <= i < |tids| ==> tids[i] in m
    ensures |r| == |tids| && forall i :: 0 <= i < |r| ==> r[i] == f(m[tids[i]])
  {
    seq(|tids|, i requires 0 <= i < |tids| => f(m[tids[i]]))
  }

  /** Entries that measure nothing add nothing. */
  lemma {:induction false} PositiveToFacts<E>(m: map<nat, E>, order: seq<nat>, f: E -> nat, k: nat)
    requires Distinct(order) && k <= |order| && forall i :: 0 <= i < |order| ==> order[i] in m
    ensures var p := PositiveTo(m, order, f, k);
            && Distinct(p) && (forall i :: 0 <= i < |p| ==> p[i] in order[..k] && p[i] in m && f(m[p[i]]) > 0)
            && TotalTo(m, order, f, k) == Sum(Measures(m, p, f))
  {
    if k > 0 {
      PositiveToFacts(m, order, f, k - 1);
      var p, t := PositiveTo(m, order, f, k - 1), order[k - 1];
      assert order[..k] == order[..k - 1] + [t];
      assert t !in order[..k - 1];
      if f(m[t]) > 0 {
        SumOfPrefix(Measures(m, p, f), Measures(m, p + [t], f), |p|);
      }
    }
  }

  lemma PositiveFacts<E>(m: map<nat, E>, f: E -> nat)
    ensures var p := Positive(m, f);
            && Distinct(p) && (forall i :: 0 <= i < |p| ==> p[i] in m && f(m[p[i]]) > 0)
            && Total(m, f) == Sum(Measures(m, p, f))
  {
    var order := Ascending(m.Keys);
    assert forall i :: 0 <= i < |order| ==> order[i] in order;
    PositiveToFacts(m, order, f, |order|);
  }

  lemma {:induction false} SamePositiveTo<E>(a: map<nat, E>, b: map<nat, E>, order: seq<nat>, f: E -> nat, k: nat)
    requires k <= |order| && forall i :: 0 <= i < k ==> order[i] in a && order[i] in b && f(a[order[i]]) == f(b[order[i]])
    ensures PositiveTo(a, order, f, k) == PositiveTo(b, order, f, k)
  {
    if k > 0 {
      SamePositiveTo(a, b, order, f, k - 1);
    }
  }

  lemma SamePositive<E>(a: map<nat, E>, b: map<nat, E>, f: E -> nat)
    requires a.Keys == b.Keys && forall t :: t in a ==> f(a[t]) == f(b[t])
    ensures Positive(a, f) == Positive(b, f)
  {
    var order := Ascending(a.Keys);
    forall i | 0 <= i < |order| ensures order[i] in a && order[i] in b && f(a[order[i]]) == f(b[order[i]]) {
      assert order[i] in order;
    }
    SamePositiveTo(a, b, order, f, |order|);
  }

  lemma {:induction false} AllPositiveTo<E>(m: map<nat, E>, order: seq<nat>, f: E -> nat, k: nat)
    requires k <= |order| && forall i :: 0 <= i < |order| ==> order[i] in m && f(m[order[i]]) > 0
    ensures PositiveTo(m, order, f, k) == order[..k]
  {
    if k > 0 {
      AllPositiveTo(m, order, f, k - 1);
      assert order[..k] == order[..k - 1] + [order[k - 1]];
    }
  }

  /** When every entry measures something, every key counts. */
  lemma AllPositive<E>(m: map<nat, E>, f: E -> nat)
    requires forall t :: t in m ==> f(m[t]) > 0
    ensures Positive(m, f) == Ascending(m.Keys)
  {
    var order := Ascending(m.Keys);
    forall i | 0 <= i < |order| ensures order[i] in m && f(m[order[i]]) > 0 { assert order[i] in order; }
    AllPositiveTo(m, order, f, |order|);
    assert order[..|order|] == order;
  }

  // ----- rewriting the entries that count -----

  function IndexOf(tids: seq<nat>, t: nat): (i: nat)
    requires t in tids
    ensures i < |tids| && tids[i] == t
  {
    if tids[|tids| - 1] == t then |tids| - 1 else IndexOf(tids[..|tids| - 1], t)
  }

  /** The table with a value written to each of the listed entries. */
  function Rewritten<E>(m: map<nat, E>, write: (E, nat) -> E, tids: seq<nat>, vals: seq<nat>): map<nat, E>
    requires |tids| == |vals|
  {
    map t | t in m :: if t in tids then write(m[t], vals[IndexOf(tids, t)]) else m[t]
  }

  /** The positive keys grow along the order. */
  lemma {:induction false} PositiveToExtends<E>(m: map<nat, E>, order: seq<nat>, f: E -> nat, k: nat, n: nat)
    requires k <= n <= |order| && forall i :: 0 <= i < |order| ==> order[i] in m
    ensures PositiveTo(m, order, f, k) <= PositiveTo(m, order, f, n)
    decreases n
  {
    if k < n {
      PositiveToExtends(m, order, f, k, n - 1);
    }
  }

  /** Rewriting exactly the entries that measured something leaves a total of just the values written. */
  lemma {:induction false} RewrittenTotalTo<E>(m: map<nat, E>, after: map<nat, E>, order: seq<nat>, f: E -> nat, vals: seq<nat>, k: nat)
    requires k <= |order| && (forall i :: 0 <= i < |order| ==> order[i] in m && order[i] in after)
    requires |vals| == |PositiveTo(m, order, f, |order|)|
    requires forall t :: t in m && t in after && f(m[t]) == 0 ==> f(after[t]) == 0
    requires forall i :: 0 <= i < |vals| ==> var t := PositiveTo(m, order, f, |order|)[i]; t in after && f(after[t]) == vals[i]
    ensures |PositiveTo(m, order, f, k)| <= |vals|
    ensures TotalTo(after, order, f, k) == SumTo(vals, |PositiveTo(m, order, f, k)|)
  {
    PositiveToExtends(m, order, f, k, |order|);
    if k > 0 {
      RewrittenTotalTo(m, after, order, f, vals, k - 1);
      var p, t := PositiveTo(m, order, f, k - 1), order[k - 1];
      if f(m[t]) > 0 {
        assert PositiveTo(m, order, f, k)[|p|] == t;
      }
    }
  }

  lemma RewrittenTotal<E>(m: map<nat, E>, after: map<nat, E>, f: E -> nat, vals: seq<nat>)
    requires after.Keys == m.Keys && |vals| == |Positive(m, f)|
    requires forall t :: t in m && f(m[t]) == 0 ==> f(after[t]) == 0
    requires forall i :: 0 <= i < |vals| ==> Positive(m, f)[i] in after && f(after[Positive(m, f)[i]]) == vals[i]
    ensures Total(after, f) == Sum(vals)
  {
    var order := Ascending(m.Keys);
    forall i | 0 <= i < |order| ensures order[i] in m && order[i] in after { assert order[i] in order; }
    RewrittenTotalTo(m, after, order, f, vals, |order|);
  }
}
