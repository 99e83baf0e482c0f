/** How many domains the spread controller needs, and which ones it activates. */
module ArcasSpread {
  import opened Machine
  import opened Ordered
  import opened CpuSelect

  // ----- sums of capacities -----

  function Sum(v: seq<nat>): nat {
    if v == [] then 0 else Sum(v[..|v| - 1]) + v[|v| - 1]
  }

  /** A machine-word accumulator that saturates. */
  function SatSum(v: seq<nat>): nat {
    if v == [] then 0 else Min(SatSum(v[..|v| - 1]) + v[|v| - 1], U64_MAX)
  }

  lemma {:induction false} SatSumIsCapped(v: seq<nat>)
    ensures SatSum(v) == Min(Sum(v), U64_MAX)
  {
    if v != [] {
      SatSumIsCapped(v[..|v| - 1]);
    }
  }

  lemma {:induction false} SumGrows(v: seq<nat>, i: nat, j: nat)
    requires i <= j <= |v|
    ensures Sum(v[..i]) <= Sum(v[..j])
    decreases j
  {
    if i < j {
      SumGrows(v, i, j - 1);
      assert v[..j][..j - 1] == v[..j - 1];
    }
  }

  function Without<T>(v: seq<T>, i: nat): seq<T>
    requires i < |v|
  {
    v[..i] + v[i + 1..]
  }

  lemma WithoutCounts<T>(v: seq<T>, i: nat)
    requires i < |v|
    ensures multiset(v) == multiset(Without(v, i)) + multiset{v[i]}
  {
    assert v == v[..i] + [v[i]] + v[i + 1..];
  }

  lemma {:induction false} SumWithout(v: seq<nat>, i: nat)
    requires i < |v|
    ensures Sum(v) == Sum(Without(v, i)) + v[i]
  {
    var n := |v| - 1;
    if i == n {
      assert Without(v, i) == v[..n];
    } else {
      SumWithout(v[..n], i);
      assert Without(v, i)[..n - 1] == Without(v[..n], i);
    }
  }

  predicate Descending(v: seq<nat>) {
    forall i, j :: 0 <= i < j < |v| ==> v[i] >= v[j]
  }

  /** Take one occurrence of the last element of `c` out of `v`. */
  lemma TakeOut(c: seq<nat>, v: seq<nat>) returns (v': seq<nat>)
    requires c != [] && multiset(v) <= multiset(c) && c[|c| - 1] in multiset(v)
    ensures |v| == |v'| + 1 && Sum(v) == Sum(v') + c[|c| - 1]
    ensures multiset(v') <= multiset(c[..|c| - 1])
  {
    var init, last := c[..|c| - 1], c[|c| - 1];
    var i :| 0 <= i < |v| && v[i] == last;
    v' := Without(v, i);
    WithoutCounts(v, i);
    SumWithout(v, i);
    WithoutCounts(c, |c| - 1);
    assert Without(c, |c| - 1) == init;
    CancelOne(multiset(v'), multiset(v), multiset(init), multiset(c), last);
  }

  lemma CancelOne(a: multiset<nat>, a': multiset<nat>, b: multiset<nat>, b': multiset<nat>, x: nat)
    requires a' == a + multiset{x} && b' == b + multiset{x} && a' <= b'
    ensures a <= b
  {
    forall y ensures a[y] <= b[y] {
      assert a'[y] <= b'[y];
    }
  }

  lemma NotTaken(c: seq<nat>, v: seq<nat>)
    requires c != [] && multiset(v) <= multiset(c) && c[|c| - 1] !in multiset(v)
    ensures multiset(v) <= multiset(c[..|c| - 1])
  {
    assert c == c[..|c| - 1] + [c[|c| - 1]];
  }

  /** The exchange argument: no choice of `k` capacities beats the `k` greatest. */
  lemma {:induction false} GreatestBeatAny(c: seq<nat>, v: seq<nat>)
    requires Descending(c) && multiset(v) <= multiset(c)
    ensures Sum(v) <= Sum(c[..Min(|v|, |c|)])
    decreases |c|
  {
    if c == [] {
      assert |multiset(v)| <= |multiset(c)|;
    } else {
      var init := c[..|c| - 1];
      if c[|c| - 1] in multiset(v) {
        var v' := TakeOut(c, v);
        GreatestBeatAny(init, v');
        TakeExtends(c, |v'|);
      } else {
        NotTaken(c, v);
        GreatestBeatAny(init, v);
        PrefixOfInit(c, Min(|v|, |init|));
        SumGrows(c, Min(|v|, |init|), Min(|v|, |c|));
      }
    }
  }

  lemma PrefixOfInit(c: seq<nat>, k: nat)
    requires k < |c|
    ensures c[..|c| - 1][..k] == c[..k]
  {
  }

  lemma TakeExtends(c: seq<nat>, k: nat)
    requires c != [] && Descending(c)
    ensures Sum(c[..|c| - 1][..Min(k, |c| - 1)]) + c[|c| - 1] <= Sum(c[..Min(k + 1, |c|)])
  {
    var m := Min(k, |c| - 1);
    PrefixOfInit(c, m);
    assert c[..m + 1][..m] == c[..m];
  }

  function Positive(v: seq<nat>): seq<nat> {
    if v == [] then [] else
      var init := Positive(v[..|v| - 1]);
      if v[|v| - 1] > 0 then init + [v[|v| - 1]] else init
  }

  lemma {:induction false} PositiveKeeps(v: seq<nat>)
    ensures Sum(Positive(v)) == Sum(v) && |Positive(v)| <= |v|
    ensures forall x :: multiset(Positive(v))[x] == if x > 0 then multiset(v)[x] else 0
    ensures forall i :: 0 <= i < |Positive(v)| ==> Positive(v)[i] > 0
  {
    if v != [] {
      var init, last := v[..|v| - 1], v[|v| - 1];
      PositiveKeeps(init);
      assert v == init + [last];
      assert (Positive(init) + [last])[..|Positive(init)|] == Positive(init);
    }
  }

  predicate Greater(a: nat, b: nat) { a >= b }

  lemma GreaterIsTotal()
    ensures TotalPreorder(Greater)
  {
  }

  // ----- the load -----

  type Load = map<nat, set<nat>>

  function UnionAllowed(load: Load): set<nat> { set t, c | t in load && c in load[t] :: c }

  /** The slots of a domain: its CPUs that some runnable thread may use, or all of them if none is named. */
  function SlotCpus(topo: Topology, d: nat, union: set<nat>): seq<nat> {
    if union == {} then topo.CpusOf(d) else Filter(topo.CpusOf(d), union)
  }

  function Capacity(topo: Topology, load: Load, d: nat): nat { |SlotCpus(topo, d, UnionAllowed(load))| }

  function Mapped(f: nat -> nat, ds: seq<nat>): (r: seq<nat>)
    ensures |r| == |ds| && forall i :: 0 <= i < |r| ==> r[i] == f(ds[i])
  {
    seq(|ds|, i requires 0 <= i < |ds| => f(ds[i]))
  }

  function CapacityOf(topo: Topology, load: Load): nat -> nat { (d: nat) => Capacity(topo, load, d) }

  function Capacities(topo: Topology, load: Load, ds: seq<nat>): (r: seq<nat>)
    ensures |r| == |ds| && forall i :: 0 <= i < |r| ==> r[i] == Capacity(topo, load, ds[i])
  {
    Mapped(CapacityOf(topo, load), ds)
  }

  /** The slots that a list of domains offers together. */
  function Slots(topo: Topology, load: Load, ds: seq<nat>): nat { Sum(Capacities(topo, load, ds)) }

  lemma OthersRemain(all: seq<nat>, j: nat, y: nat)
    requires j < |all| && y in all && y != all[j]
    ensures y in Without(all, j)
  {
    var k :| 0 <= k < |all| && all[k] == y;
    assert Without(all, j)[if k < j then k else k - 1] == y;
  }

  lemma {:induction false} SubsetMapped(f: nat -> nat, ds: seq<nat>, all: seq<nat>)
    requires Distinct(ds) && forall i :: 0 <= i < |ds| ==> ds[i] in all
    ensures multiset(Mapped(f, ds)) <= multiset(Mapped(f, all))
  {
    if ds != [] {
      var init, x := ds[..|ds| - 1], ds[|ds| - 1];
      var j :| 0 <= j < |all| && all[j] == x;
      var rest := Without(all, j);
      forall i | 0 <= i < |init| ensures init[i] in rest {
        OthersRemain(all, j, ds[i]);
      }
      SubsetMapped(f, init, rest);
      var cs, c := Mapped(f, all), Mapped(f, ds);
      assert Mapped(f, rest) == Without(cs, j);
      WithoutCounts(cs, j);
      assert c == Mapped(f, init) + [cs[j]];
    }
  }

  /** Distinct domains among others have capacities among theirs. */
  lemma SubsetCapacities(topo: Topology, load: Load, ds: seq<nat>, all: seq<nat>)
    requires Distinct(ds) && forall i :: 0 <= i < |ds| ==> ds[i] in all
    ensures multiset(Capacities(topo, load, ds)) <= multiset(Capacities(topo, load, all))
  {
    SubsetMapped(CapacityOf(topo, load), ds, all);
  }

  // ----- the floor -----

  /** The capacities that count, greatest first. */
  function Ranked(topo: Topology, load: Load, eligible: seq<nat>): seq<nat> {
    Sort(Greater, Positive(Capacities(topo, load, eligible)))
  }

  lemma RankedFacts(topo: Topology, load: Load, eligible: seq<nat>)
    ensures var c := Ranked(topo, load, eligible);
            && Descending(c) && |c| <= |eligible|
            && multiset(c) == multiset(Positive(Capacities(topo, load, eligible)))
            && multiset(c) <= multiset(Capacities(topo, load, eligible))
  {
    GreaterIsTotal();
    var v := Capacities(topo, load, eligible);
    SortSorts(Greater, Positive(v));
    PositiveKeeps(v);
  }

  /** The shortest prefix of the ranked capacities that covers the load; all domains if none does. */
  ghost predicate IsFloor(c: seq<nat>, runnable: nat, domains: nat, floor: nat) {
    if runnable == 0 then floor == 0
    else if Sum(c) >= runnable
    then 0 < floor <= |c| && Sum(c[..floor]) >= runnable && Sum(c[..floor - 1]) < runnable
    else floor == domains
  }

  method MinDomainsForRunnableLoad(topo: Topology, eligible: seq<nat>, load: Load) returns (floor: nat)
    requires |load| <= U64_MAX
    ensures IsFloor(Ranked(topo, load, eligible), |load|, |eligible|, floor)
  {
    if |load| == 0 {
      return 0;
    }
    floor := CountToCover(Ranked(topo, load, eligible), |load|, |eligible|);
  }

  /** Adds up the ranked capacities until they cover the load. */
  method CountToCover(c: seq<nat>, runnable: nat, domains: nat) returns (floor: nat)
    requires 0 < runnable <= U64_MAX
    ensures IsFloor(c, runnable, domains, floor)
  {
    var covered, index := 0, 0;
    assert c[..0] == [];
    while index < |c|
      invariant 0 <= index <= |c|
      invariant covered == SatSum(c[..index]) == Min(Sum(c[..index]), U64_MAX) < runnable
    {
      assert c[..index + 1][..index] == c[..index];
      SatSumIsCapped(c[..index + 1]);
      covered := Min(covered + c[index], U64_MAX);
      index := index + 1;
      if covered >= runnable {
        SumGrows(c, index, |c|);
        assert c[..|c|] == c && c[..index][..index - 1] == c[..index - 1];
        return index;
      }
    }
    assert c[..|c|] == c;
    return domains;
  }

  /** Any distinct domains have at most the sum of as many top capacities. */
  lemma TopBeatsAnyChoice(topo: Topology, load: Load, eligible: seq<nat>, ds: seq<nat>)
    requires Distinct(ds) && forall i :: 0 <= i < |ds| ==> ds[i] in eligible
    ensures var c := Ranked(topo, load, eligible);
            Slots(topo, load, ds) <= Sum(c[..Min(|ds|, |c|)]) <= Sum(c)
  {
    var c, v := Ranked(topo, load, eligible), Capacities(topo, load, ds);
    var all := Capacities(topo, load, eligible);
    RankedFacts(topo, load, eligible);
    SubsetCapacities(topo, load, ds, eligible);
    PositiveKeeps(v);
    PositiveKeeps(all);
    assert multiset(Positive(v)) <= multiset(Positive(all));
    GreatestBeatAny(c, Positive(v));
    SumGrows(c, Min(|Positive(v)|, |c|), Min(|ds|, |c|));
    SumGrows(c, Min(|ds|, |c|), |c|);
    assert c[..|c|] == c;
  }

  /** No choice of distinct eligible domains that covers the load is smaller than the floor. */
  lemma FloorIsLeast(topo: Topology, load: Load, eligible: seq<nat>, floor: nat, ds: seq<nat>)
    requires IsFloor(Ranked(topo, load, eligible), |load|, |eligible|, floor)
    requires Distinct(ds) && forall i :: 0 <= i < |ds| ==> ds[i] in eligible
    requires Slots(topo, load, ds) >= |load|
    ensures floor <= |ds|
  {
    TopBeatsAnyChoice(topo, load, eligible, ds);
    FewerDoNotCover(Ranked(topo, load, eligible), |load|, |eligible|, floor, |ds|);
  }

  lemma FewerDoNotCover(c: seq<nat>, load: nat, domains: nat, floor: nat, k: nat)
    requires IsFloor(c, load, domains, floor) && load <= Sum(c[..Min(k, |c|)]) <= Sum(c)
    ensures floor <= k
  {
    if load > 0 && k <= floor - 1 {
      SumGrows(c, k, floor - 1);
    }
  }

  lemma TopBeatsPrefix(c: seq<nat>, top: seq<nat>, n: nat, k: nat)
    requires Descending(top) && multiset(c) <= multiset(top) && n <= |c| && n <= k <= |top|
    ensures Sum(c[..n]) <= Sum(top[..k])
  {
    assert c == c[..n] + c[n..];
    assert multiset(c[..n]) <= multiset(c);
    GreatestBeatAny(top, c[..n]);
    SumGrows(top, n, k);
  }

  /** Any list that holds the ranked capacities in descending order covers the load with `floor` of them. */
  lemma TopCovers(topo: Topology, load: Load, eligible: seq<nat>, floor: nat, top: seq<nat>, k: nat)
    requires IsFloor(Ranked(topo, load, eligible), |load|, |eligible|, floor)
    requires Slots(topo, load, eligible) >= |load|
    requires Descending(top) && multiset(Ranked(topo, load, eligible)) <= multiset(top)
    requires floor <= k <= |top|
    ensures Sum(top[..k]) >= |load|
  {
    var c := Ranked(topo, load, eligible);
    RankedFacts(topo, load, eligible);
    var all := Capacities(topo, load, eligible);
    PositiveKeeps(all);
    SameSum(c, Positive(all));
    if |load| > 0 {
      TopBeatsPrefix(c, top, floor, k);
    }
  }

  lemma {:induction false} SameSum(a: seq<nat>, b: seq<nat>)
    requires multiset(a) == multiset(b)
    ensures Sum(a) == Sum(b)
  {
    if a == [] {
      assert |multiset(b)| == 0;
    } else {
      var x := a[|a| - 1];
      assert a == a[..|a| - 1] + [x];
      assert x in multiset(b);
      var i :| 0 <= i < |b| && b[i] == x;
      WithoutCounts(b, i);
      SumWithout(b, i);
      assert multiset(a[..|a| - 1]) == multiset(a) - multiset{x} && multiset(Without(b, i)) == multiset(b) - multiset{x};
      SameSum(a[..|a| - 1], Without(b, i));
    }
  }
}
