/** Which domains the spread controller activates. */
module ArcasSelect {
  import opened Arithmetic
  import opened Machine
  import opened Ordered
  import opened CpuSelect
  import opened ArcasSpread

  /** The eligible domains with a slot for the load. */
  function UsableBy(keep: nat -> bool, eligible: seq<nat>): seq<nat> {
    if eligible == [] then [] else
      var init, d := UsableBy(keep, eligible[..|eligible| - 1]), eligible[|eligible| - 1];
      if keep(d) then init + [d] else init
  }

  /** A domain is usable if it has a slot, or if no thread names any CPU. */
  function HasSlots(topo: Topology, load: Load): nat -> bool {
    (d: nat) => UnionAllowed(load) == {} || SlotCpus(topo, d, UnionAllowed(load)) != []
  }

  function Usable(topo: Topology, load: Load, eligible: seq<nat>): seq<nat> { UsableBy(HasSlots(topo, load), eligible) }

  function Candidates(topo: Topology, load: Load, eligible: seq<nat>): seq<nat> {
    if Usable(topo, load, eligible) == [] then eligible else Usable(topo, load, eligible)
  }

  lemma {:induction false} UsableByKeeps(f: nat -> nat, keep: nat -> bool, eligible: seq<nat>)
    requires Distinct(eligible) && forall d :: !keep(d) ==> f(d) == 0
    ensures var u := UsableBy(keep, eligible);
            && Distinct(u) && (forall x :: x in u ==> x in eligible)
            && multiset(Positive(Mapped(f, eligible))) <= multiset(Mapped(f, u))
  {
    if eligible != [] {
      var init, d := eligible[..|eligible| - 1], eligible[|eligible| - 1];
      UsableByKeeps(f, keep, init);
      var u := UsableBy(keep, init);
      assert d !in init;
      forall i | 0 <= i < |u| ensures u[i] != d { assert u[i] in u; }
      assert Mapped(f, eligible)[..|init|] == Mapped(f, init);
      assert Mapped(f, u + [d]) == Mapped(f, u) + [f(d)];
    }
  }

  lemma UsableKeepsSlots(topo: Topology, load: Load, eligible: seq<nat>)
    requires Distinct(eligible)
    ensures var u := Usable(topo, load, eligible);
            && Distinct(u) && (forall x :: x in u ==> x in eligible)
            && multiset(Positive(Capacities(topo, load, eligible))) <= multiset(Capacities(topo, load, u))
  {
    forall d ensures !HasSlots(topo, load)(d) ==> CapacityOf(topo, load)(d) == 0 {
    }
    UsableByKeeps(CapacityOf(topo, load), HasSlots(topo, load), eligible);
  }

  lemma CandidatesKeepSlots(topo: Topology, load: Load, eligible: seq<nat>)
    requires Distinct(eligible)
    ensures var cs := Candidates(topo, load, eligible);
            && Distinct(cs) && (forall x :: x in cs ==> x in eligible) && (eligible != [] ==> cs != [])
            && multiset(Ranked(topo, load, eligible)) <= multiset(Capacities(topo, load, cs))
  {
    UsableKeepsSlots(topo, load, eligible);
    RankedFacts(topo, load, eligible);
  }

  // ----- even sampling -----

  function SampleIndex(n: nat, desired: nat, k: nat): nat
    requires desired > 0
  {
    (k * n) / desired
  }

  /** Sampling no more points than there are gives distinct ones, in order. */
  lemma SampleIndexAdvances(n: nat, desired: nat, j: nat, k: nat)
    requires 0 < desired <= n && j < k < desired
    ensures SampleIndex(n, desired, j) < SampleIndex(n, desired, k) < n
  {
    MulKeepsOrder(j + 1, k, n);
    assert (j + 1) * n == j * n + n;
    var q := (j * n) / desired;
    assert q * desired <= j * n;
    assert (q + 1) * desired == q * desired + desired;
    DivisionIsGreatest(k * n, q + 1, desired);
    SampleIndexInRange(n, desired, k);
  }

  lemma SampleIndexInRange(n: nat, desired: nat, k: nat)
    requires 0 < desired <= n && k < desired
    ensures SampleIndex(n, desired, k) < n
  {
    MulKeepsOrder(k + 1, desired, n);
    assert (k + 1) * n == k * n + n && desired * n == n * desired;
    QuotientIsBelow(k * n, n, desired);
  }

  /** The first `k` samples, repeats skipped. */
  function Sampled(cs: seq<nat>, desired: nat, k: nat): seq<nat>
    requires 0 < desired <= |cs| && k <= desired
  {
    if k == 0 then [] else
      var init := Sampled(cs, desired, k - 1);
      SampleIndexInRange(|cs|, desired, k - 1);
      var d := cs[SampleIndex(|cs|, desired, k - 1)];
      if d in init then init else init + [d]
  }

  lemma {:induction false} SampledAreDistinct(cs: seq<nat>, desired: nat, k: nat)
    requires 0 < desired <= |cs| && k <= desired && Distinct(cs)
    ensures var s := Sampled(cs, desired, k);
            && |s| == k && Distinct(s) && (forall x :: x in s ==> x in cs)
            && forall j :: 0 <= j < k ==> SampleIndex(|cs|, desired, j) < |cs| && s[j] == cs[SampleIndex(|cs|, desired, j)]
  {
    if k > 0 {
      SampledAreDistinct(cs, desired, k - 1);
      SampleIndexInRange(|cs|, desired, k - 1);
      forall j | 0 <= j < k - 1 ensures SampleIndex(|cs|, desired, j) < SampleIndex(|cs|, desired, k - 1) {
        SampleIndexAdvances(|cs|, desired, j, k - 1);
      }
    }
  }

  // ----- the widest domains -----

  predicate Wider(f: nat -> nat, a: nat, b: nat) { f(a) > f(b) || (f(a) == f(b) && a <= b) }

  /** More slots first, then the lower id. */
  function WiderFirst(f: nat -> nat): (nat, nat) -> bool { (a: nat, b: nat) => Wider(f, a, b) }

  lemma WiderFirstIsTotal(f: nat -> nat)
    ensures TotalPreorder(WiderFirst(f))
  {
  }

  function Widest(topo: Topology, load: Load, cs: seq<nat>): seq<nat> { Sort(WiderFirst(CapacityOf(topo, load)), cs) }

  lemma SortedByWidth(f: nat -> nat, cs: seq<nat>)
    requires Distinct(cs)
    ensures var w := Sort(WiderFirst(f), cs);
            && |w| == |cs| && Distinct(w) && (forall x :: x in w <==> x in cs)
            && Descending(Mapped(f, w)) && multiset(Mapped(f, w)) == multiset(Mapped(f, cs))
  {
    var w := Sort(WiderFirst(f), cs);
    WidthSorts(f, cs);
    WidthDescends(f, w);
    SameMembersMapped(f, w, cs);
  }

  lemma WidthSorts(f: nat -> nat, cs: seq<nat>)
    requires Distinct(cs)
    ensures var w := Sort(WiderFirst(f), cs);
            SortedBy(WiderFirst(f), w) && |w| == |cs| && Distinct(w) && forall x :: x in w <==> x in cs
  {
    WiderFirstIsTotal(f);
    SortSorts(WiderFirst(f), cs);
    SortMembers(WiderFirst(f), cs);
    SortDistinct(WiderFirst(f), cs);
  }

  lemma WidthDescends(f: nat -> nat, w: seq<nat>)
    requires SortedBy(WiderFirst(f), w)
    ensures Descending(Mapped(f, w))
  {
    var leq := WiderFirst(f);
    assert forall i, j :: 0 <= i < j < |w| ==> leq(w[i], w[j]);
  }

  lemma SameMembersMapped(f: nat -> nat, a: seq<nat>, b: seq<nat>)
    requires Distinct(a) && Distinct(b) && forall x :: x in a <==> x in b
    ensures multiset(Mapped(f, a)) == multiset(Mapped(f, b))
  {
    SubsetMapped(f, a, b);
    SubsetMapped(f, b, a);
  }

  lemma WidestFacts(topo: Topology, load: Load, cs: seq<nat>)
    requires Distinct(cs)
    ensures var w := Widest(topo, load, cs);
            && |w| == |cs| && Distinct(w) && (forall x :: x in w <==> x in cs)
            && Descending(Capacities(topo, load, w))
            && multiset(Capacities(topo, load, w)) == multiset(Capacities(topo, load, cs))
  {
    SortedByWidth(CapacityOf(topo, load), cs);
  }

  lemma PrefixSlots(topo: Topology, load: Load, ds: seq<nat>, k: nat)
    requires k <= |ds|
    ensures Slots(topo, load, ds[..k]) == Sum(Capacities(topo, load, ds)[..k])
  {
    assert Capacities(topo, load, ds[..k]) == Capacities(topo, load, ds)[..k];
  }

  // ----- the selection -----

  function Selected(topo: Topology, eligible: seq<nat>, load: Load, spread: nat): seq<nat> {
    var cs := Candidates(topo, load, eligible);
    SelectedFrom(topo, load, cs, Min(spread, |cs|))
  }

  function SelectedFrom(topo: Topology, load: Load, cs: seq<nat>, desired: nat): seq<nat>
    requires desired <= |cs|
  {
    if desired == 0 then []
    else if desired == |cs| then cs
    else
      var sampled := Sampled(cs, desired, desired);
      if |sampled| == desired && (|load| == 0 || SatSum(Capacities(topo, load, sampled)) >= |load|) then sampled
      else Widest(topo, load, cs)[..Min(desired, |Widest(topo, load, cs)|)]
  }

  method SelectActiveDomains(topo: Topology, eligible: seq<nat>, load: Load, spread: nat) returns (active: seq<nat>)
    ensures active == Selected(topo, eligible, load, spread)
  {
    if eligible == [] || spread == 0 {
      return [];
    }
    var candidates := Candidates(topo, load, eligible);
    var desired := Min(spread, |candidates|);
    if desired == |candidates| {
      return candidates;
    }
    active := SampleEvenly(candidates, desired);
    var capacity := AddCapacities(CapacityOf(topo, load), active);
    if |active| == desired && (|load| == 0 || capacity >= |load|) {
      return active;
    }
    var widest := Widest(topo, load, candidates);
    active := widest[..Min(desired, |widest|)];
  }

  method SampleEvenly(candidates: seq<nat>, desired: nat) returns (active: seq<nat>)
    requires 0 < desired <= |candidates|
    ensures active == Sampled(candidates, desired, desired)
  {
    active := [];
    var index := 0;
    while index < desired
      invariant 0 <= index <= desired && active == Sampled(candidates, desired, index)
    {
      SampleIndexInRange(|candidates|, desired, index);
      var domain := candidates[(index * |candidates|) / desired];
      if domain !in active {
        active := active + [domain];
      }
      index := index + 1;
    }
  }

  method AddCapacities(f: nat -> nat, active: seq<nat>) returns (capacity: nat)
    ensures capacity == SatSum(Mapped(f, active))
  {
    capacity := 0;
    ghost var cs := Mapped(f, active);
    for i := 0 to |active|
      invariant capacity == SatSum(cs[..i])
    {
      assert cs[..i + 1][..i] == cs[..i];
      capacity := Min(capacity + f(active[i]), U64_MAX);
    }
    assert cs[..|active|] == cs;
  }

  /** As many distinct eligible domains as asked for, or every candidate if there are fewer. */
  lemma SelectionSize(topo: Topology, eligible: seq<nat>, load: Load, spread: nat)
    requires Distinct(eligible)
    ensures var active := Selected(topo, eligible, load, spread);
            && Distinct(active) && (forall x :: x in active ==> x in eligible)
            && |active| == Min(spread, |Candidates(topo, load, eligible)|)
  {
    CandidatesKeepSlots(topo, load, eligible);
    SelectionOfCandidates(topo, load, Candidates(topo, load, eligible), spread);
  }

  lemma SelectionOfCandidates(topo: Topology, load: Load, cs: seq<nat>, spread: nat)
    requires Distinct(cs)
    ensures var active := SelectedFrom(topo, load, cs, Min(spread, |cs|));
            && Distinct(active) && (forall x :: x in active ==> x in cs) && |active| == Min(spread, |cs|)
  {
    WidestFacts(topo, load, cs);
    var desired := Min(spread, |cs|);
    if 0 < desired < |cs| {
      SampledAreDistinct(cs, desired, desired);
      PrefixIsDistinct(Widest(topo, load, cs), desired);
    }
  }

  lemma PrefixIsDistinct(w: seq<nat>, k: nat)
    requires Distinct(w) && k <= |w|
    ensures Distinct(w[..k]) && |w[..k]| == k && forall x :: x in w[..k] ==> x in w
  {
  }

  /** With at least the floor of domains allowed, and enough slots overall, the selection covers the load. */
  lemma SelectionCovers(topo: Topology, eligible: seq<nat>, load: Load, spread: nat, floor: nat)
    requires Distinct(eligible) && |load| <= U64_MAX
    requires IsFloor(Ranked(topo, load, eligible), |load|, |eligible|, floor)
    requires Slots(topo, load, eligible) >= |load| && floor <= spread
    ensures Slots(topo, load, Selected(topo, eligible, load, spread)) >= |load|
  {
    if |load| > 0 {
      CandidatesKeepSlots(topo, load, eligible);
      var cs := Candidates(topo, load, eligible);
      var w := Widest(topo, load, cs);
      var top := Capacities(topo, load, w);
      WidestFacts(topo, load, cs);
      FloorFits(topo, load, eligible, floor, cs);
      var desired := Min(spread, |cs|);
      TopCovers(topo, load, eligible, floor, top, desired);
      SelectedFromCovers(topo, load, cs, desired);
    }
  }

  /** If the widest domains cover the load then so does the selection, which takes them unless its samples cover it. */
  lemma SelectedFromCovers(topo: Topology, load: Load, cs: seq<nat>, desired: nat)
    requires Distinct(cs) && 0 < desired <= |cs| && 0 < |load| <= U64_MAX && |Widest(topo, load, cs)| == |cs|
    requires Sum(Capacities(topo, load, Widest(topo, load, cs))[..desired]) >= |load|
    ensures Slots(topo, load, SelectedFrom(topo, load, cs, desired)) >= |load|
  {
    var w := Widest(topo, load, cs);
    PrefixSlots(topo, load, w, desired);
    if desired == |cs| {
      WidestFacts(topo, load, cs);
      assert w[..desired] == w;
      SameSum(Capacities(topo, load, w), Capacities(topo, load, cs));
    } else {
      SatSumIsCapped(Capacities(topo, load, Sampled(cs, desired, desired)));
    }
  }

  lemma FloorFits(topo: Topology, load: Load, eligible: seq<nat>, floor: nat, cs: seq<nat>)
    requires IsFloor(Ranked(topo, load, eligible), |load|, |eligible|, floor) && |load| > 0
    requires Slots(topo, load, eligible) >= |load|
    requires multiset(Ranked(topo, load, eligible)) <= multiset(Capacities(topo, load, cs))
    ensures 0 < floor <= |cs|
  {
    var c, v := Ranked(topo, load, eligible), Capacities(topo, load, cs);
    var all := Capacities(topo, load, eligible);
    RankedFacts(topo, load, eligible);
    PositiveKeeps(all);
    SameSum(c, Positive(all));
    SubsetIsSmaller(multiset(c), multiset(v));
  }

  lemma SubsetIsSmaller(a: multiset<nat>, b: multiset<nat>)
    requires a <= b
    ensures |a| <= |b|
  {
    assert b == a + (b - a);
  }
}
