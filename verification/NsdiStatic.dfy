/** The static split of the eligible CPUs among the applications. */
module NsdiStatic {
  import opened Arithmetic
  import opened Machine
  import opened Ordered
  import opened Nsdi

  /** The first `remainder` shares hold one CPU more. */
  function ShareSize(cpus: nat, apps: nat, id: nat): nat
    requires apps > 0
  {
    cpus / apps + if id < cpus % apps then 1 else 0
  }

  /** Where the share of application `id` starts: after the shares before it. */
  function ShareStart(cpus: nat, apps: nat, id: nat): nat
    requires apps > 0
  {
    if id == 0 then 0 else ShareStart(cpus, apps, id - 1) + ShareSize(cpus, apps, id - 1)
  }

  /** The consecutive stretch of the sorted CPUs that application `id` is given. */
  function Share(sorted: seq<nat>, apps: nat, id: nat): set<nat>
    requires apps > 0
  {
    var lo, hi := ShareStart(|sorted|, apps, id), ShareStart(|sorted|, apps, id + 1);
    if lo <= hi <= |sorted| then Elements(sorted[lo..hi]) else {}
  }

  lemma {:induction false} StartIsProduct(cpus: nat, apps: nat, id: nat)
    requires apps > 0
    ensures ShareStart(cpus, apps, id) == id * (cpus / apps) + Min(id, cpus % apps)
  {
    if id > 0 {
      StartIsProduct(cpus, apps, id - 1);
      assert id * (cpus / apps) == (id - 1) * (cpus / apps) + cpus / apps;
    }
  }

  lemma {:induction false} StartsGrow(cpus: nat, apps: nat, i: nat, j: nat)
    requires apps > 0 && i <= j
    ensures ShareStart(cpus, apps, i) <= ShareStart(cpus, apps, j)
    decreases j
  {
    if i < j {
      StartsGrow(cpus, apps, i, j - 1);
    }
  }

  lemma SharesFit(cpus: nat, apps: nat, id: nat)
    requires id < apps
    ensures ShareStart(cpus, apps, 0) == 0 && ShareStart(cpus, apps, apps) == cpus
    ensures ShareStart(cpus, apps, id + 1) == ShareStart(cpus, apps, id) + ShareSize(cpus, apps, id) <= cpus
  {
    StartIsProduct(cpus, apps, apps);
    DivisionSplits(cpus, apps);
    StartsGrow(cpus, apps, id + 1, apps);
  }

  /** Share `i` is the next stretch of the sorted CPUs, of one of two sizes. */
  ghost predicate Linked(sorted: seq<nat>, startOf: nat -> nat, shareOf: nat -> set<nat>, base: nat, remainder: nat, i: nat) {
    && startOf(i) <= startOf(i + 1) == startOf(i) + (base + if i < remainder then 1 else 0) <= |sorted|
    && shareOf(i) == Elements(sorted[startOf(i)..startOf(i + 1)])
  }

  ghost function StartOf(cpus: nat, apps: nat): nat -> nat
    requires apps > 0
  {
    (id: nat) => ShareStart(cpus, apps, id)
  }

  ghost function ShareOfId(sorted: seq<nat>, apps: nat): nat -> set<nat>
    requires apps > 0
  {
    (id: nat) => Share(sorted, apps, id)
  }

  lemma SharesAreLinked(sorted: seq<nat>, apps: nat, id: nat)
    requires id < apps
    ensures Linked(sorted, StartOf(|sorted|, apps), ShareOfId(sorted, apps), |sorted| / apps, |sorted| % apps, id)
  {
    SharesFit(|sorted|, apps, id);
  }

  /** The applications when the first `k` have their shares. */
  ghost function HandedOut(start: seq<App>, shareOf: nat -> set<nat>, k: nat): (r: seq<App>)
    ensures |r| == |start|
    ensures forall i :: 0 <= i < |r| ==> r[i] == if i < k then start[i].(owned := shareOf(i)) else start[i]
  {
    seq(|start|, i requires 0 <= i < |start| => if i < k then start[i].(owned := shareOf(i)) else start[i])
  }

  lemma HandedOutNext(start: seq<App>, shareOf: nat -> set<nat>, k: nat)
    requires k < |start|
    ensures HandedOut(start, shareOf, k)[k] == start[k]
    ensures HandedOut(start, shareOf, k + 1) == HandedOut(start, shareOf, k)[k := start[k].(owned := shareOf(k))]
  {
  }

  /** Hands out consecutive stretches of the sorted CPUs. */
  method HandOut(apps: array<App>, sorted: seq<nat>, base: nat, remainder: nat, ghost startOf: nat -> nat, ghost shareOf: nat -> set<nat>)
    requires startOf(0) == 0
    requires forall i :: 0 <= i < apps.Length ==> Linked(sorted, startOf, shareOf, base, remainder, i)
    modifies apps
    ensures apps[..] == HandedOut(old(apps[..]), shareOf, apps.Length)
  {
    var cursor, id := 0, 0;
    ghost var start := apps[..];
    while id < apps.Length
      invariant 0 <= id <= apps.Length == |start| && cursor == startOf(id)
      invariant apps[..] == HandedOut(start, shareOf, id)
    {
      assert Linked(sorted, startOf, shareOf, base, remainder, id);
      HandedOutNext(start, shareOf, id);
      assert apps[id] == apps[..][id];
      var share := base + if id < remainder then 1 else 0;
      Store(apps, id, apps[id].(owned := Elements(sorted[cursor..cursor + share])));
      cursor, id := cursor + share, id + 1;
    }
  }

  /** Splits the sorted eligible CPUs over all applications. */
  method InitializeStaticPartition(apps: array<App>, eligible: set<nat>)
    modifies apps
    ensures forall i :: 0 <= i < apps.Length ==>
              apps[i] == old(apps[i]).(owned := Share(Ascending(eligible), apps.Length, i))
    ensures apps.Length > 0 ==> SplitOver(apps[..], eligible, Ascending(eligible))
  {
    var sorted := Ascending(eligible);
    var count := apps.Length;
    if count == 0 {
      return;
    }
    ghost var shareOf := ShareOfId(sorted, count);
    SharesFit(|sorted|, count, 0);
    forall i | 0 <= i < count ensures Linked(sorted, StartOf(|sorted|, count), shareOf, |sorted| / count, |sorted| % count, i) {
      SharesAreLinked(sorted, count, i);
    }
    HandOut(apps, sorted, |sorted| / count, |sorted| % count, StartOf(|sorted|, count), shareOf);
    assert forall i :: 0 <= i < count ==> apps[i] == apps[..][i];
  }

  lemma {:induction false} AscendingElements(s: seq<nat>)
    requires StrictlyAscending(s)
    ensures |Elements(s)| == |s|
  {
    if s != [] {
      var init, last := s[..|s| - 1], s[|s| - 1];
      AscendingElements(init);
      assert Elements(s) == Elements(init) + {last};
      assert last !in Elements(init);
    }
  }

  lemma ShareSizes(sorted: seq<nat>, apps: nat, i: nat)
    requires StrictlyAscending(sorted) && i < apps
    ensures |Share(sorted, apps, i)| == ShareSize(|sorted|, apps, i)
    ensures forall x :: x in Share(sorted, apps, i) ==> x in sorted
  {
    SharesFit(|sorted|, apps, i);
    var lo, hi := ShareStart(|sorted|, apps, i), ShareStart(|sorted|, apps, i + 1);
    assert StrictlyAscending(sorted[lo..hi]);
    AscendingElements(sorted[lo..hi]);
  }

  lemma SharesDisjoint(sorted: seq<nat>, apps: nat, i: nat, j: nat)
    requires StrictlyAscending(sorted) && i < j < apps
    ensures Share(sorted, apps, i) !! Share(sorted, apps, j)
  {
    SharesFit(|sorted|, apps, i);
    SharesFit(|sorted|, apps, j);
    StartsGrow(|sorted|, apps, i + 1, j);
    var a, b := ShareStart(|sorted|, apps, i), ShareStart(|sorted|, apps, i + 1);
    var c, d := ShareStart(|sorted|, apps, j), ShareStart(|sorted|, apps, j + 1);
    StretchesDisjoint(sorted, a, b, c, d);
  }

  lemma StretchesDisjoint(s: seq<nat>, a: nat, b: nat, c: nat, d: nat)
    requires StrictlyAscending(s) && a <= b <= c <= d <= |s|
    ensures Elements(s[a..b]) !! Elements(s[c..d])
  {
  }

  lemma {:induction false} ShareOf(sorted: seq<nat>, apps: nat, k: nat, n: nat) returns (i: nat)
    requires 0 < n <= apps && k < ShareStart(|sorted|, apps, n) && k < |sorted|
    ensures i < apps && sorted[k] in Share(sorted, apps, i)
    decreases n
  {
    SharesFit(|sorted|, apps, n - 1);
    var lo, hi := ShareStart(|sorted|, apps, n - 1), ShareStart(|sorted|, apps, n);
    if lo <= k {
      i := n - 1;
      assert sorted[lo..hi][k - lo] == sorted[k];
    } else {
      i := ShareOf(sorted, apps, k, n - 1);
    }
  }

  lemma SharesCover(sorted: seq<nat>, apps: nat, cpu: nat) returns (i: nat)
    requires apps > 0 && cpu in sorted
    ensures i < apps && cpu in Share(sorted, apps, i)
  {
    var k: nat :| k < |sorted| && sorted[k] == cpu;
    SharesFit(|sorted|, apps, 0);
    i := ShareOf(sorted, apps, k, apps);
  }

  /** Every application owns its share of the sorted CPUs. */
  ghost predicate SplitOver(apps: seq<App>, eligible: set<nat>, sorted: seq<nat>) {
    && apps != [] && StrictlyAscending(sorted) && |sorted| == |eligible| && (forall x :: x in sorted <==> x in eligible)
    && forall i :: 0 <= i < |apps| ==> apps[i].owned == Share(sorted, |apps|, i)
  }

  lemma SplitIsPartition(apps: seq<App>, eligible: set<nat>, sorted: seq<nat>)
    requires SplitOver(apps, eligible, sorted)
    ensures Partitioned(apps, eligible)
  {
    forall i | 0 <= i < |apps| ensures apps[i].owned <= eligible {
      ShareSizes(sorted, |apps|, i);
    }
    forall i, j | 0 <= i < j < |apps| ensures apps[i].owned !! apps[j].owned {
      SharesDisjoint(sorted, |apps|, i, j);
    }
  }

  lemma SplitLeavesNone(apps: seq<App>, eligible: set<nat>, sorted: seq<nat>)
    requires SplitOver(apps, eligible, sorted)
    ensures FreeCpus(apps, eligible) == {}
  {
    forall cpu: nat | cpu in eligible ensures cpu !in FreeCpus(apps, eligible) {
      var i := SharesCover(sorted, |apps|, cpu);
      FreeIsUnowned(apps, eligible, cpu);
    }
  }

  lemma SplitIsEven(apps: seq<App>, eligible: set<nat>, sorted: seq<nat>, i: nat)
    requires SplitOver(apps, eligible, sorted) && i < |apps|
    ensures |apps[i].owned| == |eligible| / |apps| + if i < |eligible| % |apps| then 1 else 0
  {
    ShareSizes(sorted, |apps|, i);
  }

  /** The static split is a partition with no CPU left over, and no two shares differ by more than one. */
  lemma StaticSplitIsFair(apps: seq<App>, eligible: set<nat>, sorted: seq<nat>)
    requires SplitOver(apps, eligible, sorted)
    ensures Partitioned(apps, eligible) && FreeCpus(apps, eligible) == {}
    ensures forall i :: 0 <= i < |apps| ==>
              |apps[i].owned| == |eligible| / |apps| + if i < |eligible| % |apps| then 1 else 0
  {
    SplitIsPartition(apps, eligible, sorted);
    SplitLeavesNone(apps, eligible, sorted);
    forall i | 0 <= i < |apps|
      ensures |apps[i].owned| == |eligible| / |apps| + if i < |eligible| % |apps| then 1 else 0
    {
      SplitIsEven(apps, eligible, sorted, i);
    }
  }
}
