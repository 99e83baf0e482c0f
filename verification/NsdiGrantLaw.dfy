/** Who gets a CPU in a round, and which one. */
module NsdiGrantLaw {
  import opened Machine
  import opened Ordered
  import opened CpuSelect
  import opened Nsdi
  import opened NsdiLaw

  /** Pending work, and no CPU or a delay over the high mark; and no CPU to spare. */
  ghost predicate Needs(apps: seq<App>, e: Env, i: nat) {
    && i < |apps| && apps[i].pending > 0 && (apps[i].owned == {} || apps[i].delay > e.cfg.high)
    && !HasSpare(e, apps[i])
  }

  /** Those without a CPU first, then the longer delay, then the lower id. */
  ghost predicate Precedes(apps: seq<App>, i: nat, j: nat)
    requires i < |apps| && j < |apps|
  {
    if (apps[i].owned == {}) != (apps[j].owned == {}) then apps[i].owned == {}
    else if apps[i].delay != apps[j].delay then apps[i].delay > apps[j].delay
    else i < j
  }

  /** The applications in need that come before `i`. */
  ghost function Ahead(apps: seq<App>, e: Env, i: nat): set<nat>
    requires i < |apps|
  {
    set j: nat | j < |apps| && Needs(apps, e, j) && Precedes(apps, j, i)
  }

  lemma ServedAreInNeed(apps: seq<App>, e: Env, i: nat)
    requires e.cfg.delayRange
    ensures i in Served(apps, e) <==> Needs(apps, e, i)
    ensures Needs(apps, e, i) ==> AfterRelease(apps, e)[i] == apps[i]
  {
    RoundCases(apps, e);
    if i < |apps| {
      ReleasesExactlyWhen(apps, e, i);
    }
  }

  lemma {:induction false} QueueIsSorted(ranked: seq<Recipient>, released: set<nat>)
    requires SortedBy(Before, ranked)
    ensures SortedBy(Before, Queue(ranked, released)) && forall x :: x in Queue(ranked, released) ==> x in ranked
  {
    if ranked != [] {
      var init, last := ranked[..|ranked| - 1], ranked[|ranked| - 1];
      QueueIsSorted(init, released);
      var q := Queue(init, released);
      forall k | 0 <= k < |q| ensures Before(q[k], last) {
        assert q[k] in init;
        var j :| 0 <= j < |init| && init[j] == q[k];
        assert Before(ranked[j], ranked[|ranked| - 1]);
      }
    }
  }

  lemma LineIsSorted(apps: seq<App>, e: Env)
    ensures SortedBy(Before, Line(apps, e))
    ensures forall k :: 0 <= k < |Line(apps, e)| ==>
              var x, mid := Line(apps, e)[k], AfterRelease(apps, e);
              x.id < |mid| && x == Recipient(mid[x.id].owned == {}, mid[x.id].delay, x.id)
  {
    RankedLists(AfterRelease(apps, e), e);
    QueueIsSorted(Ranked(AfterRelease(apps, e), e), Releasers(apps, e));
    RankedEmptyFirst(AfterRelease(apps, e), e);
  }

  /** The recipients are served in the order of their need. */
  lemma ServedByNeed(apps: seq<App>, e: Env, a: nat, b: nat)
    requires e.cfg.delayRange && a < b < |Served(apps, e)|
    ensures Needs(apps, e, Served(apps, e)[a]) && Needs(apps, e, Served(apps, e)[b])
    ensures Precedes(apps, Served(apps, e)[a], Served(apps, e)[b])
  {
    var s, line := Served(apps, e), Line(apps, e);
    ServedOnce(apps, e);
    LineFacts(apps, e);
    LineIsSorted(apps, e);
    assert s[a] in s && s[b] in s;
    ServedAreInNeed(apps, e, s[a]);
    ServedAreInNeed(apps, e, s[b]);
    assert Before(line[a], line[b]);
  }

  lemma {:induction false} ElementsCount(s: seq<nat>)
    requires Distinct(s)
    ensures |Elements(s)| == |s|
  {
    if s != [] {
      var init, last := s[..|s| - 1], s[|s| - 1];
      ElementsCount(init);
      assert s == init + [last];
      assert last !in init;
      assert Elements(s) == Elements(init) + {last};
    }
  }

  lemma PrefixIsDistinct(s: seq<nat>, k: nat)
    requires Distinct(s) && k <= |s|
    ensures Distinct(s[..k]) && forall x :: x in s[..k] <==> exists i :: 0 <= i < k && s[i] == x
  {
  }

  lemma AheadIsBefore(apps: seq<App>, e: Env, a: nat, k: nat)
    requires e.cfg.delayRange && a < |Served(apps, e)| && k < |Served(apps, e)|
    ensures Served(apps, e)[a] < |apps| && Served(apps, e)[k] < |apps|
    ensures Served(apps, e)[a] in Ahead(apps, e, Served(apps, e)[k]) <==> a < k
  {
    assert Served(apps, e)[a] in Served(apps, e) && Served(apps, e)[k] in Served(apps, e);
    ServedAreInNeed(apps, e, Served(apps, e)[a]);
    ServedAreInNeed(apps, e, Served(apps, e)[k]);
    if a < k {
      ServedByNeed(apps, e, a, k);
    } else if k < a {
      ServedByNeed(apps, e, k, a);
    }
  }

  /** An application in need is served after exactly those that come before it. */
  lemma PlaceIsAhead(apps: seq<App>, e: Env, k: nat)
    requires e.cfg.delayRange && k < |Served(apps, e)|
    ensures Served(apps, e)[k] < |apps| && |Ahead(apps, e, Served(apps, e)[k])| == k
  {
    var s := Served(apps, e);
    AheadIsBefore(apps, e, k, k);
    ServedOnce(apps, e);
    PrefixIsDistinct(s, k);
    ElementsCount(s[..k]);
    var ahead, first := Ahead(apps, e, s[k]), Elements(s[..k]);
    forall j | j in ahead ensures j in first {
      ServedAreInNeed(apps, e, j);
      var a: nat :| a < |s| && s[a] == j;
      AheadIsBefore(apps, e, a, k);
    }
    forall j | j in first ensures j in ahead {
      var a: nat :| a < k && s[a] == j;
      AheadIsBefore(apps, e, a, k);
    }
    assert ahead == first;
  }

  /**
   * An application in need gets a CPU exactly when the pool holds more CPUs than there are applications in need before
   * it, and then the next in ascending order; every other application is left as the releases left it.
   */
  lemma GrantsExactlyWhen(apps: seq<App>, e: Env, i: nat)
    requires e.cfg.delayRange && i < |apps|
    ensures |Round(apps, e)| == |apps|
    ensures Needs(apps, e, i) ==>
              var place := |Ahead(apps, e, i)|;
              Round(apps, e)[i] == if place < |Pool(apps, e)| then e.Granted(apps[i], Pool(apps, e)[place]) else apps[i]
    ensures !Needs(apps, e, i) ==> Round(apps, e)[i] == AfterRelease(apps, e)[i]
  {
    RoundCases(apps, e);
    ServedAreInNeed(apps, e, i);
    if Needs(apps, e, i) {
      var k :| 0 <= k < |Served(apps, e)| && Served(apps, e)[k] == i;
      PlaceIsAhead(apps, e, k);
    }
  }
}
