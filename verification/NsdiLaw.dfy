/** Who gives up a CPU in a round, which one, and who is sure to get one. */
module NsdiLaw {
  import opened Machine
  import opened Ordered
  import opened CpuSelect
  import opened CpuLaw
  import opened Nsdi

  /** The CPU is idle, has at most one planned job, or runs nothing. */
  ghost predicate Loose(e: Env, cpu: nat) { e.cpus.Idle(cpu) || e.cpus.Jobs(cpu) <= 1 || e.cpus.State(cpu).currentTid == 0 }

  /** The application is under its low mark, would not strand pending work, and has a CPU that can be taken. */
  ghost predicate HasSpare(e: Env, app: App) {
    && app.delay < e.cfg.low && (app.pending == 0 || |app.owned| > 1)
    && exists c :: c in app.owned && Loose(e, c)
  }

  /** An idle CPU is given up before a busy one, and among equals the less loaded one. */
  ghost predicate GivenUpFirst(e: Env, a: nat, b: nat) {
    if e.cpus.Idle(a) != e.cpus.Idle(b) then e.cpus.Idle(a) else LessLoaded(e.cpus, a, b)
  }

  lemma RevokeKeyIsOrder(e: Env, a: nat, b: nat)
    ensures LexLess(e.RevokeKey(a), e.RevokeKey(b)) <==> GivenUpFirst(e, a, b)
  {
    var x, y := e.RevokeKey(a), e.RevokeKey(b);
    LexFirst(x, y);
    assert x[1..] == e.cpus.IdleKey(a) && y[1..] == e.cpus.IdleKey(b);
    IdleKeyIsLoad(e.cpus, a, b);
  }

  /** One CPU fewer, the first to be given up of those that can be taken. */
  ghost predicate GivesUp(e: Env, app: App, after: App, cpu: nat) {
    && cpu in app.owned && Loose(e, cpu) && (forall c :: c in app.owned && Loose(e, c) && c != cpu ==> GivenUpFirst(e, cpu, c))
    && after == app.(owned := app.owned - {cpu}, lastScale := e.now)
  }

  /** The release pass takes one CPU of exactly the applications that have one to spare, and leaves the others as they are. */
  lemma ReleasesExactlyWhen(apps: seq<App>, e: Env, i: nat)
    requires i < |apps|
    ensures var after := AfterRelease(apps, e)[i];
            if HasSpare(e, apps[i]) then exists cpu :: GivesUp(e, apps[i], after, cpu) && |after.owned| == |apps[i].owned| - 1
            else after == apps[i]
    ensures i in Releasers(apps, e) <==> HasSpare(e, apps[i])
  {
    var app := apps[i];
    ChooseRevocableIsLeast(e, app.owned);
    assert forall c :: Loose(e, c) <==> e.Revocable(c);
    if HasSpare(e, app) {
      var cpu := e.ChooseRevocable(app.owned).value;
      forall c | c in app.owned && Loose(e, c) && c != cpu ensures GivenUpFirst(e, cpu, c) {
        RevokeKeyIsOrder(e, cpu, c);
      }
      assert GivesUp(e, app, AfterRelease(apps, e)[i], cpu);
    }
  }

  // ----- who is sure to get a CPU -----

  /** The applications with pending work and no CPU. */
  ghost function Starving(apps: seq<App>): set<nat> {
    set i: nat | i < |apps| && apps[i].pending > 0 && apps[i].owned == {}
  }

  /** A release neither feeds nor starves anyone. */
  lemma ReleaseKeepsStarving(apps: seq<App>, e: Env)
    ensures Starving(AfterRelease(apps, e)) == Starving(apps)
  {
    forall i: nat | i < |apps|
      ensures apps[i].pending > 0 && apps[i].owned == {} <==> AfterRelease(apps, e)[i].pending > 0 && AfterRelease(apps, e)[i].owned == {}
    {
      if apps[i].owned != {} && apps[i].pending > 0 {
        ReleaseLeavesSome(apps[i], e);
      }
    }
  }

  /** The recipients that have not released, in order. */
  ghost function Queue(ranked: seq<Recipient>, released: set<nat>): seq<Recipient> {
    if ranked == [] then [] else
      var init, last := Queue(ranked[..|ranked| - 1], released), ranked[|ranked| - 1];
      if last.id in released then init else init + [last]
  }

  /** Those without a CPU come first in it. */
  ghost predicate EmptyFirst(r: seq<Recipient>) { forall a, b :: 0 <= a < b < |r| && r[b].empty ==> r[a].empty }

  lemma {:induction false} QueueFacts(ranked: seq<Recipient>, released: set<nat>)
    requires EmptyFirst(ranked)
    ensures var q := Queue(ranked, released);
            && EmptyFirst(q) && |q| == |Waiting(ranked, released)|
            && (forall k :: 0 <= k < |q| ==> q[k] in ranked && q[k].id == Waiting(ranked, released)[k])
            && forall x :: x in ranked && x.id !in released ==> x in q
  {
    if ranked != [] {
      var init, last := ranked[..|ranked| - 1], ranked[|ranked| - 1];
      QueueFacts(init, released);
      var q := Queue(init, released);
      forall k | 0 <= k < |q| ensures last.empty ==> q[k].empty {
        var j :| 0 <= j < |init| && init[j] == q[k];
        assert ranked[j] == q[k];
      }
      assert forall x :: x in ranked ==> x in init || x == last;
    }
  }

  lemma RankedEmptyFirst(mid: seq<App>, e: Env)
    ensures EmptyFirst(Ranked(mid, e))
    ensures forall x :: x in Ranked(mid, e) <==> x.id < |mid| && e.Wants(mid[x.id]) && x == Recipient(mid[x.id].owned == {}, mid[x.id].delay, x.id)
  {
    RankedLists(mid, e);
    var r := Ranked(mid, e);
    forall a, b | 0 <= a < b < |r| && r[b].empty ensures r[a].empty {
      assert Before(r[a], r[b]);
    }
    assert forall x :: x in r <==> x in Requests(mid, e);
  }

  /** Members of a duplicate-free list that all lie in a set number no more than the set. */
  lemma {:induction false} DistinctFits(s: seq<nat>, all: set<nat>)
    requires Distinct(s) && forall i :: 0 <= i < |s| ==> s[i] in all
    ensures |s| <= |all|
  {
    if s != [] {
      var init, last := s[..|s| - 1], s[|s| - 1];
      DistinctFits(init, all - {last});
    }
  }

  /** The queue of a round. */
  ghost function Line(apps: seq<App>, e: Env): seq<Recipient> { Queue(Ranked(AfterRelease(apps, e), e), Releasers(apps, e)) }

  lemma LineFacts(apps: seq<App>, e: Env)
    ensures EmptyFirst(Line(apps, e)) && |Line(apps, e)| == |Served(apps, e)|
    ensures forall k :: 0 <= k < |Line(apps, e)| ==> Line(apps, e)[k].id == Served(apps, e)[k]
  {
    RankedEmptyFirst(AfterRelease(apps, e), e);
    QueueFacts(Ranked(AfterRelease(apps, e), e), Releasers(apps, e));
  }

  lemma EmptyInLineStarves(apps: seq<App>, e: Env, k: nat)
    requires k < |Line(apps, e)| && Line(apps, e)[k].empty
    ensures Line(apps, e)[k].id in Starving(apps)
  {
    var mid := AfterRelease(apps, e);
    RankedEmptyFirst(mid, e);
    QueueFacts(Ranked(mid, e), Releasers(apps, e));
    ReleaseKeepsStarving(apps, e);
    assert Line(apps, e)[k] in Ranked(mid, e);
    assert Line(apps, e)[k].id in Starving(mid);
  }

  lemma StarvingIsInLine(apps: seq<App>, e: Env, j: nat) returns (k: nat)
    requires j in Starving(apps)
    ensures k < |Line(apps, e)| && Line(apps, e)[k].id == j && Line(apps, e)[k].empty
  {
    var mid := AfterRelease(apps, e);
    RankedEmptyFirst(mid, e);
    QueueFacts(Ranked(mid, e), Releasers(apps, e));
    ReleaseKeepsStarving(apps, e);
    ReleasesExactlyWhen(apps, e, j);
    assert j in Starving(mid);
    var x := Recipient(true, mid[j].delay, j);
    assert x in Ranked(mid, e) && x in Line(apps, e);
    k :| 0 <= k < |Line(apps, e)| && Line(apps, e)[k] == x;
  }

  lemma AheadFits(line: seq<Recipient>, ids: seq<nat>, starving: set<nat>, k: nat)
    requires EmptyFirst(line) && |line| == |ids| && Distinct(ids) && k < |line| && line[k].empty
    requires forall i :: 0 <= i < |line| ==> line[i].id == ids[i] && (line[i].empty ==> ids[i] in starving)
    ensures k < |starving|
  {
    var ahead := ids[..k + 1];
    forall i | 0 <= i < |ahead| ensures ahead[i] in starving {
      assert line[i].empty;
    }
    DistinctFits(ahead, starving);
  }

  lemma ServedOnce(apps: seq<App>, e: Env)
    requires e.cfg.delayRange
    ensures Distinct(Served(apps, e))
  {
    RoundCases(apps, e);
  }

  /** Where a starving application stands in the queue: before it there are only starving ones. */
  lemma StarvingStandFirst(apps: seq<App>, e: Env, j: nat) returns (k: nat)
    requires e.cfg.delayRange && j in Starving(apps)
    ensures k < |Served(apps, e)| && Served(apps, e)[k] == j && k < |Starving(apps)|
  {
    k := StarvingIsInLine(apps, e, j);
    var line := Line(apps, e);
    LineFacts(apps, e);
    ServedOnce(apps, e);
    forall i | 0 <= i < |line| ensures line[i].empty ==> line[i].id in Starving(apps) {
      if line[i].empty {
        EmptyInLineStarves(apps, e, i);
      }
    }
    AheadFits(line, Served(apps, e), Starving(apps), k);
  }

  /** When the pool holds a CPU for every starving application, none of them goes without. */
  lemma PoolFeedsStarving(apps: seq<App>, e: Env, j: nat)
    requires e.cfg.delayRange && j in Starving(apps)
    requires |Starving(apps)| <= |FreeCpus(AfterRelease(apps, e), e.eligible)|
    ensures |Round(apps, e)| == |apps| && |Round(apps, e)[j].owned| == 1
  {
    var k := StarvingStandFirst(apps, e, j);
    RoundCases(apps, e);
    ReleaseKeepsStarving(apps, e);
    assert j in Starving(AfterRelease(apps, e));
    var m := DealtTo(AfterRelease(apps, e), Round(apps, e), e, Served(apps, e), Pool(apps, e), j);
    assert Round(apps, e)[Served(apps, e)[k]] == e.Granted(AfterRelease(apps, e)[j], Pool(apps, e)[k]);
  }

  /** So one application with a CPU to spare feeds a single starving one. */
  lemma SpareFeedsStarving(apps: seq<App>, e: Env, i: nat, j: nat)
    requires Partitioned(apps, e.eligible) && e.cfg.delayRange && i < |apps|
    requires HasSpare(e, apps[i]) && Starving(apps) == {j}
    ensures |Round(apps, e)| == |apps| && |Round(apps, e)[j].owned| == 1
  {
    var mid := AfterRelease(apps, e);
    ReleasesExactlyWhen(apps, e, i);
    var cpu :| GivesUp(e, apps[i], mid[i], cpu);
    forall a | 0 <= a < |mid| ensures cpu !in mid[a].owned {
      ReleasesExactlyWhen(apps, e, a);
      assert mid[a].owned <= apps[a].owned;
      if a != i {
        assert apps[a].owned !! apps[i].owned;
      }
    }
    FreeIsUnowned(mid, e.eligible, cpu);
    assert cpu in FreeCpus(mid, e.eligible);
    PoolFeedsStarving(apps, e, j);
  }
}
