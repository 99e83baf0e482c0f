/** The delay-range controller that moves CPUs between applications. */
module Nsdi {
  import opened Machine
  import opened Ordered
  import opened CpuSelect

  datatype App = App(owned: set<nat>, pending: u32, delay: u64, lastScale: u64)

  datatype NsdiConfig = NsdiConfig(delayRange: bool, low: u64, high: u64)

  /** Inputs of one control round that it does not change. */
  datatype Env = Env(eligible: set<nat>, cpus: CpuView, cfg: NsdiConfig, now: u64) {
    function RevokeKey(cpu: nat): seq<int> {
      [Bit(!cpus.Idle(cpu)), cpus.Jobs(cpu), cpus.Util(cpu), cpus.State(cpu).depth, cpu]
    }

    function RevokeKeys(): nat -> seq<int> { (cpu: nat) => RevokeKey(cpu) }

    predicate Revocable(cpu: nat) {
      cpus.Idle(cpu) || cpus.Jobs(cpu) <= 1 || cpus.State(cpu).currentTid == 0
    }

    function ChooseRevocable(owned: set<nat>): Option<nat> {
      LeastBy(Ascending(set c | c in owned && Revocable(c)), RevokeKeys())
    }

    /** The application is under its low mark and can spare a CPU without stranding pending work. */
    predicate CanSpare(app: App) {
      app.delay < cfg.low && app.owned != {} && !(app.pending > 0 && |app.owned| <= 1)
    }

    function Spared(app: App): Option<nat> {
      if CanSpare(app) then ChooseRevocable(app.owned) else None
    }

    function Released(app: App): App {
      match Spared(app)
      case None => app
      case Some(cpu) => app.(owned := app.owned - {cpu}, lastScale := now)
    }

    predicate Wants(app: App) {
      app.pending > 0 && (app.owned == {} || app.delay > cfg.high)
    }

    function Granted(app: App, cpu: nat): App { app.(owned := app.owned + {cpu}, lastScale := now) }
  }

  // ----- ownership -----

  function AllOwned(apps: seq<App>): set<nat> {
    if apps == [] then {} else AllOwned(apps[..|apps| - 1]) + apps[|apps| - 1].owned
  }

  function FreeCpus(apps: seq<App>, eligible: set<nat>): set<nat> { eligible - AllOwned(apps) }

  lemma {:induction false} AllOwnedMembers(apps: seq<App>, cpu: nat)
    ensures cpu in AllOwned(apps) <==> exists i :: 0 <= i < |apps| && cpu in apps[i].owned
  {
    if apps != [] {
      var init := apps[..|apps| - 1];
      AllOwnedMembers(init, cpu);
      assert forall i :: 0 <= i < |init| ==> init[i] == apps[i];
    }
  }

  /** No CPU has two owners, and none is owned outside the eligible set. */
  ghost predicate Partitioned(apps: seq<App>, eligible: set<nat>) {
    && (forall i, j :: 0 <= i < j < |apps| ==> apps[i].owned !! apps[j].owned)
    && (forall i :: 0 <= i < |apps| ==> apps[i].owned <= eligible)
  }

  lemma ChooseRevocableIsLeast(e: Env, owned: set<nat>)
    ensures var r := e.ChooseRevocable(owned);
            && (r.Some? <==> exists c :: c in owned && e.Revocable(c))
            && (r.Some? ==> r.value in owned && e.Revocable(r.value))
            && (r.Some? ==> forall c :: c in owned && e.Revocable(c) && c != r.value ==>
                                          LexLess(e.RevokeKey(r.value), e.RevokeKey(c)))
  {
    var s := Ascending(set c | c in owned && e.Revocable(c));
    LeastByIsLeast(s, e.RevokeKeys());
    var r := e.ChooseRevocable(owned);
    assert s != [] ==> s[0] in s;
    assert forall c :: c in owned && e.Revocable(c) ==> c in s;
    if r.Some? {
      forall c | c in owned && e.Revocable(c) && c != r.value ensures LexLess(e.RevokeKey(r.value), e.RevokeKey(c)) {
        assert c in s;
        LexTotal(e.RevokeKey(c), e.RevokeKey(r.value));
        assert e.RevokeKey(c)[4] != e.RevokeKey(r.value)[4];
      }
    }
  }

  // ----- the release phase -----

  function AfterRelease(apps: seq<App>, e: Env): (r: seq<App>)
    ensures |r| == |apps| && forall i :: 0 <= i < |r| ==> r[i] == e.Released(apps[i])
  {
    seq(|apps|, i requires 0 <= i < |apps| => e.Released(apps[i]))
  }

  /** The applications that gave up a CPU. */
  function Releasers(apps: seq<App>, e: Env): (r: set<nat>)
    ensures forall i: nat :: i in r <==> i < |apps| && e.Spared(apps[i]).Some?
  {
    Where(Sparing(e), apps)
  }

  function Sparing(e: Env): App -> bool { (a: App) => e.Spared(a).Some? }

  /** The positions whose entries satisfy `p`. */
  function Where<T>(p: T -> bool, s: seq<T>): (r: set<nat>)
    ensures forall i: nat :: i in r <==> i < |s| && p(s[i])
  {
    set i: nat | i < |s| && p(s[i])
  }

  lemma WhereNext<T>(p: T -> bool, s: seq<T>, k: nat)
    requires k < |s|
    ensures Where(p, s[..k + 1]) == Where(p, s[..k]) + if p(s[k]) then {k} else {}
  {
  }

  /** Releasing keeps the partition, and frees exactly the spared CPUs. */
  lemma ReleaseKeepsPartition(apps: seq<App>, e: Env)
    requires Partitioned(apps, e.eligible)
    ensures Partitioned(AfterRelease(apps, e), e.eligible)
  {
    forall i | 0 <= i < |apps| ensures e.Released(apps[i]).owned <= apps[i].owned {
      ChooseRevocableIsLeast(e, apps[i].owned);
    }
  }

  // ----- the grant phase -----

  datatype Recipient = Recipient(empty: bool, delay: u64, id: nat)

  /** No CPU first, then the longer delay, then the lower id. */
  predicate Before(a: Recipient, b: Recipient) {
    if a.empty != b.empty then a.empty
    else if a.delay != b.delay then a.delay > b.delay
    else a.id <= b.id
  }

  lemma BeforeIsTotal()
    ensures TotalPreorder(Before)
  {
  }

  function Requests(apps: seq<App>, e: Env): (r: seq<Recipient>)
    ensures forall x :: x in r <==> x.id < |apps| && e.Wants(apps[x.id]) && x == Recipient(apps[x.id].owned == {}, apps[x.id].delay, x.id)
    ensures forall i, j :: 0 <= i < j < |r| ==> r[i].id < r[j].id
  {
    if apps == [] then [] else
      var i := |apps| - 1;
      var init := Requests(apps[..i], e);
      if e.Wants(apps[i]) then init + [Recipient(apps[i].owned == {}, apps[i].delay, i)] else init
  }

  function Ranked(apps: seq<App>, e: Env): seq<Recipient> { Sort(Before, Requests(apps, e)) }

  /** The ids of the ranked recipients that did not release a CPU in this round. */
  function Waiting(ranked: seq<Recipient>, released: set<nat>): seq<nat> {
    if ranked == [] then [] else
      var init, last := Waiting(ranked[..|ranked| - 1], released), ranked[|ranked| - 1];
      if last.id in released then init else init + [last.id]
  }

  predicate InRange(ids: seq<nat>, n: nat) { forall k :: 0 <= k < |ids| ==> ids[k] < n }

  /** The i-th waiting application gets the i-th free CPU, while CPUs last. */
  function Grants(apps: seq<App>, e: Env, waiting: seq<nat>, free: seq<nat>): (r: seq<App>)
    requires InRange(waiting, |apps|)
    ensures |r| == |apps|
  {
    if waiting == [] then apps else
      var k := |waiting| - 1;
      var r := Grants(apps, e, waiting[..k], free);
      if k < |free| then r[waiting[k] := e.Granted(r[waiting[k]], free[k])] else r
  }

  lemma {:induction false} GrantsPointwise(apps: seq<App>, e: Env, waiting: seq<nat>, free: seq<nat>)
    requires Distinct(waiting) && InRange(waiting, |apps|)
    ensures var r := Grants(apps, e, waiting, free);
            && (forall k :: 0 <= k < |waiting| ==>
                  r[waiting[k]] == if k < |free| then e.Granted(apps[waiting[k]], free[k]) else apps[waiting[k]])
            && (forall i :: 0 <= i < |apps| && i !in waiting ==> r[i] == apps[i])
  {
    if waiting != [] {
      GrantsPointwise(apps, e, waiting[..|waiting| - 1], free);
    }
  }

  /** One control round. */
  function Round(apps: seq<App>, e: Env): seq<App> {
    if !e.cfg.delayRange then apps else
      var mid := AfterRelease(apps, e);
      WaitingInRange(mid, e, Releasers(apps, e));
      Grants(mid, e, Waiting(Ranked(mid, e), Releasers(apps, e)), Ascending(FreeCpus(mid, e.eligible)))
  }

  lemma {:induction false} WaitingMembers(ranked: seq<Recipient>, released: set<nat>)
    requires forall i, j :: 0 <= i < j < |ranked| ==> ranked[i].id != ranked[j].id
    ensures Distinct(Waiting(ranked, released))
    ensures forall id :: id in Waiting(ranked, released) <==> id !in released && exists k :: 0 <= k < |ranked| && ranked[k].id == id
  {
    if ranked != [] {
      var init := ranked[..|ranked| - 1];
      WaitingMembers(init, released);
      assert forall k :: 0 <= k < |init| ==> init[k] == ranked[k];
    }
  }

  /** The ranking is by priority and lists every application that wants a CPU exactly once. */
  lemma RankedLists(apps: seq<App>, e: Env)
    ensures SortedBy(Before, Ranked(apps, e))
    ensures forall x :: x in Ranked(apps, e) <==> x in Requests(apps, e)
    ensures forall i, j :: 0 <= i < j < |Ranked(apps, e)| ==> Ranked(apps, e)[i].id != Ranked(apps, e)[j].id
  {
    BeforeIsTotal();
    var s, r := Requests(apps, e), Ranked(apps, e);
    SortSorts(Before, s);
    SortMembers(Before, s);
    SortDistinct(Before, s);
    forall i, j | 0 <= i < j < |r| ensures r[i].id != r[j].id {
      assert r[i] in s && r[j] in s;
    }
  }

  lemma WaitingInRange(apps: seq<App>, e: Env, released: set<nat>)
    ensures var w := Waiting(Ranked(apps, e), released);
            && Distinct(w)
            && (forall k :: 0 <= k < |w| ==> w[k] < |apps|)
            && (forall id :: id in w <==> 0 <= id < |apps| && id !in released && e.Wants(apps[id]))
  {
    RankedLists(apps, e);
    WaitingMembers(Ranked(apps, e), released);
    var r, w := Ranked(apps, e), Waiting(Ranked(apps, e), released);
    forall id ensures id in w <==> 0 <= id < |apps| && id !in released && e.Wants(apps[id]) {
      if id in w {
        var k :| 0 <= k < |r| && r[k].id == id;
        assert r[k] in r;
      }
      if 0 <= id < |apps| && id !in released && e.Wants(apps[id]) {
        var x := Recipient(apps[id].owned == {}, apps[id].delay, id);
        assert x in Requests(apps, e);
        assert x in r;
      }
    }
    forall k | 0 <= k < |w| ensures w[k] < |apps| { assert w[k] in w; }
  }

  // ----- what a round guarantees -----

  /** The k-th of the waiting applications got the k-th CPU, and nothing else changed. */
  ghost predicate Dealt(mid: seq<App>, final: seq<App>, e: Env, w: seq<nat>, f: seq<nat>) {
    && |final| == |mid| && Distinct(w)
    && (forall k :: 0 <= k < |w| ==>
          w[k] < |mid| && final[w[k]] == if k < |f| then e.Granted(mid[w[k]], f[k]) else mid[w[k]])
    && (forall i :: 0 <= i < |mid| && i !in w ==> final[i] == mid[i])
  }

  /** The CPUs dealt out are the unowned eligible ones, in ascending order. */
  ghost predicate Spare(mid: seq<App>, eligible: set<nat>, f: seq<nat>) {
    && StrictlyAscending(f)
    && (forall k :: 0 <= k < |f| ==> f[k] in eligible)
    && (forall k, i :: 0 <= k < |f| && 0 <= i < |mid| ==> f[k] !in mid[i].owned)
    && (forall c :: c in eligible && (forall i :: 0 <= i < |mid| ==> c !in mid[i].owned) ==> c in f)
  }

  lemma FreeIsUnowned(apps: seq<App>, eligible: set<nat>, cpu: nat)
    ensures cpu in FreeCpus(apps, eligible) <==>
            cpu in eligible && forall i :: 0 <= i < |apps| ==> cpu !in apps[i].owned
  {
    AllOwnedMembers(apps, cpu);
  }

  lemma FreeIsSpare(apps: seq<App>, eligible: set<nat>)
    ensures Spare(apps, eligible, Ascending(FreeCpus(apps, eligible)))
  {
    var f := Ascending(FreeCpus(apps, eligible));
    forall k | 0 <= k < |f| ensures f[k] in eligible && forall i :: 0 <= i < |apps| ==> f[k] !in apps[i].owned {
      assert f[k] in f;
      FreeIsUnowned(apps, eligible, f[k]);
    }
    forall c | c in eligible && (forall i :: 0 <= i < |apps| ==> c !in apps[i].owned) ensures c in f {
      FreeIsUnowned(apps, eligible, c);
    }
  }

  /** The recipients of a round, in the order they are served. */
  function Served(apps: seq<App>, e: Env): seq<nat> {
    Waiting(Ranked(AfterRelease(apps, e), e), Releasers(apps, e))
  }

  function Pool(apps: seq<App>, e: Env): seq<nat> { Ascending(FreeCpus(AfterRelease(apps, e), e.eligible)) }

  /** A round is a release followed by a deal of the spare CPUs. */
  lemma RoundCases(apps: seq<App>, e: Env)
    requires e.cfg.delayRange
    ensures Dealt(AfterRelease(apps, e), Round(apps, e), e, Served(apps, e), Pool(apps, e))
    ensures Spare(AfterRelease(apps, e), e.eligible, Pool(apps, e))
    ensures forall id :: id in Served(apps, e) <==>
              0 <= id < |apps| && id !in Releasers(apps, e) && e.Wants(AfterRelease(apps, e)[id])
  {
    var mid := AfterRelease(apps, e);
    WaitingInRange(mid, e, Releasers(apps, e));
    GrantsPointwise(mid, e, Served(apps, e), Pool(apps, e));
    FreeIsSpare(mid, e.eligible);
  }

  /** The position at which an application was served, if it was. */
  lemma DealtTo(mid: seq<App>, final: seq<App>, e: Env, w: seq<nat>, f: seq<nat>, i: nat) returns (k: int)
    requires Dealt(mid, final, e, w, f) && i < |mid|
    ensures final[i].pending == mid[i].pending
    ensures -1 <= k < |f| && (k >= 0 ==> k < |w| && w[k] == i)
    ensures final[i].owned == if k < 0 then mid[i].owned else mid[i].owned + {f[k]}
  {
    k := -1;
    if i in w {
      var m :| 0 <= m < |w| && w[m] == i;
      assert final[w[m]] == if m < |f| then e.Granted(mid[w[m]], f[m]) else mid[w[m]];
      if m < |f| { k := m; }
    }
  }

  lemma DealKeepsPartition(mid: seq<App>, final: seq<App>, e: Env, w: seq<nat>, f: seq<nat>)
    requires Dealt(mid, final, e, w, f) && Spare(mid, e.eligible, f) && Partitioned(mid, e.eligible)
    ensures Partitioned(final, e.eligible)
  {
    forall i, j | 0 <= i < j < |final| ensures final[i].owned !! final[j].owned {
      var a := DealtTo(mid, final, e, w, f, i);
      var b := DealtTo(mid, final, e, w, f, j);
      assert mid[i].owned !! mid[j].owned;
    }
    forall i | 0 <= i < |final| ensures final[i].owned <= e.eligible {
      var a := DealtTo(mid, final, e, w, f, i);
    }
  }

  /** Ownership stays disjoint, and the eligible CPUs stay exactly the free and the owned ones. */
  lemma RoundKeepsPartition(apps: seq<App>, e: Env)
    requires Partitioned(apps, e.eligible)
    ensures Partitioned(Round(apps, e), e.eligible)
    ensures FreeCpus(Round(apps, e), e.eligible) + AllOwned(Round(apps, e)) == e.eligible
  {
    if e.cfg.delayRange {
      ReleaseKeepsPartition(apps, e);
      RoundCases(apps, e);
      DealKeepsPartition(AfterRelease(apps, e), Round(apps, e), e, Served(apps, e), Pool(apps, e));
    }
    OwnedIsEligible(Round(apps, e), e.eligible);
  }

  lemma OwnedIsEligible(apps: seq<App>, eligible: set<nat>)
    requires Partitioned(apps, eligible)
    ensures AllOwned(apps) <= eligible
  {
    forall cpu | cpu in AllOwned(apps) ensures cpu in eligible {
      AllOwnedMembers(apps, cpu);
    }
  }

  /** An application keeps its CPUs, loses one of them, or gains one that nobody had at the deal. */
  lemma RoundMovesAtMostOne(apps: seq<App>, e: Env, i: nat)
    requires i < |apps|
    ensures |Round(apps, e)| == |apps|
    ensures var before, after := apps[i].owned, Round(apps, e)[i].owned;
            || after == before
            || (exists c :: c in before && after == before - {c})
            || (exists c :: c in FreeCpus(AfterRelease(apps, e), e.eligible) && c !in before && after == before + {c})
  {
    if e.cfg.delayRange {
      RoundCases(apps, e);
      ChooseRevocableIsLeast(e, apps[i].owned);
      var f := Pool(apps, e);
      var k := DealtTo(AfterRelease(apps, e), Round(apps, e), e, Served(apps, e), f, i);
      if k >= 0 {
        assert i in Served(apps, e) && f[k] in f;
      }
    }
  }

  /** Pending work is never stranded by a release. */
  lemma PendingKeepsACpu(apps: seq<App>, e: Env, i: nat)
    requires i < |apps| && apps[i].pending > 0 && apps[i].owned != {}
    ensures |Round(apps, e)| == |apps|
    ensures Round(apps, e)[i].owned != {} && Round(apps, e)[i].pending == apps[i].pending
  {
    if e.cfg.delayRange {
      RoundCases(apps, e);
      ReleaseLeavesSome(apps[i], e);
      var k := DealtTo(AfterRelease(apps, e), Round(apps, e), e, Served(apps, e), Pool(apps, e), i);
    }
  }

  /** If someone in the queue went without, every spare CPU was dealt out. */
  lemma DealExhausts(mid: seq<App>, final: seq<App>, e: Env, w: seq<nat>, f: seq<nat>, cpu: nat)
    requires Dealt(mid, final, e, w, f) && Spare(mid, e.eligible, f) && |w| >= |f| && cpu in e.eligible
    ensures exists i :: 0 <= i < |final| && cpu in final[i].owned
  {
    if cpu in f {
      var m :| 0 <= m < |f| && f[m] == cpu;
      assert cpu in final[w[m]].owned;
    } else {
      var j :| 0 <= j < |mid| && cpu in mid[j].owned;
      var k := DealtTo(mid, final, e, w, f, j);
      assert cpu in final[j].owned;
    }
  }

  /** Pending work is left without a CPU only when every eligible CPU has an owner. */
  lemma StarvedMeansFull(apps: seq<App>, e: Env, i: nat)
    requires e.cfg.delayRange && i < |apps| == |Round(apps, e)|
    requires Round(apps, e)[i].pending > 0 && Round(apps, e)[i].owned == {}
    ensures FreeCpus(Round(apps, e), e.eligible) == {}
  {
    RoundCases(apps, e);
    var mid, final, w, f := AfterRelease(apps, e), Round(apps, e), Served(apps, e), Pool(apps, e);
    var k := DealtTo(mid, final, e, w, f, i);
    assert k < 0;
    assert apps[i].pending > 0;
    assert apps[i].owned == {} by {
      if apps[i].owned != {} { PendingKeepsACpu(apps, e, i); }
    }
    assert i in w;
    var m :| 0 <= m < |w| && w[m] == i;
    assert m >= |f|;
    forall cpu: nat | cpu in e.eligible ensures cpu !in FreeCpus(final, e.eligible) {
      DealExhausts(mid, final, e, w, f, cpu);
      FreeIsUnowned(final, e.eligible, cpu);
    }
  }

  lemma {:induction false} NobodyReleasedAndWaits(ranked: seq<Recipient>, released: set<nat>)
    requires forall k :: 0 <= k < |ranked| ==> ranked[k].id !in released
    ensures |Waiting(ranked, released)| == |ranked|
    ensures forall k :: 0 <= k < |ranked| ==> Waiting(ranked, released)[k] == ranked[k].id
  {
    if ranked != [] {
      NobodyReleasedAndWaits(ranked[..|ranked| - 1], released);
    }
  }

  /** Only who wants a CPU when the releases are over is ranked, and everyone who does is. */
  lemma RankedWant(mid: seq<App>, e: Env, i: nat)
    ensures i < |mid| && e.Wants(mid[i]) <==> exists k :: 0 <= k < |Ranked(mid, e)| && Ranked(mid, e)[k].id == i
  {
    RankedLists(mid, e);
    var r := Ranked(mid, e);
    if i < |mid| && e.Wants(mid[i]) {
      var x := Recipient(mid[i].owned == {}, mid[i].delay, i);
      assert x in r;
    }
    forall k | 0 <= k < |r| && r[k].id == i ensures i < |mid| && e.Wants(mid[i]) {
      assert r[k] in r;
    }
  }

  /** With low at most high, who has released wants nothing. */
  lemma ReleasersDoNotWant(apps: seq<App>, e: Env, i: nat)
    requires e.cfg.low <= e.cfg.high && i in Releasers(apps, e)
    ensures i < |AfterRelease(apps, e)| && !e.Wants(AfterRelease(apps, e)[i])
  {
    if apps[i].owned != {} && apps[i].pending > 0 {
      ReleaseLeavesSome(apps[i], e);
    }
  }

  lemma ServedAreRanked(apps: seq<App>, e: Env)
    requires e.cfg.low <= e.cfg.high
    ensures var r := Ranked(AfterRelease(apps, e), e);
            |Served(apps, e)| == |r| && forall k :: 0 <= k < |r| ==> Served(apps, e)[k] == r[k].id
  {
    var mid := AfterRelease(apps, e);
    var r := Ranked(mid, e);
    forall k | 0 <= k < |r| ensures r[k].id !in Releasers(apps, e) {
      RankedWant(mid, e, r[k].id);
      if r[k].id in Releasers(apps, e) {
        ReleasersDoNotWant(apps, e, r[k].id);
      }
    }
    NobodyReleasedAndWaits(r, Releasers(apps, e));
  }

  lemma DealtByRank(mid: seq<App>, final: seq<App>, e: Env, w: seq<nat>, f: seq<nat>, r: seq<Recipient>)
    requires Dealt(mid, final, e, w, f) && |w| == |r| && forall k :: 0 <= k < |r| ==> w[k] == r[k].id
    ensures |final| == |mid| && forall k :: 0 <= k < |r| ==>
              r[k].id < |mid| && final[r[k].id] == if k < |f| then e.Granted(mid[r[k].id], f[k]) else mid[r[k].id]
    ensures forall i :: 0 <= i < |mid| && (forall k :: 0 <= k < |r| ==> r[k].id != i) ==> final[i] == mid[i]
  {
    forall k | 0 <= k < |r|
      ensures r[k].id < |mid| && final[r[k].id] == if k < |f| then e.Granted(mid[r[k].id], f[k]) else mid[r[k].id]
    {
      assert w[k] == r[k].id;
    }
  }

  /**
   * With low at most high, the recipients served are the first of the priority order, the i-th with the
   * i-th smallest free CPU; everyone else keeps what the release phase left.
   */
  lemma GrantsByPriority(apps: seq<App>, e: Env)
    requires e.cfg.delayRange && e.cfg.low <= e.cfg.high
    ensures var mid, final := AfterRelease(apps, e), Round(apps, e);
            var r, f := Ranked(mid, e), Ascending(FreeCpus(mid, e.eligible));
            && SortedBy(Before, r) && |final| == |mid| == |apps|
            && (forall k :: 0 <= k < |r| ==>
                  r[k].id < |mid| && final[r[k].id] == if k < |f| then e.Granted(mid[r[k].id], f[k]) else mid[r[k].id])
            && (forall i: nat :: i < |mid| && !e.Wants(mid[i]) ==> final[i] == mid[i])
            && (forall i: nat :: i < |mid| && e.Wants(mid[i]) ==> exists k :: 0 <= k < |r| && r[k].id == i)
  {
    var mid := AfterRelease(apps, e);
    RankedLists(mid, e);
    RoundCases(apps, e);
    ServedAreRanked(apps, e);
    DealtByRank(mid, Round(apps, e), e, Served(apps, e), Pool(apps, e), Ranked(mid, e));
    forall i: nat | i < |mid|
      ensures e.Wants(mid[i]) <==> exists k :: 0 <= k < |Ranked(mid, e)| && Ranked(mid, e)[k].id == i
    {
      RankedWant(mid, e, i);
    }
  }

  lemma ReleaseLeavesSome(app: App, e: Env)
    requires app.pending > 0 && app.owned != {}
    ensures e.Released(app).owned != {}
  {
    var spared := e.Spared(app);
    if spared.Some? {
      ChooseRevocableIsLeast(e, app.owned);
      assert |app.owned - {spared.value}| == |app.owned| - 1;
    }
  }

  // ----- the donor branch -----

  /** An application that could be made to hand a CPU over when the pool is empty. */
  predicate IsDonor(apps: seq<App>, changed: set<nat>, recipient: nat, e: Env, id: nat) {
    id < |apps| && id != recipient && id !in changed && e.Spared(apps[id]).Some?
  }

  function DonorKey(apps: seq<App>, e: Env, id: nat): seq<int> {
    if id >= |apps| || e.Spared(apps[id]).None? then [] else
      var cpu := e.Spared(apps[id]).value;
      [e.cpus.Jobs(cpu), e.cpus.Util(cpu), e.cpus.State(cpu).depth, cpu]
  }

  function DonorKeys(apps: seq<App>, e: Env): nat -> seq<int> { (id: nat) => DonorKey(apps, e, id) }

  function Donor(apps: seq<App>, changed: set<nat>, recipient: nat, e: Env): (d: Option<nat>)
    ensures d.Some? ==> IsDonor(apps, changed, recipient, e, d.value)
  {
    var ids := Ascending(set id: nat | id < |apps| && IsDonor(apps, changed, recipient, e, id));
    LeastByIsLeast(ids, DonorKeys(apps, e));
    LeastBy(ids, DonorKeys(apps, e))
  }

  /** Whoever is untouched since the start of the round and could give a CPU gave it in the release phase. */
  lemma NoDonorRemains(apps: seq<App>, now: seq<App>, changed: set<nat>, recipient: nat, e: Env)
    requires |now| == |apps| && Releasers(apps, e) <= changed
    requires forall i: nat :: i < |apps| && i !in changed ==> now[i] == apps[i]
    ensures Donor(now, changed, recipient, e).None?
  {
  }

  // ----- the controller -----

  lemma ReleaseFrees(apps: seq<App>, eligible: set<nat>, i: nat, app: App, cpu: nat)
    requires Partitioned(apps, eligible) && i < |apps| && cpu in apps[i].owned && app.owned == apps[i].owned - {cpu}
    ensures Partitioned(apps[i := app], eligible)
    ensures FreeCpus(apps[i := app], eligible) == FreeCpus(apps, eligible) + {cpu}
  {
    var apps' := apps[i := app];
    forall c: nat ensures c in FreeCpus(apps', eligible) <==> c in FreeCpus(apps, eligible) + {cpu} {
      FreeIsUnowned(apps, eligible, c);
      FreeIsUnowned(apps', eligible, c);
      if c == cpu {
        assert forall j :: 0 <= j < |apps'| ==> c !in apps'[j].owned;
      } else if c in FreeCpus(apps', eligible) {
        forall j | 0 <= j < |apps| ensures c !in apps[j].owned { assert c !in apps'[j].owned; }
      }
    }
  }

  /** The applications when the release phase has reached the one with index `id`. */
  ghost function Partway(apps: seq<App>, e: Env, id: nat): seq<App>
    requires id <= |apps|
  {
    AfterRelease(apps[..id], e) + apps[id..]
  }

  lemma PartwayStep(apps: seq<App>, e: Env, id: nat)
    requires id < |apps| && Partitioned(Partway(apps, e, id), e.eligible)
    ensures Partway(apps, e, id)[id] == apps[id]
    ensures Partway(apps, e, id + 1) == Partway(apps, e, id)[id := e.Released(apps[id])]
    ensures Partitioned(Partway(apps, e, id + 1), e.eligible)
    ensures var spared := e.Spared(apps[id]);
            FreeCpus(Partway(apps, e, id + 1), e.eligible)
            == FreeCpus(Partway(apps, e, id), e.eligible) + if spared.Some? then {spared.value} else {}
  {
    var cur := Partway(apps, e, id);
    assert cur[id] == apps[id];
    assert Partway(apps, e, id + 1) == cur[id := e.Released(apps[id])];
    var spared := e.Spared(apps[id]);
    if spared.Some? {
      ChooseRevocableIsLeast(e, apps[id].owned);
      ReleaseFrees(cur, e.eligible, id, e.Released(apps[id]), spared.value);
    } else {
      assert cur[id := apps[id]] == cur;
    }
  }

  method Store(apps: array<App>, i: nat, app: App)
    requires i < apps.Length
    modifies apps
    ensures apps[..] == old(apps[..])[i := app]
  {
    apps[i] := app;
  }

  /** One application of the release pass. */
  method ReleaseOne(apps: array<App>, e: Env, id: nat, free: set<nat>, changed: set<nat>)
    returns (free': set<nat>, changed': set<nat>)
    requires id < apps.Length
    modifies apps
    ensures apps[..] == old(apps[..])[id := e.Released(old(apps[id]))]
    ensures free' == free + (var s := e.Spared(old(apps[id])); if s.Some? then {s.value} else {})
    ensures changed' == changed + if e.Spared(old(apps[id])).Some? then {id} else {}
  {
    free', changed' := free, changed;
    if e.CanSpare(apps[id]) {
      var cpu := e.ChooseRevocable(apps[id].owned);
      if cpu.Some? {
        Store(apps, id, apps[id].(owned := apps[id].owned - {cpu.value}, lastScale := e.now));
        free' := free + {cpu.value};
        changed' := changed + {id};
      }
    }
  }

  lemma ReleasersStep(apps: seq<App>, e: Env, id: nat)
    requires id < |apps|
    ensures Releasers(apps[..id + 1], e) == Releasers(apps[..id], e) + if e.Spared(apps[id]).Some? then {id} else {}
  {
    WhereNext(Sparing(e), apps, id);
  }

  method ReleasePhase(apps: array<App>, e: Env) returns (free: set<nat>, changed: set<nat>)
    requires Partitioned(apps[..], e.eligible)
    modifies apps
    ensures apps[..] == AfterRelease(old(apps[..]), e)
    ensures free == FreeCpus(apps[..], e.eligible) && changed == Releasers(old(apps[..]), e)
  {
    free, changed := FreeCpus(apps[..], e.eligible), {};
    ghost var start := apps[..];
    assert Partway(start, e, 0) == start;
    var id := 0;
    while id < apps.Length
      invariant 0 <= id <= apps.Length == |start|
      invariant apps[..] == Partway(start, e, id)
      invariant Partitioned(Partway(start, e, id), e.eligible) && free == FreeCpus(Partway(start, e, id), e.eligible)
      invariant changed == Releasers(start[..id], e)
    {
      PartwayStep(start, e, id);
      ReleasersStep(start, e, id);
      assert apps[id] == apps[..][id];
      free, changed := ReleaseOne(apps, e, id, free, changed);
      id := id + 1;
    }
    assert start[..id] == start && Partway(start, e, id) == AfterRelease(start, e);
  }

  lemma WaitingPrefix(ranked: seq<Recipient>, released: set<nat>, j: nat)
    requires j < |ranked|
    ensures Waiting(ranked[..j + 1], released) ==
            if ranked[j].id in released then Waiting(ranked[..j], released) else Waiting(ranked[..j], released) + [ranked[j].id]
  {
    assert ranked[..j + 1][..j] == ranked[..j];
  }

  function Elements(s: seq<nat>): set<nat> { set x | x in s }

  lemma PoolHead(free: set<nat>, f: seq<nat>, n: nat)
    requires n <= |f| && Ascending(free) == f[n..]
    ensures free == {} <==> n == |f|
    ensures free != {} ==> Least(free) == f[n] && Ascending(free - {Least(free)}) == f[n + 1..]
  {
    assert |Ascending(free)| == |free|;
    if free != {} {
      assert f[n..][0] == f[n] && f[n..][1..] == f[n + 1..];
      assert Ascending(free) == [Least(free)] + Ascending(free - {Least(free)});
    }
  }

  /** The deal when `w` have been considered: what is left of the pool, and who has been changed. */
  ghost predicate DealtSoFar(mid: seq<App>, e: Env, w: seq<nat>, f: seq<nat>, now: seq<App>, free: set<nat>, granted: set<nat>) {
    && InRange(w, |mid|)
    && now == Grants(mid, e, w, f)
    && Ascending(free) == f[Min(|w|, |f|)..]
    && granted == Elements(w[..Min(|w|, |f|)])
  }

  lemma InRangeAppend(w: seq<nat>, n: nat, id: nat)
    requires InRange(w, n) && id < n
    ensures InRange(w + [id], n)
  {
  }

  lemma ElementsAt(w: seq<nat>, n: nat, k: nat)
    requires k < n <= |w|
    ensures w[k] in Elements(w[..n])
  {
    assert w[..n][k] == w[k];
  }

  lemma ElementsAppend(w: seq<nat>, id: nat)
    ensures Elements((w + [id])[..|w| + 1]) == Elements(w[..|w|]) + {id}
  {
    assert (w + [id])[..|w| + 1] == w + [id] && w[..|w|] == w;
  }

  lemma GrantsNext(mid: seq<App>, e: Env, w: seq<nat>, f: seq<nat>, id: nat)
    requires id < |mid| && InRange(w, |mid|) && InRange(w + [id], |mid|)
    ensures var now := Grants(mid, e, w, f);
            Grants(mid, e, w + [id], f) == if |w| < |f| then now[id := e.Granted(now[id], f[|w|])] else now
  {
    assert (w + [id])[..|w|] == w;
  }

  lemma DealOne(mid: seq<App>, e: Env, w: seq<nat>, f: seq<nat>, now: seq<App>, free: set<nat>, granted: set<nat>, id: nat)
    requires id < |mid| && free != {} && DealtSoFar(mid, e, w, f, now, free, granted)
    ensures |now| == |mid|
    ensures DealtSoFar(mid, e, w + [id], f, now[id := e.Granted(now[id], Least(free))], free - {Least(free)}, granted + {id})
  {
    DealOnePool(w, f, free);
    InRangeAppend(w, |mid|, id);
    GrantsNext(mid, e, w, f, id);
    DealOneElements(w, f, id);
  }

  lemma DealOnePool(w: seq<nat>, f: seq<nat>, free: set<nat>)
    requires free != {} && Ascending(free) == f[Min(|w|, |f|)..]
    ensures |w| < |f| && Least(free) == f[|w|] && Ascending(free - {Least(free)}) == f[Min(|w| + 1, |f|)..]
  {
    PoolHead(free, f, Min(|w|, |f|));
  }

  lemma DealOneElements(w: seq<nat>, f: seq<nat>, id: nat)
    requires |w| < |f|
    ensures Elements((w + [id])[..Min(|w| + 1, |f|)]) == Elements(w[..Min(|w|, |f|)]) + {id}
  {
    ElementsAppend(w, id);
  }

  lemma DealNone(mid: seq<App>, e: Env, w: seq<nat>, f: seq<nat>, now: seq<App>, free: set<nat>, granted: set<nat>, id: nat)
    requires id < |mid| && free == {} && DealtSoFar(mid, e, w, f, now, free, granted)
    ensures |now| == |mid| && DealtSoFar(mid, e, w + [id], f, now, free, granted)
  {
    PoolHead(free, f, Min(|w|, |f|));
    InRangeAppend(w, |mid|, id);
    GrantsNext(mid, e, w, f, id);
    assert |w| >= |f|;
    assert (w + [id])[..|f|] == w[..|f|];
  }

  /** Who has not been changed when the pool is empty looks as at the start of the round. */
  lemma UnchangedSinceStart(start: seq<App>, e: Env, w: seq<nat>, f: seq<nat>, now: seq<App>, free: set<nat>, granted: set<nat>)
    requires DealtSoFar(AfterRelease(start, e), e, w, f, now, free, granted) && Distinct(w)
    ensures |now| == |start|
    ensures forall i: nat :: i < |start| && i !in Releasers(start, e) && i !in granted ==> now[i] == start[i]
  {
    var mid := AfterRelease(start, e);
    GrantsPointwise(mid, e, w, f);
    forall i: nat | i < |start| && i !in Releasers(start, e) && i !in granted ensures now[i] == start[i] {
      assert mid[i] == start[i];
      if i in w {
        var k :| 0 <= k < |w| && w[k] == i;
      }
    }
  }

  /** One waiting recipient: the least free CPU, or else a CPU handed over by a donor. */
  method ServeOne(
    apps: array<App>, e: Env, id: nat, free: set<nat>, changed: set<nat>,
    ghost start: seq<App>, ghost w: seq<nat>, ghost f: seq<nat>, ghost granted: set<nat>)
    returns (free': set<nat>, changed': set<nat>, ghost granted': set<nat>)
    requires id < |start| && Distinct(w)
    requires DealtSoFar(AfterRelease(start, e), e, w, f, apps[..], free, granted)
    requires changed == Releasers(start, e) + granted
    modifies apps
    ensures DealtSoFar(AfterRelease(start, e), e, w + [id], f, apps[..], free', granted')
    ensures changed' == Releasers(start, e) + granted'
  {
    if free != {} {
      DealOne(AfterRelease(start, e), e, w, f, apps[..], free, granted, id);
    } else {
      DealNone(AfterRelease(start, e), e, w, f, apps[..], free, granted, id);
    }
    free', changed', granted' := free, changed, granted;
    ghost var before := apps[..];
    if free != {} {
      var cpu := Least(free);
      free' := free - {cpu};
      assert apps[id] == before[id];
      Store(apps, id, apps[id].(owned := apps[id].owned + {cpu}, lastScale := e.now));
      changed', granted' := changed + {id}, granted + {id};
    } else {
      var donor := Donor(apps[..], changed, id, e);
      if donor.Some? {
        var cpu := e.Spared(apps[..][donor.value]).value;
        Store(apps, donor.value, apps[donor.value].(owned := apps[donor.value].owned - {cpu}, lastScale := e.now));
        Store(apps, id, apps[id].(owned := apps[id].owned + {cpu}, lastScale := e.now));
        changed' := changed + {donor.value, id};
        // The release pass has already taken from every such donor, so this branch is dead.
        UnchangedSinceStart(start, e, w, f, before, free, granted);
        NoDonorRemains(start, before, changed, id, e);
      }
    }
  }

  lemma DealStarts(mid: seq<App>, e: Env, free: set<nat>)
    ensures DealtSoFar(mid, e, [], Ascending(free), mid, free, {})
  {
    assert Ascending(free)[0..] == Ascending(free);
  }

  /** The next of the ranked recipients has released, or is the next to be served. */
  lemma NextRecipient(
    start: seq<App>, e: Env, j: nat, f: seq<nat>, now: seq<App>, free: set<nat>, granted: set<nat>)
    requires j < |Ranked(AfterRelease(start, e), e)|
    requires DealtSoFar(AfterRelease(start, e), e, Waiting(Ranked(AfterRelease(start, e), e)[..j], Releasers(start, e)), f, now, free, granted)
    ensures var r, released := Ranked(AfterRelease(start, e), e), Releasers(start, e);
            var w, id := Waiting(r[..j], released), r[j].id;
            && id < |start| && Distinct(w)
            && Waiting(r[..j + 1], released) == if id in released + granted then w else w + [id]
  {
    var mid, released := AfterRelease(start, e), Releasers(start, e);
    var r := Ranked(mid, e);
    WaitingPrefix(r, released, j);
    RecipientsPrefix(mid, e, released, j);
    GrantedWereWaiting(mid, e, Waiting(r[..j], released), f, now, free, granted, r[j].id);
  }

  /** The grant pass, in priority order. */
  method GrantPhase(apps: array<App>, e: Env, free: set<nat>, changed: set<nat>, ghost start: seq<App>)
    returns (changed': set<nat>, ghost left: set<nat>, ghost granted: set<nat>)
    requires apps[..] == AfterRelease(start, e) && changed == Releasers(start, e)
    modifies apps
    ensures DealtSoFar(AfterRelease(start, e), e, Served(start, e), Ascending(free), apps[..], left, granted)
    ensures changed' == Releasers(start, e) + granted
  {
    ghost var mid, released, f := AfterRelease(start, e), Releasers(start, e), Ascending(free);
    var recipients := Ranked(apps[..], e);
    var pool := free;
    changed', granted := changed, {};
    DealStarts(mid, e, free);
    var j := 0;
    while j < |recipients|
      invariant 0 <= j <= |recipients| && changed' == released + granted
      invariant DealtSoFar(mid, e, Waiting(recipients[..j], released), f, apps[..], pool, granted)
    {
      var id := recipients[j].id;
      NextRecipient(start, e, j, f, apps[..], pool, granted);
      if id !in changed' {
        pool, changed', granted := ServeOne(apps, e, id, pool, changed', start, Waiting(recipients[..j], released), f, granted);
      }
      j := j + 1;
    }
    assert recipients[..j] == recipients;
    left := pool;
  }

  lemma GrantedWereWaiting(mid: seq<App>, e: Env, w: seq<nat>, f: seq<nat>, now: seq<App>, free: set<nat>, granted: set<nat>, id: nat)
    requires DealtSoFar(mid, e, w, f, now, free, granted) && id !in w
    ensures id !in granted
  {
  }

  /** One control round: a release pass, then a grant pass. */
  method RunDelayRange(apps: array<App>, e: Env) returns (changedAny: bool)
    requires Partitioned(apps[..], e.eligible)
    modifies apps
    ensures apps[..] == Round(old(apps[..]), e)
    ensures !changedAny ==> apps[..] == old(apps[..])
    ensures changedAny ==>
              Releasers(old(apps[..]), e) != {} || (Served(old(apps[..]), e) != [] && Pool(old(apps[..]), e) != [])
  {
    if !e.cfg.delayRange {
      return false;
    }
    ghost var start := apps[..];
    var free, changed := ReleasePhase(apps, e);
    ghost var left, granted;
    changed, left, granted := GrantPhase(apps, e, free, changed, start);
    changedAny := changed != {};
    NothingChanged(start, e, Served(start, e), Pool(start, e), apps[..], left, granted);
  }

  /** Up to a ranked recipient, the waiting ones are distinct and do not include it. */
  lemma RecipientsPrefix(apps: seq<App>, e: Env, released: set<nat>, j: nat)
    requires j < |Ranked(apps, e)|
    ensures Ranked(apps, e)[j].id < |apps|
    ensures var w := Waiting(Ranked(apps, e)[..j], released); Distinct(w) && Ranked(apps, e)[j].id !in w
  {
    RankedLists(apps, e);
    var r := Ranked(apps, e);
    WaitingMembers(r[..j], released);
    assert r[j] in r;
  }

  lemma NothingChanged(start: seq<App>, e: Env, w: seq<nat>, f: seq<nat>, now: seq<App>, free: set<nat>, granted: set<nat>)
    requires DealtSoFar(AfterRelease(start, e), e, w, f, now, free, granted)
    ensures Releasers(start, e) + granted == {} ==> now == start
    ensures granted != {} ==> w != [] && f != []
  {
    if Releasers(start, e) + granted == {} {
      assert |w| == 0 || |f| == 0 by {
        if |w| > 0 && |f| > 0 { ElementsAt(w, Min(|w|, |f|), 0); }
      }
      GrantsOfNothing(AfterRelease(start, e), e, w, f);
      assert forall i :: 0 <= i < |start| ==> AfterRelease(start, e)[i] == start[i];
    }
  }

  lemma {:induction false} GrantsOfNothing(mid: seq<App>, e: Env, w: seq<nat>, f: seq<nat>)
    requires (forall k :: 0 <= k < |w| ==> w[k] < |mid|) && (|w| == 0 || |f| == 0)
    ensures Grants(mid, e, w, f) == mid
  {
    if w != [] {
      GrantsOfNothing(mid, e, w[..|w| - 1], f);
    }
  }
}
