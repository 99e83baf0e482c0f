/** The spread controller: ranks, spread adjustment, and when the targets are recomputed. */
module ArcasControl {
  import opened Machine
  import opened Ordered
  import opened CpuSelect
  import opened ArcasSpread
  import opened ArcasSelect
  import opened ArcasPlan

  datatype ArcasConfig = ArcasConfig(intervalMs: u64, fillThreshold: u32, minDomains: nat, maxDomains: nat, step: nat)

  function EffectiveMax(cfg: ArcasConfig, eligible: nat): nat {
    Min(Max(if cfg.maxDomains == 0 then eligible else cfg.maxDomains, 1), Max(eligible, 1))
  }

  function Clamp(spread: nat, cfg: ArcasConfig, eligible: nat): nat {
    if eligible == 0 then 0 else
      var high := EffectiveMax(cfg, eligible);
      var low := Min(Max(cfg.minDomains, 1), high);
      Min(Max(spread, low), high)
  }

  /** The near-cache fill of a thread: smoothed and last value. */
  datatype Fill = Fill(ewma: u32, last: u32)

  function RemoteFill(fills: map<nat, Fill>, tids: seq<nat>): u64 {
    if tids == [] then 0 else
      var init, t := RemoteFill(fills, tids[..|tids| - 1]), tids[|tids| - 1];
      if t in fills then SatAdd64(init, Max(fills[t].ewma, fills[t].last)) else init
  }

  /** The least spread this round may use, from the spread it starts with. */
  function Required(spread: nat, floor: nat, cfg: ArcasConfig, eligible: nat): nat {
    Clamp(Max(Max(spread, floor), Max(cfg.minDomains, 1)), cfg, eligible)
  }

  /** A new controller starts from its floor. */
  function Started(spread: nat, floor: nat, cfg: ArcasConfig, eligible: nat): nat {
    if spread == 0 then Clamp(Max(Max(cfg.minDomains, floor), 1), cfg, eligible) else spread
  }

  /** Grow under remote fill, shrink without it, and never plan for less than the floor. */
  function Stepped(spread: nat, floor: nat, remote: bool, cfg: ArcasConfig, eligible: nat): nat {
    var next := if remote then Min(spread + cfg.step, U64_MAX) else SatSub(spread, cfg.step);
    Clamp(Max(next, floor), cfg, eligible)
  }

  function NextSpread(spread: nat, floor: nat, remote: bool, steps: bool, cfg: ArcasConfig, eligible: nat): nat {
    var required := Required(Started(spread, floor, cfg, eligible), floor, cfg, eligible);
    if steps then Stepped(required, floor, remote, cfg, eligible) else required
  }

  /** The spread is always in range, and covers the floor as far as the configured maximum allows. */
  lemma NextSpreadIsSafe(spread: nat, floor: nat, remote: bool, steps: bool, cfg: ArcasConfig, eligible: nat)
    requires eligible > 0
    ensures var next := NextSpread(spread, floor, remote, steps, cfg, eligible);
            && Clamp(next, cfg, eligible) == next
            && next >= Min(floor, EffectiveMax(cfg, eligible))
            && 1 <= next <= eligible
  {
  }

  /** Ranks number the runnable threads: distinct, and below the counter, until the counter saturates. */
  ghost predicate RanksOk(rank: map<nat, nat>, next: nat) {
    next < U64_MAX ==>
      && (forall t :: t in rank ==> rank[t] < next)
      && (forall t, u :: t in rank && u in rank && t != u ==> rank[t] != rank[u])
  }

  function Retain(m: map<nat, nat>, keep: set<nat>): map<nat, nat> { map t | t in m && t in keep :: m[t] }

  datatype Ranks = Ranks(rank: map<nat, nat>, next: nat)

  /** Newcomers are numbered in the order of their ids. */
  function Numbered(r: Ranks, tids: seq<nat>): Ranks {
    if tids == [] then r else
      var p, t := Numbered(r, tids[..|tids| - 1]), tids[|tids| - 1];
      if t in p.rank then p else Ranks(p.rank[t := p.next], Min(p.next + 1, U64_MAX))
  }

  /** Numbering keeps every rank in use, ranks exactly the given threads, and never reuses a rank. */
  lemma {:induction false} NumberedKeepsRanks(r: Ranks, tids: seq<nat>)
    requires RanksOk(r.rank, r.next)
    ensures var n := Numbered(r, tids);
            && RanksOk(n.rank, n.next) && n.next >= Min(r.next, U64_MAX)
            && (forall t :: t in n.rank <==> t in r.rank || t in tids)
            && (forall t :: t in r.rank ==> n.rank[t] == r.rank[t])
  {
    if tids != [] {
      NumberedKeepsRanks(r, tids[..|tids| - 1]);
    }
  }

  lemma RetainedRanksOk(rank: map<nat, nat>, next: nat, keep: set<nat>)
    requires RanksOk(rank, next)
    ensures RanksOk(Retain(rank, keep), next)
  {
  }

  /** Forgetting the absent threads and ranking the new ones. */
  function Reranked(r: Ranks, tids: set<nat>): Ranks { Numbered(Ranks(Retain(r.rank, tids), r.next), Ascending(tids)) }

  lemma RerankedFacts(r: Ranks, tids: set<nat>)
    requires RanksOk(r.rank, r.next)
    ensures var n := Reranked(r, tids);
            && RanksOk(n.rank, n.next) && n.rank.Keys == tids
            && (forall t :: t in tids && t in r.rank ==> n.rank[t] == r.rank[t])
  {
    RetainedRanksOk(r.rank, r.next, tids);
    NumberedKeepsRanks(Ranks(Retain(r.rank, tids), r.next), Ascending(tids));
  }

  /** One round of inputs; the eligible domains are listed in ascending order. */
  datatype Input = Input(topo: Topology, eligible: seq<nat>, load: Load, fills: map<nat, Fill>, now: u64, cfg: ArcasConfig) {
    ghost predicate Valid() { topo.Consistent() && Distinct(eligible) && |load| <= U64_MAX }

    function Remote(): bool { RemoteFill(fills, Ascending(load.Keys)) >= cfg.fillThreshold }

    function Ready(last: u64): bool {
      last == 0 || SatSub(now, last) >= SatMul64(cfg.intervalMs, 1_000_000)
    }

    ghost predicate Floor(floor: nat) { IsFloor(ArcasSpread.Ranked(topo, load, eligible), |load|, |eligible|, floor) }

    /** The spread is stepped only when the interval has passed and something is runnable. */
    predicate Steps(last: u64) { Ready(last) && |load| > 0 }

    function Next(spread: nat, floor: nat, last: u64): nat {
      NextSpread(spread, floor, Remote(), Steps(last), cfg, |eligible|)
    }

    /** The spread changes on the way: before any step, or by one. */
    predicate Changes(spread: nat, floor: nat, last: u64) {
      var started := Started(spread, floor, cfg, |eligible|);
      var required := Required(started, floor, cfg, |eligible|);
      required != started || (Steps(last) && Next(spread, floor, last) != required)
    }

    /** The spread must change before any step, or there was none. */
    predicate MustMove(spread: nat, floor: nat) {
      var started := Started(spread, floor, cfg, |eligible|);
      spread == 0 || Required(started, floor, cfg, |eligible|) != started
    }
  }

  /** Some thread with a rank or a target is no longer runnable. */
  predicate Prunes(ranks: Ranks, domains: map<nat, nat>, cpus: map<nat, nat>, tids: set<nat>) {
    !(ranks.rank.Keys <= tids && domains.Keys <= tids && cpus.Keys <= tids)
  }

  /** The targets must be recomputed when nothing is active or planned, or a thread has gone. */
  predicate Outdated(active: seq<nat>, ranks: Ranks, domains: map<nat, nat>, cpus: map<nat, nat>, tids: set<nat>) {
    active == [] || Retain(domains, tids) == map[] || Retain(cpus, tids) == map[] || Prunes(ranks, domains, cpus, tids)
  }

  /** Drops the absent keys; a shorter map is the sign that something was dropped. */
  method RetainOnly(m: map<nat, nat>, keep: set<nat>) returns (r: map<nat, nat>, lost: bool)
    ensures r == Retain(m, keep)
    ensures lost <==> !(m.Keys <= keep)
    ensures !lost ==> r == m
  {
    r := Retain(m, keep);
    lost := |r| != |m|;
    RetainSize(m, keep);
  }

  method NumberAll(start: Ranks, order: seq<nat>) returns (r: Ranks)
    ensures r == Numbered(start, order)
  {
    r := start;
    var i := 0;
    while i < |order|
      invariant 0 <= i <= |order| && r == Numbered(start, order[..i])
    {
      assert order[..i + 1][..i] == order[..i];
      if order[i] !in r.rank {
        r := Ranks(r.rank[order[i] := r.next], Min(r.next + 1, U64_MAX));
      }
      i := i + 1;
    }
    assert order[..i] == order;
  }

  class ArcasController {
    var spread: nat
    var lastAdjust: u64
    var active: seq<nat>
    var targetDomain: map<nat, nat>
    var targetCpu: map<nat, nat>
    var ranks: Ranks

    ghost predicate Valid()
      reads this
    {
      RanksOk(ranks.rank, ranks.next)
    }

    constructor (eligible: seq<nat>, cfg: ArcasConfig)
      ensures Valid() && targetDomain == map[] && targetCpu == map[] && ranks == Ranks(map[], 0) && lastAdjust == 0
      ensures spread == Clamp(Max(cfg.minDomains, 1), cfg, |eligible|) <= |eligible| && active == eligible[..spread]
    {
      var n := Clamp(Max(cfg.minDomains, 1), cfg, |eligible|);
      spread, lastAdjust, active := n, 0, eligible[..n];
      targetDomain, targetCpu, ranks := map[], map[], Ranks(map[], 0);
    }

    method Reconcile(tids: set<nat>) returns (pruned: bool)
      requires Valid()
      modifies this`ranks, this`targetDomain, this`targetCpu
      ensures ranks == Reranked(old(ranks), tids)
      ensures targetDomain == Retain(old(targetDomain), tids) && targetCpu == Retain(old(targetCpu), tids)
      ensures pruned <==> Prunes(old(ranks), old(targetDomain), old(targetCpu), tids)
      ensures !pruned ==> targetDomain == old(targetDomain) && targetCpu == old(targetCpu)
    {
      var rank, lostRank := RetainOnly(ranks.rank, tids);
      var domains, lostDomain := RetainOnly(targetDomain, tids);
      var cpus, lostCpu := RetainOnly(targetCpu, tids);
      pruned := lostRank || lostDomain || lostCpu;
      targetDomain, targetCpu := domains, cpus;
      ranks := NumberAll(Ranks(rank, ranks.next), Ascending(tids));
    }

    /**
     * One controller round. Whenever the targets are recomputed, the active domains are the selection
     * for the new spread and the targets are the plan on them.
     */
    method MaybeRebalance(input: Input) returns (adjusted: bool, ghost floor: nat, ghost refreshed: bool)
      requires Valid() && input.Valid()
      modifies this
      ensures Valid()
      ensures input.eligible == [] ==>
                !adjusted && spread == 0 && active == [] && targetDomain == map[] && targetCpu == map[] && ranks.rank == map[]
      ensures input.eligible != [] ==>
                && input.Floor(floor) && ranks == Reranked(old(ranks), input.load.Keys)
                && spread == input.Next(old(spread), floor, old(lastAdjust))
                && lastAdjust == (if input.Ready(old(lastAdjust)) then input.now else old(lastAdjust))
                && (adjusted <==> input.Changes(old(spread), floor, old(lastAdjust)))
                && (refreshed <==> Outdated(old(active), old(ranks), old(targetDomain), old(targetCpu), input.load.Keys)
                                   || input.MustMove(old(spread), floor) || input.Ready(old(lastAdjust)))
                && (refreshed ==> OnTarget(input))
                && (!refreshed ==> active == old(active) && targetDomain == old(targetDomain) && targetCpu == old(targetCpu))
    {
      floor, refreshed := 0, false;
      if input.eligible == [] {
        spread, active, targetDomain, targetCpu := 0, [], map[], map[];
        ranks := Ranks(map[], ranks.next);
        return false, floor, refreshed;
      }
      RerankedFacts(ranks, input.load.Keys);
      var pruned := Reconcile(input.load.Keys);
      var least := MinDomainsForRunnableLoad(input.topo, input.eligible, input.load);
      floor := least;
      adjusted, refreshed := Rebalance(input, pruned, least);
    }

    /** The round once the ranks are up to date. */
    method Rebalance(input: Input, pruned: bool, floor: nat) returns (adjusted: bool, refreshed: bool)
      requires input.eligible != []
      modifies this`spread, this`lastAdjust, this`active, this`targetDomain, this`targetCpu
      ensures spread == input.Next(old(spread), floor, old(lastAdjust))
      ensures lastAdjust == if input.Ready(old(lastAdjust)) then input.now else old(lastAdjust)
      ensures adjusted <==> input.Changes(old(spread), floor, old(lastAdjust))
      ensures refreshed <==> old(active) == [] || old(targetDomain) == map[] || old(targetCpu) == map[] || pruned
                             || input.MustMove(old(spread), floor) || input.Ready(old(lastAdjust))
      ensures if refreshed then OnTarget(input)
              else active == old(active) && targetDomain == old(targetDomain) && targetCpu == old(targetCpu)
    {
      var refresh := active == [] || |targetDomain| == 0 || |targetCpu| == 0 || pruned;
      var moved;
      adjusted, moved := Adjust(input, floor);
      refreshed := refresh || moved;
      if refreshed {
        Retarget(input);
      }
    }

    /** The active domains are the selection for the spread, and the targets the plan on them. */
    ghost predicate OnTarget(input: Input)
      reads this
    {
      && active == Selected(input.topo, input.eligible, input.load, spread)
      && var p := Scene(input.topo, active, input.load, ranks.rank).TargetPlan();
         targetDomain == p.domains && targetCpu == p.cpus
    }

    /** Bring the spread up to what this round requires. */
    method Require(input: Input, floor: nat) returns (adjusted: bool, moved: bool)
      modifies this`spread
      ensures spread == Required(Started(old(spread), floor, input.cfg, |input.eligible|), floor, input.cfg, |input.eligible|)
      ensures adjusted <==> spread != Started(old(spread), floor, input.cfg, |input.eligible|)
      ensures moved <==> input.MustMove(old(spread), floor)
    {
      var n, cfg := |input.eligible|, input.cfg;
      adjusted, moved := false, false;
      if spread == 0 {
        spread := Clamp(Max(Max(cfg.minDomains, floor), 1), cfg, n);
        moved := true;
      }
      var required := Clamp(Max(Max(spread, floor), Max(cfg.minDomains, 1)), cfg, n);
      if required != spread {
        spread, adjusted, moved := required, true, true;
      }
    }

    /** Move the spread; says whether it changed on the way, and whether the targets must follow. */
    method Adjust(input: Input, floor: nat) returns (adjusted: bool, moved: bool)
      requires input.eligible != []
      modifies this`spread, this`lastAdjust
      ensures Clamp(spread, input.cfg, |input.eligible|) == spread
      ensures spread == input.Next(old(spread), floor, old(lastAdjust))
      ensures lastAdjust == if input.Ready(old(lastAdjust)) then input.now else old(lastAdjust)
      ensures adjusted <==> input.Changes(old(spread), floor, old(lastAdjust))
      ensures moved <==> input.MustMove(old(spread), floor) || input.Ready(old(lastAdjust))
    {
      var n, cfg := |input.eligible|, input.cfg;
      NextSpreadIsSafe(spread, floor, input.Remote(), input.Steps(lastAdjust), cfg, n);
      adjusted, moved := Require(input, floor);
      if input.Ready(lastAdjust) {
        if |input.load| > 0 {
          var next := if input.Remote() then Min(spread + cfg.step, U64_MAX) else SatSub(spread, cfg.step);
          next := Clamp(Max(next, floor), cfg, n);
          adjusted := adjusted || next != spread;
          spread := next;
        }
        lastAdjust := input.now;
        moved := true;
      }
    }

    /** Recompute the active domains and the plan on them. */
    method Retarget(input: Input)
      requires Clamp(spread, input.cfg, |input.eligible|) == spread
      modifies this`active, this`targetDomain, this`targetCpu
      ensures OnTarget(input)
    {
      active := SelectActiveDomains(input.topo, input.eligible, input.load, Clamp(spread, input.cfg, |input.eligible|));
      var plan := BuildTargetPlan(Scene(input.topo, active, input.load, ranks.rank));
      targetDomain, targetCpu := plan.domains, plan.cpus;
    }
  }

  lemma RetainSize(m: map<nat, nat>, keep: set<nat>)
    ensures |Retain(m, keep)| == |m| ==> Retain(m, keep) == m
    ensures Retain(m, keep) == m <==> m.Keys <= keep
  {
    var r := Retain(m, keep);
    assert r.Keys <= m.Keys && |r.Keys| == |r| && |m.Keys| == |m|;
    if |r| == |m| {
      SameSizeSubset(r.Keys, m.Keys);
    }
  }

  lemma SameSizeSubset(a: set<nat>, b: set<nat>)
    requires a <= b && |a| == |b|
    ensures a == b
  {
    assert b == a + (b - a);
    assert |b - a| == 0;
  }

  /**
   * The point of the controller: targets recomputed under a sufficient configured maximum, with enough
   * slots in all the eligible domains, leave a slot per runnable thread in the active ones.
   */
  lemma RecomputedTargetsCover(input: Input, spread: nat, floor: nat, last: u64)
    requires input.Valid() && input.eligible != [] && input.Floor(floor)
    requires Slots(input.topo, input.load, input.eligible) >= |input.load|
    requires EffectiveMax(input.cfg, |input.eligible|) >= floor
    ensures var active := Selected(input.topo, input.eligible, input.load, input.Next(spread, floor, last));
            Slots(input.topo, input.load, active) >= |input.load| && Distinct(active) && forall d :: d in active ==> d in input.eligible
  {
    var next := input.Next(spread, floor, last);
    NextSpreadIsSafe(spread, floor, input.Remote(), input.Steps(last), input.cfg, |input.eligible|);
    SelectionCovers(input.topo, input.eligible, input.load, next, floor);
    SelectionSize(input.topo, input.eligible, input.load, next);
  }
}
