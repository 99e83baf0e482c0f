/** The plan that sends each runnable thread to a CPU of an active domain. */
module ArcasPlan {
  import opened Arithmetic
  import opened Machine
  import opened Ordered
  import opened CpuSelect
  import opened ArcasSpread

  // ----- scanning a ring -----

  function RingAt(n: nat, start: nat, k: nat): nat
    requires n > 0
    ensures RingAt(n, start, k) < n
  {
    (start + k) % n
  }

  /** A full turn of the ring visits every position. */
  lemma RingCovers(n: nat, start: nat, j: nat) returns (k: nat)
    requires j < n
    ensures k < n && RingAt(n, start, k) == j
  {
    var q, r := start / n, start % n;
    assert start == q * n + r;
    if j >= r {
      k := j - r;
      RemainderOf(q, n, j);
    } else {
      k := j + n - r;
      assert (q + 1) * n == q * n + n;
      RemainderOf(q + 1, n, j);
    }
  }

  function ScanSlots(cpus: seq<nat>, cursor: nat, allowed: set<nat>, banned: set<nat>, k: nat): Option<nat>
    decreases |cpus| - k
  {
    if k >= |cpus| then None else
      var c := cpus[RingAt(|cpus|, cursor, k)];
      if c in allowed && c !in banned then Some(c) else ScanSlots(cpus, cursor, allowed, banned, k + 1)
  }

  lemma {:induction false} ScanSkips(cpus: seq<nat>, cursor: nat, allowed: set<nat>, banned: set<nat>, k: nat, j: nat)
    requires k <= j < |cpus|
    ensures ScanSlots(cpus, cursor, allowed, banned, k).None? ==>
              var c := cpus[RingAt(|cpus|, cursor, j)]; c !in allowed || c in banned
    ensures ScanSlots(cpus, cursor, allowed, banned, k).Some? ==>
              var c := ScanSlots(cpus, cursor, allowed, banned, k).value; c in cpus && c in allowed && c !in banned
    decreases |cpus| - k
  {
    if k < j {
      ScanSkips(cpus, cursor, allowed, banned, k + 1, j);
    } else if k + 1 < |cpus| {
      ScanSkips(cpus, cursor, allowed, banned, k + 1, k + 1);
    }
  }

  /** Scanning finds a free allowed slot whenever there is one. */
  lemma ScanFinds(cpus: seq<nat>, cursor: nat, allowed: set<nat>, banned: set<nat>)
    ensures var r := ScanSlots(cpus, cursor, allowed, banned, 0);
            && (r.Some? ==> r.value in cpus && r.value in allowed && r.value !in banned)
            && (r.None? ==> forall c :: c in cpus && c in allowed ==> c in banned)
  {
    var r := ScanSlots(cpus, cursor, allowed, banned, 0);
    if cpus != [] {
      ScanSkips(cpus, cursor, allowed, banned, 0, 0);
    }
    if r.None? {
      forall c | c in cpus && c in allowed ensures c in banned {
        var j: nat :| j < |cpus| && cpus[j] == c;
        var k := RingCovers(|cpus|, cursor, j);
        ScanSkips(cpus, cursor, allowed, banned, 0, k);
      }
    }
  }

  // ----- one thread -----

  datatype Plan = Plan(domains: map<nat, nat>, cpus: map<nat, nat>, cursors: map<nat, nat>, used: set<nat>)

  const EMPTY_PLAN := Plan(map[], map[], map[], {})

  datatype Site = Site(domain: nat, cpu: nat)

  /** One step per thread of the order, from the empty plan. */
  function PlanFold(step: (Plan, nat) -> Plan, order: seq<nat>, k: nat): Plan
    requires k <= |order|
  {
    if k == 0 then EMPTY_PLAN else step(PlanFold(step, order, k - 1), order[k - 1])
  }

  /** What the planner reads: the layout, the active domains, and the load with its ranks. */
  datatype Scene = Scene(topo: Topology, active: seq<nat>, load: Load, rank: map<nat, nat>) {
    function Rank(tid: nat): nat { if tid in rank then rank[tid] else U64_MAX }

    function Allowed(tid: nat): set<nat> { if tid in load then load[tid] else {} }

    function Slots(d: nat): seq<nat> { SlotCpus(topo, d, UnionAllowed(load)) }

    function Cursor(p: Plan, d: nat): nat { if d in p.cursors then p.cursors[d] else 0 }

    /** An unused slot of the domain, or else any allowed one. */
    function PickSlot(p: Plan, d: nat, allowed: set<nat>): Option<nat> {
      ScanSlots(Slots(d), Cursor(p, d), allowed, p.used, 0).Or(ScanSlots(Slots(d), Cursor(p, d), allowed, {}, 0))
    }

    function DomainAt(tid: nat, offset: nat): nat
      requires active != []
    {
      active[RingAt(|active|, Rank(tid) % |active|, offset)]
    }

    /** The first active domain, in turn from the thread's rank, with an allowed slot. */
    function PickSite(p: Plan, tid: nat, offset: nat): Option<Site>
      requires active != []
      decreases |active| - offset
    {
      if offset >= |active| then None else
        var d := DomainAt(tid, offset);
        match PickSlot(p, d, Allowed(tid))
        case Some(c) => Some(Site(d, c))
        case None => PickSite(p, tid, offset + 1)
    }

    /** The lowest allowed CPU outside `banned` that the layout places in an active domain. */
    function SweepSite(cpus: seq<nat>, banned: set<nat>): Option<Site> {
      if cpus == [] then None
      else if cpus[0] !in banned && topo.DomainOf(cpus[0]).Some? && topo.DomainOf(cpus[0]).value in active
      then Some(Site(topo.DomainOf(cpus[0]).value, cpus[0]))
      else SweepSite(cpus[1..], banned)
    }

    function FallbackSite(p: Plan, tid: nat): Option<Site> {
      SweepSite(Ascending(Allowed(tid)), p.used).Or(SweepSite(Ascending(Allowed(tid)), {}))
    }

    function Choose(p: Plan, tid: nat): Option<Site>
      requires active != []
    {
      PickSite(p, tid, 0).Or(FallbackSite(p, tid))
    }

    function Assigned(p: Plan, tid: nat): Plan
      requires active != []
    {
      match Choose(p, tid)
      case None => p
      case Some(s) =>
        var cursors :=
          if PickSite(p, tid, 0).Some? then p.cursors[s.domain := Min(Cursor(p, s.domain) + 1, U64_MAX)] else p.cursors;
        Plan(p.domains[tid := s.domain], p.cpus[tid := s.cpu], cursors, p.used + {s.cpu})
    }

    /** Fewest allowed CPUs first, then lower rank, then lower id. */
    function Leq(): (nat, nat) -> bool {
      (a: nat, b: nat) =>
        if |Allowed(a)| != |Allowed(b)| then |Allowed(a)| < |Allowed(b)|
        else if Rank(a) != Rank(b) then Rank(a) < Rank(b)
        else a <= b
    }

    function Order(): seq<nat> { Sort(Leq(), Ascending(load.Keys)) }

    function Assigner(): (Plan, nat) -> Plan { (p: Plan, tid: nat) => if active == [] then p else Assigned(p, tid) }

    function PlanOver(order: seq<nat>, k: nat): Plan
      requires active != [] && k <= |order|
    {
      PlanFold(Assigner(), order, k)
    }

    function TargetPlan(): Plan {
      if active == [] || load == map[] then EMPTY_PLAN else PlanOver(Order(), |Order()|)
    }

    /** The thread may run on some CPU of some active domain. */
    ghost predicate Reaches(tid: nat) {
      exists d, c :: d in active && Legal(topo, c, d, Allowed(tid))
    }
  }

  lemma OrderIsTotal(s: Scene)
    ensures TotalPreorder(s.Leq())
  {
  }

  /** Every runnable thread is planned once, most constrained first. */
  lemma OrderFacts(s: Scene)
    ensures SortedBy(s.Leq(), s.Order()) && Distinct(s.Order())
    ensures forall t :: t in s.Order() <==> t in s.load
  {
    OrderIsTotal(s);
    SortSorts(s.Leq(), Ascending(s.load.Keys));
    SortMembers(s.Leq(), Ascending(s.load.Keys));
    SortDistinct(s.Leq(), Ascending(s.load.Keys));
  }

  lemma SlotsAreAllowedCpus(s: Scene, tid: nat, d: nat, c: nat)
    requires tid in s.load && c in s.load[tid]
    ensures c in s.Slots(d) <==> c in s.topo.CpusOf(d)
  {
    assert c in UnionAllowed(s.load);
  }

  /** A picked slot is legal, and it is a used one only if every legal slot of the domain is used. */
  lemma PickSlotFacts(s: Scene, p: Plan, tid: nat, d: nat)
    requires s.topo.Consistent() && tid in s.load
    ensures var r := s.PickSlot(p, d, s.load[tid]);
            && (r.Some? <==> exists c :: Legal(s.topo, c, d, s.load[tid]))
            && (r.Some? ==> Legal(s.topo, r.value, d, s.load[tid]))
            && (r.Some? && r.value in p.used ==> forall c :: Legal(s.topo, c, d, s.load[tid]) ==> c in p.used)
  {
    var allowed := s.load[tid];
    ScanFinds(s.Slots(d), s.Cursor(p, d), allowed, p.used);
    ScanFinds(s.Slots(d), s.Cursor(p, d), allowed, {});
    forall c | c in allowed ensures c in s.Slots(d) <==> Legal(s.topo, c, d, allowed) {
      SlotsAreAllowedCpus(s, tid, d, c);
    }
  }

  lemma {:induction false} PickSiteSkips(s: Scene, p: Plan, tid: nat, offset: nat, k: nat)
    requires s.topo.Consistent() && tid in s.load && offset <= k < |s.active|
    ensures s.PickSite(p, tid, offset).None? ==> s.PickSlot(p, s.DomainAt(tid, k), s.load[tid]).None?
    ensures s.PickSite(p, tid, offset).Some? ==>
              var site := s.PickSite(p, tid, offset).value;
              site.domain in s.active && s.PickSlot(p, site.domain, s.load[tid]) == Some(site.cpu)
    decreases |s.active| - offset
  {
    if offset < k {
      PickSiteSkips(s, p, tid, offset + 1, k);
    } else if offset + 1 < |s.active| {
      PickSiteSkips(s, p, tid, offset + 1, offset + 1);
    }
  }

  lemma {:induction false} SweepFinds(s: Scene, cpus: seq<nat>, banned: set<nat>)
    ensures var r := s.SweepSite(cpus, banned);
            r.Some? ==> r.value.cpu in cpus && s.topo.DomainOf(r.value.cpu) == Some(r.value.domain) && r.value.domain in s.active
  {
    if cpus != [] {
      SweepFinds(s, cpus[1..], banned);
    }
  }

  /**
   * The site chosen for a thread: one exists exactly when the thread reaches an active domain, it is
   * legal, and it doubles up only in a domain with nothing left for the thread. On a consistent layout
   * the sweep over all allowed CPUs never adds anything.
   */
  lemma ChooseFacts(s: Scene, p: Plan, tid: nat)
    requires s.topo.Consistent() && tid in s.load && s.active != []
    ensures var r := s.Choose(p, tid);
            && (r.Some? <==> s.Reaches(tid))
            && (r.Some? ==> r.value.domain in s.active && Legal(s.topo, r.value.cpu, r.value.domain, s.load[tid]))
            && (r.Some? && r.value.cpu in p.used ==> forall c :: Legal(s.topo, c, r.value.domain, s.load[tid]) ==> c in p.used)
    ensures s.PickSite(p, tid, 0).None? ==> s.FallbackSite(p, tid).None?
  {
    var site := s.PickSite(p, tid, 0);
    PickSiteSkips(s, p, tid, 0, 0);
    if site.Some? {
      PickSlotFacts(s, p, tid, site.value.domain);
    } else {
      forall d, c | d in s.active && Legal(s.topo, c, d, s.load[tid]) ensures false {
        var j: nat :| j < |s.active| && s.active[j] == d;
        var k := RingCovers(|s.active|, s.Rank(tid) % |s.active|, j);
        PickSiteSkips(s, p, tid, 0, k);
        PickSlotFacts(s, p, tid, d);
      }
      SweepFinds(s, Ascending(s.load[tid]), p.used);
      SweepFinds(s, Ascending(s.load[tid]), {});
      var f := s.FallbackSite(p, tid);
      if f.Some? {
        assert Legal(s.topo, f.value.cpu, f.value.domain, s.load[tid]);
      }
    }
  }

  // ----- the whole plan -----

  /** The CPUs given to the first `j` threads of the order. */
  ghost function TakenBy(order: seq<nat>, cpus: map<nat, nat>, j: nat): set<nat>
    requires j <= |order|
  {
    set i | 0 <= i < j && order[i] in cpus :: cpus[order[i]]
  }

  /** What the plan says about the `j`-th thread of the order. */
  ghost predicate SoundAt(s: Scene, p: Plan, order: seq<nat>, j: nat)
    requires j < |order|
  {
    var t := order[j];
    && (t in p.cpus <==> s.Reaches(t))
    && (t in p.cpus ==>
          && t in p.domains && p.domains[t] in s.active
          && Legal(s.topo, p.cpus[t], p.domains[t], s.Allowed(t))
          && (p.cpus[t] in TakenBy(order, p.cpus, j) ==>
                forall c :: Legal(s.topo, c, p.domains[t], s.Allowed(t)) ==> c in TakenBy(order, p.cpus, j)))
  }

  ghost predicate SoundUpTo(s: Scene, p: Plan, order: seq<nat>, k: nat) {
    && k <= |order|
    && p.domains.Keys == p.cpus.Keys
    && p.cpus.Keys <= s.load.Keys
    && (forall i :: k <= i < |order| ==> order[i] !in p.cpus)
    && p.used == TakenBy(order, p.cpus, k)
    && (forall j :: 0 <= j < k ==> SoundAt(s, p, order, j))
  }

  lemma LaterThreadsKeepSoundness(s: Scene, p: Plan, order: seq<nat>, j: nat, k: nat, d: nat, c: nat)
    requires Distinct(order) && j < k < |order| && SoundAt(s, p, order, j)
    ensures forall p': Plan :: p'.domains == p.domains[order[k] := d] && p'.cpus == p.cpus[order[k] := c] ==> SoundAt(s, p', order, j)
  {
    var m := p.cpus[order[k] := c];
    assert TakenBy(order, m, j) == TakenBy(order, p.cpus, j);
  }

  lemma SkippingKeepsSoundness(s: Scene, p: Plan, order: seq<nat>, k: nat)
    requires k < |order| && SoundUpTo(s, p, order, k) && !s.Reaches(order[k])
    ensures SoundUpTo(s, p, order, k + 1)
  {
    assert TakenBy(order, p.cpus, k + 1) == TakenBy(order, p.cpus, k);
  }

  /** A legal site, shared only when its domain is exhausted, may be added for the next thread. */
  lemma AddingKeepsSoundness(s: Scene, p: Plan, order: seq<nat>, k: nat, d: nat, c: nat, p': Plan)
    requires Distinct(order) && k < |order| && SoundUpTo(s, p, order, k) && order[k] in s.load
    requires d in s.active && Legal(s.topo, c, d, s.Allowed(order[k]))
    requires c in p.used ==> forall x :: Legal(s.topo, x, d, s.Allowed(order[k])) ==> x in p.used
    requires p'.domains == p.domains[order[k] := d] && p'.cpus == p.cpus[order[k] := c] && p'.used == p.used + {c}
    ensures SoundUpTo(s, p', order, k + 1)
  {
    var t := order[k];
    assert TakenBy(order, p'.cpus, k) == TakenBy(order, p.cpus, k);
    assert TakenBy(order, p'.cpus, k + 1) == TakenBy(order, p'.cpus, k) + {c};
    assert s.Reaches(t);
    assert SoundAt(s, p', order, k);
    forall j | 0 <= j < k ensures SoundAt(s, p', order, j) {
      LaterThreadsKeepSoundness(s, p, order, j, k, d, c);
    }
  }

  lemma AssignKeepsSoundness(s: Scene, p: Plan, order: seq<nat>, k: nat)
    requires s.topo.Consistent() && s.active != []
    requires Distinct(order) && k < |order| && order[k] in s.load && SoundUpTo(s, p, order, k)
    ensures SoundUpTo(s, s.Assigned(p, order[k]), order, k + 1)
  {
    var t := order[k];
    ChooseFacts(s, p, t);
    var choice := s.Choose(p, t);
    if choice.None? {
      SkippingKeepsSoundness(s, p, order, k);
    } else {
      AddingKeepsSoundness(s, p, order, k, choice.value.domain, choice.value.cpu, s.Assigned(p, t));
    }
  }

  ghost predicate Lists(order: seq<nat>, load: Load) {
    Distinct(order) && forall i :: 0 <= i < |order| ==> order[i] in load
  }

  /** An invariant of the plan that the next thread of the order keeps. */
  ghost predicate Keeps(step: (Plan, nat) -> Plan, order: seq<nat>, inv: (Plan, nat) -> bool, p: Plan, k: nat)
    requires k < |order|
  {
    inv(p, k) ==> inv(step(p, order[k]), k + 1)
  }

  lemma {:induction false} FoldKeeps(step: (Plan, nat) -> Plan, order: seq<nat>, inv: (Plan, nat) -> bool, k: nat)
    requires k <= |order| && inv(EMPTY_PLAN, 0)
    requires forall p: Plan, j: nat :: j < |order| ==> Keeps(step, order, inv, p, j)
    ensures inv(PlanFold(step, order, k), k)
  {
    if k > 0 {
      FoldKeeps(step, order, inv, k - 1);
      assert Keeps(step, order, inv, PlanFold(step, order, k - 1), k - 1);
    }
  }

  ghost function Soundness(s: Scene, order: seq<nat>): (Plan, nat) -> bool { (p: Plan, k: nat) => SoundUpTo(s, p, order, k) }

  lemma AssignerKeepsSoundness(s: Scene, order: seq<nat>, p: Plan, k: nat)
    requires s.topo.Consistent() && s.active != [] && Lists(order, s.load) && k < |order|
    ensures Keeps(s.Assigner(), order, Soundness(s, order), p, k)
  {
    if SoundUpTo(s, p, order, k) {
      AssignKeepsSoundness(s, p, order, k);
    }
  }

  lemma PlanIsSound(s: Scene, order: seq<nat>)
    requires s.topo.Consistent() && s.active != [] && Lists(order, s.load)
    ensures SoundUpTo(s, s.PlanOver(order, |order|), order, |order|)
  {
    EmptyPlanIsSound(s, order);
    forall p: Plan, k: nat | k < |order| ensures Keeps(s.Assigner(), order, Soundness(s, order), p, k) {
      AssignerKeepsSoundness(s, order, p, k);
    }
    FoldKeeps(s.Assigner(), order, Soundness(s, order), |order|);
  }

  lemma EmptyPlanIsSound(s: Scene, order: seq<nat>)
    ensures SoundUpTo(s, EMPTY_PLAN, order, 0)
  {
  }

  /**
   * The plan has an entry exactly for the runnable threads that reach an active domain; each entry is a
   * CPU the thread may use in its target domain; and a CPU is shared only when every CPU the thread may
   * use there was already given to a thread planned before it.
   */
  lemma TargetPlanIsSound(s: Scene)
    requires s.topo.Consistent()
    ensures var p := s.TargetPlan();
            && p.domains.Keys == p.cpus.Keys
            && (forall t :: t in p.cpus <==> t in s.load && s.Reaches(t))
            && (forall t :: t in p.cpus ==> p.domains[t] in s.active && Legal(s.topo, p.cpus[t], p.domains[t], s.load[t]))
    ensures s.TargetPlan() != EMPTY_PLAN ==> SoundUpTo(s, s.TargetPlan(), s.Order(), |s.Order()|)
  {
    OrderFacts(s);
    if s.active != [] && s.load != map[] {
      var p, order := s.TargetPlan(), s.Order();
      assert forall i :: 0 <= i < |order| ==> order[i] in order;
      PlanIsSound(s, order);
      forall t | t in s.load ensures t in p.cpus <==> s.Reaches(t) {
        assert t in order;
        var j :| 0 <= j < |order| && order[j] == t;
        assert SoundAt(s, p, order, j);
      }
      forall t | t in p.cpus ensures t in s.load && p.domains[t] in s.active && Legal(s.topo, p.cpus[t], p.domains[t], s.load[t]) {
        assert t in order;
        var j :| 0 <= j < |order| && order[j] == t;
        assert SoundAt(s, p, order, j);
      }
    }
  }

  // ----- the planner loops -----

  method FindSlot(s: Scene, p: Plan, d: nat, allowed: set<nat>) returns (slot: Option<nat>)
    ensures slot == s.PickSlot(p, d, allowed)
  {
    var cpus, cursor := s.Slots(d), s.Cursor(p, d);
    slot := None;
    for pass := 0 to 2
      invariant slot == if pass == 0 then None else if pass == 1 then ScanSlots(cpus, cursor, allowed, p.used, 0) else s.PickSlot(p, d, allowed)
    {
      if slot.None? {
        var offset := 0;
        var banned := if pass == 0 then p.used else {};
        while offset < |cpus|
          invariant 0 <= offset <= |cpus| && slot.None?
          invariant ScanSlots(cpus, cursor, allowed, banned, 0) == ScanSlots(cpus, cursor, allowed, banned, offset)
        {
          var cpu := cpus[(cursor + offset) % |cpus|];
          if cpu in allowed && cpu !in banned {
            slot := Some(cpu);
            break;
          }
          offset := offset + 1;
        }
      }
    }
  }

  method FindSite(s: Scene, p: Plan, tid: nat) returns (chosen: Option<Site>, cursors: map<nat, nat>)
    requires s.active != []
    ensures chosen == s.PickSite(p, tid, 0)
    ensures cursors == if chosen.None? then p.cursors
                       else p.cursors[chosen.value.domain := Min(s.Cursor(p, chosen.value.domain) + 1, U64_MAX)]
  {
    var offset := 0;
    while offset < |s.active|
      invariant 0 <= offset <= |s.active|
      invariant s.PickSite(p, tid, 0) == s.PickSite(p, tid, offset)
    {
      var domain := s.DomainAt(tid, offset);
      var slot := FindSlot(s, p, domain, s.Allowed(tid));
      if slot.Some? {
        return Some(Site(domain, slot.value)), p.cursors[domain := Min(s.Cursor(p, domain) + 1, U64_MAX)];
      }
      offset := offset + 1;
    }
    return None, p.cursors;
  }

  method PlanOne(s: Scene, p: Plan, tid: nat) returns (p': Plan)
    requires s.active != []
    ensures p' == s.Assigned(p, tid)
  {
    p' := p;
    var chosen, cursors := FindSite(s, p, tid);
    if chosen.None? {
      chosen := s.FallbackSite(p, tid);
    }
    if chosen.Some? {
      p' := Plan(p.domains[tid := chosen.value.domain], p.cpus[tid := chosen.value.cpu], cursors, p.used + {chosen.value.cpu});
    }
  }

  method BuildTargetPlan(s: Scene) returns (p: Plan)
    ensures p == s.TargetPlan()
  {
    p := EMPTY_PLAN;
    if s.active == [] || |s.load| == 0 {
      return;
    }
    var order := s.Order();
    var i := 0;
    while i < |order|
      invariant 0 <= i <= |order| && p == s.PlanOver(order, i)
    {
      p := PlanOne(s, p, order[i]);
      i := i + 1;
    }
  }
}
