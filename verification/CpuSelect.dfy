/** Choosing a CPU inside a domain. */
module CpuSelect {
  import opened Machine
  import opened Ordered

  // ----- lexicographic keys -----

  predicate LexLess(a: seq<int>, b: seq<int>) {
    b != [] && (a == [] || a[0] < b[0] || (a[0] == b[0] && LexLess(a[1..], b[1..])))
  }

  lemma {:induction false} LexTotal(a: seq<int>, b: seq<int>)
    ensures LexLess(a, b) || a == b || LexLess(b, a)
    ensures !(LexLess(a, b) && LexLess(b, a)) && !LexLess(a, a)
  {
    if a != [] {
      LexTotal(a[1..], if b == [] then [] else b[1..]);
      assert a == [a[0]] + a[1..] && (b != [] ==> b == [b[0]] + b[1..]);
    }
  }

  lemma {:induction false} LexTransitive(a: seq<int>, b: seq<int>, c: seq<int>)
    requires LexLess(a, b) && LexLess(b, c)
    ensures LexLess(a, c)
  {
    if a != [] && a[0] == b[0] == c[0] {
      LexTransitive(a[1..], b[1..], c[1..]);
    }
  }

  function Bit(b: bool): int { if b then 1 else 0 }

  /** `min_by_key`: the first element with the least key. */
  function LeastBy(s: seq<nat>, key: nat -> seq<int>): Option<nat> {
    if s == [] then None else
      var best, last := LeastBy(s[..|s| - 1], key), s[|s| - 1];
      if best.None? || LexLess(key(last), key(best.value)) then Some(last) else best
  }

  lemma {:induction false} LeastByIsLeast(s: seq<nat>, key: nat -> seq<int>)
    ensures LeastBy(s, key).Some? <==> s != []
    ensures LeastBy(s, key).Some? ==>
              LeastBy(s, key).value in s && forall x :: x in s ==> !LexLess(key(x), key(LeastBy(s, key).value))
  {
    if s != [] {
      var init, last := s[..|s| - 1], s[|s| - 1];
      LeastByIsLeast(init, key);
      var best, r := LeastBy(init, key), LeastBy(s, key).value;
      forall x | x in s ensures !LexLess(key(x), key(r)) {
        assert x in init || x == last;
        LexTotal(key(x), key(r));
        LexTotal(key(last), key(last));
        if LexLess(key(x), key(r)) && best.Some? && r == last && x in init {
          LexTransitive(key(x), key(last), key(best.value));
        }
      }
    }
  }

  function Filter(s: seq<nat>, keep: set<nat>): (r: seq<nat>)
    ensures forall x :: x in r <==> x in s && x in keep
    ensures |r| <= |s|
  {
    if s == [] then [] else
      var init := Filter(s[..|s| - 1], keep);
      if s[|s| - 1] in keep then init + [s[|s| - 1]] else init
  }

  // ----- the machine -----

  datatype Topology = Topology(domains: seq<seq<nat>>, cpuToDomain: seq<Option<nat>>) {
    function DomainOf(cpu: nat): Option<nat> { if cpu < |cpuToDomain| then cpuToDomain[cpu] else None }

    function CpusOf(d: nat): seq<nat> { if d < |domains| then domains[d] else [] }

    /** The two views of the layout agree, and no CPU is listed twice. */
    ghost predicate Consistent() {
      && (forall cpu: nat, d: nat :: cpu in CpusOf(d) <==> DomainOf(cpu) == Some(d))
      && (forall d: nat :: Distinct(CpusOf(d)))
    }
  }

  datatype CpuState = CpuState(idle: bool, depth: u32, currentTid: nat)

  /** What is known about each CPU: its state, its utilisation and the jobs planned on it. */
  datatype CpuView = CpuView(states: seq<CpuState>, utils: seq<u32>, planned: seq<seq<nat>>, highUtil: u32) {
    function State(cpu: nat): CpuState { if cpu < |states| then states[cpu] else CpuState(false, 0, 0) }

    function Util(cpu: nat): u32 { if cpu < |utils| then utils[cpu] else 0 }

    function Jobs(cpu: nat): nat { if cpu < |planned| then |planned[cpu]| else 0 }

    predicate Idle(cpu: nat) { State(cpu).idle && State(cpu).depth == 0 && Util(cpu) < highUtil }

    predicate OccupiedByOther(cpu: nat, tid: nat) { State(cpu).currentTid != 0 && State(cpu).currentTid != tid }

    function BusyKey(cpu: nat, tid: nat): seq<int> {
      [Bit(!Idle(cpu)), Bit(OccupiedByOther(cpu, tid)), Jobs(cpu), Util(cpu), State(cpu).depth, cpu]
    }

    function BusyKeys(tid: nat): nat -> seq<int> { (cpu: nat) => BusyKey(cpu, tid) }

    function IdleKey(cpu: nat): seq<int> { [Jobs(cpu), Util(cpu), State(cpu).depth, cpu] }

    function IdleKeys(): nat -> seq<int> { (cpu: nat) => IdleKey(cpu) }

    predicate PlannedAvailable(cpu: nat, tid: nat, allowed: set<nat>) {
      cpu >= |planned| || (forall j :: j in planned[cpu] ==> j == tid)
      || (!(exists c :: c in allowed && c != cpu && Idle(c)) && |planned[cpu]| > 1)
    }

    predicate CurrentAvailable(cpu: nat, tid: nat, allowed: set<nat>) {
      || (cpu < |planned| && |planned[cpu]| > 1 && tid !in planned[cpu])
      || PlannedAvailable(cpu, tid, allowed)
    }

    function ChooseCpu(topo: Topology, d: nat, allowed: set<nat>, tid: nat): Option<nat> {
      LeastBy(Filter(topo.CpusOf(d), allowed), BusyKeys(tid))
    }

    function ChooseIdleCpu(topo: Topology, d: nat, allowed: set<nat>): Option<nat> {
      LeastBy(Filter(topo.CpusOf(d), set c | c in allowed && Idle(c)), IdleKeys())
    }
  }

  function InDomain(topo: Topology, cpus: set<nat>, d: nat): set<nat> {
    set c | c in cpus && topo.DomainOf(c) == Some(d)
  }

  /** The eligible CPUs of the domain among those allowed, or all the allowed ones there if none is eligible. */
  function TargetCpus(topo: Topology, allowed: set<nat>, eligible: set<nat>, d: nat): set<nat> {
    var both := InDomain(topo, allowed * eligible, d);
    if both != {} then both else InDomain(topo, allowed, d)
  }

  /** What the selectors read of the task being placed. */
  datatype TaskView = TaskView(tid: nat, cpu: Option<nat>, domain: Option<nat>, tick: bool)

  function Keep(cpu: Option<nat>, keep: bool): Option<nat> { if keep then cpu else None }

  function CurrentIn(topo: Topology, t: TaskView, d: nat, allowed: set<nat>): Option<nat> {
    if t.cpu.Some? && t.cpu.value in allowed && topo.DomainOf(t.cpu.value) == Some(d) then t.cpu else None
  }

  function CurrentIdleIn(v: CpuView, topo: Topology, t: TaskView, d: nat, allowed: set<nat>): Option<nat> {
    var c := CurrentIn(topo, t, d, allowed);
    Keep(c, c.Some? && v.Idle(c.value))
  }

  function CurrentAcceptableIn(v: CpuView, topo: Topology, t: TaskView, d: nat, allowed: set<nat>): Option<nat> {
    var c := CurrentIn(topo, t, d, allowed);
    Keep(c, c.Some? && !v.OccupiedByOther(c.value, t.tid))
  }

  predicate RebalanceTo(v: CpuView, t: TaskView, candidate: nat) {
    t.cpu.Some? && t.cpu.value != candidate && v.OccupiedByOther(t.cpu.value, t.tid)
  }

  /** Which test decides that the current CPU may be reused. */
  datatype Reuse = AsPlanned | AsCurrent

  predicate Available(v: CpuView, r: Reuse, cpu: nat, tid: nat, allowed: set<nat>) {
    match r
    case AsPlanned => v.PlannedAvailable(cpu, tid, allowed)
    case AsCurrent => v.CurrentAvailable(cpu, tid, allowed)
  }

  function IfAvailable(v: CpuView, r: Reuse, cpu: Option<nat>, tid: nat, allowed: set<nat>): Option<nat> {
    Keep(cpu, cpu.Some? && Available(v, r, cpu.value, tid, allowed))
  }

  /**
   * The preferences that keep the task near where it runs: the current CPU on a pinned tick, the current CPU
   * when idle, an idle sibling of a taken current CPU, the current CPU when acceptable.
   */
  function Nearby(
    v: CpuView, topo: Topology, t: TaskView, d: nat, allowed: set<nat>, eligible: set<nat>, pinned: bool, r: Reuse): Option<nat>
  {
    var both := allowed * eligible;
    var bothIn, allowedIn := InDomain(topo, both, d), InDomain(topo, allowed, d);
    var idle := v.ChooseIdleCpu(topo, d, both).Or(v.ChooseIdleCpu(topo, d, allowed));
    Keep(CurrentIn(topo, t, d, both).Or(CurrentIn(topo, t, d, allowed)), pinned)
    .Or(IfAvailable(v, r, CurrentIdleIn(v, topo, t, d, both), t.tid, bothIn))
    .Or(IfAvailable(v, r, CurrentIdleIn(v, topo, t, d, allowed), t.tid, allowedIn))
    .Or(Keep(idle, idle.Some? && RebalanceTo(v, t, idle.value)))
    .Or(IfAvailable(v, r, CurrentAcceptableIn(v, topo, t, d, both), t.tid, bothIn))
    .Or(IfAvailable(v, r, CurrentAcceptableIn(v, topo, t, d, allowed), t.tid, allowedIn))
  }

  /** A CPU nearby, or else any CPU; each first among the eligible CPUs and then among all allowed ones. */
  function ChooseInDomain(
    v: CpuView, topo: Topology, t: TaskView, d: nat, allowed: set<nat>, eligible: set<nat>, pinned: bool, r: Reuse): Option<nat>
  {
    Nearby(v, topo, t, d, allowed, eligible, pinned, r)
    .Or(v.ChooseCpu(topo, d, allowed * eligible, t.tid))
    .Or(v.ChooseCpu(topo, d, allowed, t.tid))
  }

  const I32_MAX: nat := 0x7FFF_FFFF

  /** A reserved CPU is used only if it is legal, lightly used, not taken, and not promised to others. */
  function PreferredIn(
    v: CpuView, topo: Topology, tid: nat, preferred: Option<nat>, d: nat, allowed: set<nat>, eligible: set<nat>): Option<nat>
  {
    var both := allowed * eligible;
    var t := TaskView(tid, Keep(preferred, preferred.Some? && preferred.value <= I32_MAX), None, false);
    var first, second := CurrentAcceptableIn(v, topo, t, d, both), CurrentAcceptableIn(v, topo, t, d, allowed);
    IfAvailable(v, AsPlanned, Keep(first, first.Some? && v.Util(first.value) < v.highUtil), tid, InDomain(topo, both, d))
    .Or(IfAvailable(v, AsPlanned, Keep(second, second.Some? && v.Util(second.value) < v.highUtil), tid, InDomain(topo, allowed, d)))
  }

  // ----- what the choosers promise -----

  ghost predicate Legal(topo: Topology, cpu: nat, d: nat, allowed: set<nat>) {
    cpu in allowed && topo.DomainOf(cpu) == Some(d) && cpu in topo.CpusOf(d)
  }

  lemma ChooseCpuIsLeast(v: CpuView, topo: Topology, d: nat, allowed: set<nat>, tid: nat)
    requires topo.Consistent()
    ensures var r := v.ChooseCpu(topo, d, allowed, tid);
            && (r.Some? <==> exists c :: Legal(topo, c, d, allowed))
            && (r.Some? ==> Legal(topo, r.value, d, allowed))
            && (r.Some? ==> forall c :: Legal(topo, c, d, allowed) && c != r.value ==>
                                          LexLess(v.BusyKey(r.value, tid), v.BusyKey(c, tid)))
  {
    var s := Filter(topo.CpusOf(d), allowed);
    LeastByIsLeast(s, v.BusyKeys(tid));
    var r := v.ChooseCpu(topo, d, allowed, tid);
    assert s != [] ==> s[0] in s && Legal(topo, s[0], d, allowed);
    if r.Some? {
      forall c | Legal(topo, c, d, allowed) && c != r.value ensures LexLess(v.BusyKey(r.value, tid), v.BusyKey(c, tid)) {
        assert c in s;
        LexTotal(v.BusyKey(c, tid), v.BusyKey(r.value, tid));
        assert v.BusyKey(c, tid)[5] != v.BusyKey(r.value, tid)[5];
      }
    }
  }

  lemma ChooseIdleCpuIsLegal(v: CpuView, topo: Topology, d: nat, allowed: set<nat>)
    requires topo.Consistent()
    ensures var r := v.ChooseIdleCpu(topo, d, allowed);
            r.Some? ==> Legal(topo, r.value, d, allowed) && v.Idle(r.value)
  {
    LeastByIsLeast(Filter(topo.CpusOf(d), set c | c in allowed && v.Idle(c)), v.IdleKeys());
  }

  lemma CurrentIsLegal(v: CpuView, topo: Topology, t: TaskView, d: nat, allowed: set<nat>)
    requires topo.Consistent()
    ensures var c := CurrentIn(topo, t, d, allowed); c.Some? ==> Legal(topo, c.value, d, allowed)
    ensures var c := CurrentIdleIn(v, topo, t, d, allowed); c.Some? ==> Legal(topo, c.value, d, allowed)
    ensures var c := CurrentAcceptableIn(v, topo, t, d, allowed); c.Some? ==> Legal(topo, c.value, d, allowed)
  {
  }

  ghost predicate LegalIfSome(topo: Topology, c: Option<nat>, d: nat, allowed: set<nat>) { c.Some? ==> Legal(topo, c.value, d, allowed) }

  lemma AvailableIsLegal(v: CpuView, topo: Topology, r: Reuse, c: Option<nat>, tid: nat, among: set<nat>, d: nat, both: set<nat>, allowed: set<nat>)
    requires both <= allowed && LegalIfSome(topo, c, d, both)
    ensures LegalIfSome(topo, IfAvailable(v, r, c, tid, among), d, allowed)
  {
  }

  lemma KeptIsLegal(topo: Topology, c: Option<nat>, keep: bool, d: nat, allowed: set<nat>)
    requires LegalIfSome(topo, c, d, allowed)
    ensures LegalIfSome(topo, Keep(c, keep), d, allowed)
  {
  }

  lemma FirstIsLegal(topo: Topology, d: nat, allowed: set<nat>, a: Option<nat>, b: Option<nat>)
    requires LegalIfSome(topo, a, d, allowed) && LegalIfSome(topo, b, d, allowed)
    ensures LegalIfSome(topo, a.Or(b), d, allowed)
  {
  }

  lemma FirstOfSixIsLegal(
    topo: Topology, d: nat, allowed: set<nat>,
    a: Option<nat>, b: Option<nat>, c: Option<nat>, e: Option<nat>, f: Option<nat>, g: Option<nat>)
    requires LegalIfSome(topo, a, d, allowed) && LegalIfSome(topo, b, d, allowed) && LegalIfSome(topo, c, d, allowed)
    requires LegalIfSome(topo, e, d, allowed) && LegalIfSome(topo, f, d, allowed) && LegalIfSome(topo, g, d, allowed)
    ensures LegalIfSome(topo, a.Or(b).Or(c).Or(e).Or(f).Or(g), d, allowed)
  {
    FirstIsLegal(topo, d, allowed, a, b);
  }

  lemma NearbyIsLegal(
    v: CpuView, topo: Topology, t: TaskView, d: nat, allowed: set<nat>, eligible: set<nat>, pinned: bool, r: Reuse)
    requires topo.Consistent()
    ensures LegalIfSome(topo, Nearby(v, topo, t, d, allowed, eligible, pinned, r), d, allowed)
  {
    var both := allowed * eligible;
    var bothIn, allowedIn := InDomain(topo, both, d), InDomain(topo, allowed, d);
    CurrentIsLegal(v, topo, t, d, both);
    CurrentIsLegal(v, topo, t, d, allowed);
    ChooseIdleCpuIsLegal(v, topo, d, both);
    ChooseIdleCpuIsLegal(v, topo, d, allowed);
    var current := CurrentIn(topo, t, d, both).Or(CurrentIn(topo, t, d, allowed));
    var idle := v.ChooseIdleCpu(topo, d, both).Or(v.ChooseIdleCpu(topo, d, allowed));
    var idleBoth, idleAllowed := CurrentIdleIn(v, topo, t, d, both), CurrentIdleIn(v, topo, t, d, allowed);
    var fineBoth, fineAllowed := CurrentAcceptableIn(v, topo, t, d, both), CurrentAcceptableIn(v, topo, t, d, allowed);
    FirstIsLegal(topo, d, allowed, CurrentIn(topo, t, d, both), CurrentIn(topo, t, d, allowed));
    FirstIsLegal(topo, d, allowed, v.ChooseIdleCpu(topo, d, both), v.ChooseIdleCpu(topo, d, allowed));
    KeptIsLegal(topo, current, pinned, d, allowed);
    KeptIsLegal(topo, idle, idle.Some? && RebalanceTo(v, t, idle.value), d, allowed);
    AvailableIsLegal(v, topo, r, idleBoth, t.tid, bothIn, d, both, allowed);
    AvailableIsLegal(v, topo, r, idleAllowed, t.tid, allowedIn, d, allowed, allowed);
    AvailableIsLegal(v, topo, r, fineBoth, t.tid, bothIn, d, both, allowed);
    AvailableIsLegal(v, topo, r, fineAllowed, t.tid, allowedIn, d, allowed, allowed);
    FirstOfSixIsLegal(
      topo, d, allowed, Keep(current, pinned), IfAvailable(v, r, idleBoth, t.tid, bothIn), IfAvailable(v, r, idleAllowed, t.tid, allowedIn),
      Keep(idle, idle.Some? && RebalanceTo(v, t, idle.value)), IfAvailable(v, r, fineBoth, t.tid, bothIn),
      IfAvailable(v, r, fineAllowed, t.tid, allowedIn));
  }

  /** Every preference names a legal CPU of the domain, and some CPU is named whenever a legal one exists. */
  lemma ChooseInDomainIsLegal(
    v: CpuView, topo: Topology, t: TaskView, d: nat, allowed: set<nat>, eligible: set<nat>, pinned: bool, r: Reuse)
    requires topo.Consistent()
    ensures var c := ChooseInDomain(v, topo, t, d, allowed, eligible, pinned, r);
            && (c.Some? ==> Legal(topo, c.value, d, allowed))
            && (c.Some? <==> exists x :: Legal(topo, x, d, allowed))
  {
    NearbyIsLegal(v, topo, t, d, allowed, eligible, pinned, r);
    SomeCpuIsLegal(v, topo, d, allowed * eligible, t.tid);
    SomeCpuIsLegal(v, topo, d, allowed, t.tid);
  }

  lemma SomeCpuIsLegal(v: CpuView, topo: Topology, d: nat, allowed: set<nat>, tid: nat)
    requires topo.Consistent()
    ensures var r := v.ChooseCpu(topo, d, allowed, tid);
            (r.Some? ==> Legal(topo, r.value, d, allowed)) && (r.Some? <==> exists c :: Legal(topo, c, d, allowed))
  {
    ChooseCpuIsLeast(v, topo, d, allowed, tid);
  }

  lemma PreferredIsLegal(
    v: CpuView, topo: Topology, tid: nat, preferred: Option<nat>, d: nat, allowed: set<nat>, eligible: set<nat>)
    requires topo.Consistent()
    ensures var c := PreferredIn(v, topo, tid, preferred, d, allowed, eligible);
            c.Some? ==> c == preferred && Legal(topo, c.value, d, allowed)
  {
  }
}
