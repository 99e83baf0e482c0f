/** What the order of CPUs means, and when a task keeps the CPU it is on. */
module CpuLaw {
  import opened Machine
  import opened Ordered
  import opened CpuSelect

  lemma LexFirst(x: seq<int>, y: seq<int>)
    requires x != [] && y != []
    ensures LexLess(x, y) <==> x[0] < y[0] || (x[0] == y[0] && LexLess(x[1..], y[1..]))
  {
  }

  lemma LexFour(x: seq<int>, y: seq<int>)
    requires |x| == |y| == 4
    ensures LexLess(x, y) <==>
            if x[0] != y[0] then x[0] < y[0] else if x[1] != y[1] then x[1] < y[1]
            else if x[2] != y[2] then x[2] < y[2] else x[3] < y[3]
  {
    LexFirst(x, y);
    LexFirst(x[1..], y[1..]);
    LexFirst(x[1..][1..], y[1..][1..]);
    LexFirst(x[1..][1..][1..], y[1..][1..][1..]);
  }

  lemma LexSix(x: seq<int>, y: seq<int>)
    requires |x| == |y| == 6
    ensures LexLess(x, y) <==>
            if x[0] != y[0] then x[0] < y[0] else if x[1] != y[1] then x[1] < y[1] else LexLess(x[2..], y[2..])
  {
    LexFirst(x, y);
    LexFirst(x[1..], y[1..]);
    assert x[1..][1..] == x[2..] && y[1..][1..] == y[2..];
  }

  /** The less loaded of two CPUs: fewer planned jobs, then less used, then a shorter queue, then the lower id. */
  ghost predicate LessLoaded(v: CpuView, a: nat, b: nat) {
    if v.Jobs(a) != v.Jobs(b) then v.Jobs(a) < v.Jobs(b)
    else if v.Util(a) != v.Util(b) then v.Util(a) < v.Util(b)
    else if v.State(a).depth != v.State(b).depth then v.State(a).depth < v.State(b).depth
    else a < b
  }

  /** An idle CPU before a busy one, then one that no other thread runs on, then the less loaded one. */
  ghost predicate BetterOff(v: CpuView, tid: nat, a: nat, b: nat) {
    if v.Idle(a) != v.Idle(b) then v.Idle(a)
    else if v.OccupiedByOther(a, tid) != v.OccupiedByOther(b, tid) then v.OccupiedByOther(b, tid)
    else LessLoaded(v, a, b)
  }

  lemma IdleKeyIsLoad(v: CpuView, a: nat, b: nat)
    ensures LexLess(v.IdleKey(a), v.IdleKey(b)) <==> LessLoaded(v, a, b)
  {
    LexFour(v.IdleKey(a), v.IdleKey(b));
  }

  lemma BusyKeyIsBetterOff(v: CpuView, tid: nat, a: nat, b: nat)
    ensures LexLess(v.BusyKey(a, tid), v.BusyKey(b, tid)) <==> BetterOff(v, tid, a, b)
  {
    LexSix(v.BusyKey(a, tid), v.BusyKey(b, tid));
    assert v.BusyKey(a, tid)[2..] == v.IdleKey(a) && v.BusyKey(b, tid)[2..] == v.IdleKey(b);
    IdleKeyIsLoad(v, a, b);
  }

  /** The CPU chosen in a domain is better off than every other one the task may use there; so an idle one is never passed over. */
  lemma ChosenIsBestOff(v: CpuView, topo: Topology, d: nat, allowed: set<nat>, tid: nat, c: nat)
    requires topo.Consistent() && Legal(topo, c, d, allowed)
    ensures var r := v.ChooseCpu(topo, d, allowed, tid);
            && r.Some? && Legal(topo, r.value, d, allowed) && (c != r.value ==> BetterOff(v, tid, r.value, c))
            && (v.Idle(c) ==> v.Idle(r.value))
  {
    ChooseCpuIsLeast(v, topo, d, allowed, tid);
    BusyKeyIsBetterOff(v, tid, v.ChooseCpu(topo, d, allowed, tid).value, c);
  }

  /** The idle CPU chosen is the least loaded of the idle ones, and there is one exactly when one is idle. */
  lemma ChosenIdleIsLeastLoaded(v: CpuView, topo: Topology, d: nat, allowed: set<nat>, c: nat)
    requires topo.Consistent() && Legal(topo, c, d, allowed) && v.Idle(c)
    ensures var r := v.ChooseIdleCpu(topo, d, allowed);
            r.Some? && Legal(topo, r.value, d, allowed) && v.Idle(r.value) && (c != r.value ==> LessLoaded(v, r.value, c))
  {
    var s := Filter(topo.CpusOf(d), set x | x in allowed && v.Idle(x));
    assert c in s;
    LeastByIsLeast(s, v.IdleKeys());
    ChooseIdleCpuIsLegal(v, topo, d, allowed);
    var r := v.ChooseIdleCpu(topo, d, allowed).value;
    assert !LexLess(v.IdleKeys()(c), v.IdleKeys()(r));
    IdleKeyIsLoad(v, c, r);
  }

  // ----- keeping the current CPU -----

  /** No thread but this one is planned on the CPU. */
  ghost predicate Unpromised(v: CpuView, cpu: nat, tid: nat) { cpu < |v.planned| ==> forall j :: j in v.planned[cpu] ==> j == tid }

  /** Exactly one thread is planned on the CPU, and it is another one. */
  ghost predicate PromisedAway(v: CpuView, cpu: nat, tid: nat) { cpu < |v.planned| && |v.planned[cpu]| == 1 && v.planned[cpu][0] != tid }

  lemma PromisesAreKept(v: CpuView, r: Reuse, cpu: nat, tid: nat, among: set<nat>)
    ensures Unpromised(v, cpu, tid) ==> Available(v, r, cpu, tid, among)
    ensures PromisedAway(v, cpu, tid) ==> !Available(v, r, cpu, tid, among)
  {
    if PromisedAway(v, cpu, tid) {
      assert v.planned[cpu][0] in v.planned[cpu];
    }
  }

  /** A pinned task keeps the CPU it is on, if it may use it there. */
  lemma PinnedStays(v: CpuView, topo: Topology, t: TaskView, d: nat, allowed: set<nat>, eligible: set<nat>, r: Reuse)
    requires topo.Consistent() && t.cpu.Some? && Legal(topo, t.cpu.value, d, allowed)
    ensures ChooseInDomain(v, topo, t, d, allowed, eligible, true, r) == t.cpu
  {
  }

  /** So does a task on an idle CPU that is not promised to others. */
  lemma IdleStays(v: CpuView, topo: Topology, t: TaskView, d: nat, allowed: set<nat>, eligible: set<nat>, pinned: bool, r: Reuse)
    requires topo.Consistent() && t.cpu.Some? && Legal(topo, t.cpu.value, d, allowed)
    requires v.Idle(t.cpu.value) && Unpromised(v, t.cpu.value, t.tid)
    ensures ChooseInDomain(v, topo, t, d, allowed, eligible, pinned, r) == t.cpu
  {
    PromisesAreKept(v, r, t.cpu.value, t.tid, InDomain(topo, allowed * eligible, d));
    PromisesAreKept(v, r, t.cpu.value, t.tid, InDomain(topo, allowed, d));
  }

  /** A task whose CPU another thread has taken goes to an idle one of the domain, if there is one. */
  lemma TakenMovesToIdle(v: CpuView, topo: Topology, t: TaskView, d: nat, allowed: set<nat>, eligible: set<nat>, r: Reuse, c: nat)
    requires topo.Consistent() && t.cpu.Some? && v.OccupiedByOther(t.cpu.value, t.tid) && !v.Idle(t.cpu.value)
    requires Legal(topo, c, d, allowed) && v.Idle(c)
    ensures var x := ChooseInDomain(v, topo, t, d, allowed, eligible, false, r);
            x.Some? && Legal(topo, x.value, d, allowed) && v.Idle(x.value)
  {
    ChosenIdleIsLeastLoaded(v, topo, d, allowed, c);
    ChooseIdleCpuIsLegal(v, topo, d, allowed * eligible);
  }

  /** A reserved CPU is used when it is legal, lightly used, not taken and not promised to others; never when it is promised away. */
  lemma ReservedIsUsed(v: CpuView, topo: Topology, tid: nat, cpu: nat, d: nat, allowed: set<nat>, eligible: set<nat>)
    requires topo.Consistent() && cpu <= I32_MAX
    ensures Legal(topo, cpu, d, allowed) && v.Util(cpu) < v.highUtil && !v.OccupiedByOther(cpu, tid) && Unpromised(v, cpu, tid) ==>
              PreferredIn(v, topo, tid, Some(cpu), d, allowed, eligible) == Some(cpu)
    ensures PreferredIn(v, topo, tid, Some(cpu), d, allowed, eligible).Some? ==>
              Legal(topo, cpu, d, allowed) && v.Util(cpu) < v.highUtil && !v.OccupiedByOther(cpu, tid) && !PromisedAway(v, cpu, tid)
  {
    PromisesAreKept(v, AsPlanned, cpu, tid, InDomain(topo, allowed * eligible, d));
    PromisesAreKept(v, AsPlanned, cpu, tid, InDomain(topo, allowed, d));
  }
}
