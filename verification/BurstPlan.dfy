/** Reserving CPUs for a burst of pending tasks, the most constrained first. */
module BurstPlan {
  import opened Machine
  import opened Ordered
  import opened CpuSelect
  import opened HostMapping
  import opened Ledger

  /** What one burst reads and does not change. */
  datatype Burst = Burst(
    topo: Topology, mapping: Mapping, view: CpuView, pending: seq<Task>, domainOf: map<nat, nat>,
    allowed: map<nat, set<nat>>, fixed: map<nat, nat>)
  {
    function Allowed(tid: nat): set<nat> { if tid in allowed then allowed[tid] else {} }

    /** The planned domain of a task, or else the one it is in. */
    function Target(t: Task): Option<nat> {
      if t.tid in domainOf then Some(domainOf[t.tid]) else t.domain
    }

    function CandidateCpus(tid: nat, d: nat): set<nat> { TargetCpus(topo, Allowed(tid), mapping.eligibleCpus, d) }

    predicate LegalDomain(tid: nat, d: nat) {
      d in mapping.eligibleDomains && exists c :: c in Allowed(tid) && topo.DomainOf(c) == Some(d)
    }

    predicate Qualifies(t: Task) {
      && t.tid in allowed && Target(t).Some?
      && (LegalDomain(t.tid, Target(t).value) || t.domain == Target(t))
      && CandidateCpus(t.tid, Target(t).value) != {}
    }

    function Pinned(t: Task, d: nat): bool {
      t.domain == Some(d) && d !in mapping.excludedDomains && t.tick
    }

    /** The fixed target if it is a candidate, else the CPU already planned if still good, else the best one. */
    function Choose(b: Book, t: Task, d: nat): Option<nat> {
      if t.tid in fixed && fixed[t.tid] in CandidateCpus(t.tid, d) then Some(fixed[t.tid]) else
        var v := view.(planned := b.jobs);
        (if t.tid in b.cpuOf
         then PreferredIn(v, topo, t.tid, Some(b.cpuOf[t.tid]), d, Allowed(t.tid), mapping.eligibleCpus) else None)
        .Or(ChooseInDomain(v, topo, TaskView(t.tid, t.cpu, t.domain, t.tick), d, Allowed(t.tid), mapping.eligibleCpus, Pinned(t, d), AsPlanned))
    }
  }

  datatype Candidate = Candidate(count: nat, allowedCount: nat, index: nat, task: Task, domain: nat)

  predicate TighterFirst(a: Candidate, b: Candidate) {
    if a.count != b.count then a.count < b.count
    else if a.allowedCount != b.allowedCount then a.allowedCount < b.allowedCount
    else if a.index != b.index then a.index < b.index
    else a.task.tid <= b.task.tid
  }

  lemma TighterFirstIsTotal()
    ensures TotalPreorder(TighterFirst)
  {
  }

  predicate SeenBefore(pending: seq<Task>, k: nat)
    requires k < |pending|
  {
    exists i :: 0 <= i < k && pending[i].tid == pending[k].tid
  }

  /** The candidate stands for the first task of its thread, which qualifies for the domain. */
  ghost predicate Describes(e: Burst, c: Candidate) {
    && c.index < |e.pending| && e.pending[c.index] == c.task && !SeenBefore(e.pending, c.index)
    && e.Qualifies(c.task) && e.Target(c.task) == Some(c.domain)
  }

  function CandidateOf(e: Burst, k: nat): Candidate
    requires k < |e.pending| && e.Qualifies(e.pending[k])
  {
    var t := e.pending[k];
    var d := e.Target(t).value;
    Candidate(|e.CandidateCpus(t.tid, d)|, |e.Allowed(t.tid)|, k, t, d)
  }

  /** The first task of each thread, if it qualifies. */
  function Candidates(e: Burst, k: nat): seq<Candidate>
    requires k <= |e.pending|
  {
    if k == 0 then [] else
      var init := Candidates(e, k - 1);
      if SeenBefore(e.pending, k - 1) || !e.Qualifies(e.pending[k - 1]) then init else init + [CandidateOf(e, k - 1)]
  }

  lemma {:induction false} CandidatesDescribe(e: Burst, k: nat)
    requires k <= |e.pending|
    ensures forall i :: 0 <= i < |Candidates(e, k)| ==> Candidates(e, k)[i].index < k && Describes(e, Candidates(e, k)[i])
    ensures forall i, j :: 0 <= i < j < |Candidates(e, k)| ==> Candidates(e, k)[i].index < Candidates(e, k)[j].index
  {
    if k > 0 {
      CandidatesDescribe(e, k - 1);
    }
  }

  lemma {:induction false} CandidatesComplete(e: Burst, k: nat, m: nat)
    requires m < k <= |e.pending| && !SeenBefore(e.pending, m) && e.Qualifies(e.pending[m])
    ensures CandidateOf(e, m) in Candidates(e, k)
    decreases k
  {
    if m < k - 1 {
      CandidatesComplete(e, k - 1, m);
    }
  }

  function ServingOrder(e: Burst): seq<Candidate> { Sort(TighterFirst, Candidates(e, |e.pending|)) }

  lemma FirstTasksAreOfDistinctThreads(e: Burst, i: nat, j: nat)
    requires i < j < |e.pending| && !SeenBefore(e.pending, j)
    ensures e.pending[i].tid != e.pending[j].tid
  {
  }

  /** Every qualifying thread is served once, the most constrained first. */
  lemma ServingOrderFacts(e: Burst)
    ensures SortedBy(TighterFirst, ServingOrder(e))
    ensures forall i :: 0 <= i < |ServingOrder(e)| ==> Describes(e, ServingOrder(e)[i])
    ensures forall i, j :: 0 <= i < j < |ServingOrder(e)| ==> ServingOrder(e)[i].task.tid != ServingOrder(e)[j].task.tid
    ensures forall c :: c in ServingOrder(e) <==> c in Candidates(e, |e.pending|)
  {
    TighterFirstIsTotal();
    CandidatesDescribe(e, |e.pending|);
    var s := Candidates(e, |e.pending|);
    assert Distinct(s);
    SortSorts(TighterFirst, s);
    SortMembers(TighterFirst, s);
    SortDistinct(TighterFirst, s);
    SortedAreDistinctThreads(e, s, ServingOrder(e));
  }

  lemma SortedAreDistinctThreads(e: Burst, s: seq<Candidate>, r: seq<Candidate>)
    requires forall i :: 0 <= i < |s| ==> Describes(e, s[i])
    requires forall i, j :: 0 <= i < j < |s| ==> s[i].index < s[j].index
    requires Distinct(r) && forall c :: c in r <==> c in s
    ensures forall i :: 0 <= i < |r| ==> Describes(e, r[i])
    ensures forall i, j :: 0 <= i < j < |r| ==> r[i].task.tid != r[j].task.tid
  {
    forall i | 0 <= i < |r| ensures Describes(e, r[i]) { assert r[i] in s; }
    forall i, j | 0 <= i < j < |r| ensures r[i].task.tid != r[j].task.tid {
      assert r[i] in s && r[j] in s;
      var a :| 0 <= a < |s| && s[a] == r[i];
      var b :| 0 <= b < |s| && s[b] == r[j];
      if a < b {
        FirstTasksAreOfDistinctThreads(e, s[a].index, s[b].index);
      } else {
        assert a != b;
        FirstTasksAreOfDistinctThreads(e, s[b].index, s[a].index);
      }
    }
  }

  /** A qualifying thread always gets a CPU, and one of its target domain that it may use. */
  lemma ChooseIsLegal(e: Burst, b: Book, t: Task)
    requires e.topo.Consistent() && e.Qualifies(t)
    ensures e.Choose(b, t, e.Target(t).value).Some?
    ensures Legal(e.topo, e.Choose(b, t, e.Target(t).value).value, e.Target(t).value, e.allowed[t.tid])
  {
    var d := e.Target(t).value;
    var v := e.view.(planned := b.jobs);
    var some :| some in e.CandidateCpus(t.tid, d);
    assert Legal(e.topo, some, d, e.Allowed(t.tid));
    if t.tid in b.cpuOf {
      PreferredIsLegal(v, e.topo, t.tid, Some(b.cpuOf[t.tid]), d, e.Allowed(t.tid), e.mapping.eligibleCpus);
    }
    ChooseInDomainIsLegal(v, e.topo, TaskView(t.tid, t.cpu, t.domain, t.tick), d, e.Allowed(t.tid), e.mapping.eligibleCpus, e.Pinned(t, d), AsPlanned);
  }

  // ----- the reservation pass -----

  datatype Reserved = Reserved(book: Book, targets: map<nat, nat>)

  /** How a CPU is chosen for a task in a domain, given the ledger so far. */
  type Picker = (Book, Task, nat) -> Option<nat>

  function Serve(pick: Picker, r: Reserved, c: Candidate): Reserved {
    match pick(r.book, c.task, c.domain)
    case None => r
    case Some(cpu) => Reserved(Assigned(r.book, c.task, cpu), r.targets[c.task.tid := cpu])
  }

  function ReserveUpTo(pick: Picker, b: Book, order: seq<Candidate>, k: nat): Reserved
    requires k <= |order|
  {
    if k == 0 then Reserved(b, map[]) else Serve(pick, ReserveUpTo(pick, b, order, k - 1), order[k - 1])
  }

  ghost predicate ServedLegally(topo: Topology, allowed: map<nat, set<nat>>, targets: map<nat, nat>, c: Candidate) {
    && c.task.tid in targets && c.task.tid in allowed
    && Legal(topo, targets[c.task.tid], c.domain, allowed[c.task.tid])
  }

  /** Whatever the ledger, the picker finds a CPU for the candidate, and a legal one. */
  ghost predicate PicksLegally(pick: Picker, topo: Topology, allowed: map<nat, set<nat>>, c: Candidate) {
    && c.task.tid in allowed
    && forall b: Book :: pick(b, c.task, c.domain).Some? && Legal(topo, pick(b, c.task, c.domain).value, c.domain, allowed[c.task.tid])
  }

  /** The ledger records the targets, and nothing else has moved. */
  ghost predicate Recorded(b: Book, r: Reserved) {
    && Agrees(r.book)
    && (forall t :: t in r.targets ==> t in r.book.cpuOf && r.book.cpuOf[t] == r.targets[t])
    && (forall t :: t !in r.targets ==> (t in r.book.cpuOf <==> t in b.cpuOf))
    && (forall t :: t !in r.targets && t in b.cpuOf ==> r.book.cpuOf[t] == b.cpuOf[t])
  }

  lemma {:induction false} ReserveRecords(pick: Picker, b: Book, order: seq<Candidate>, k: nat)
    requires Agrees(b) && k <= |order|
    ensures Recorded(b, ReserveUpTo(pick, b, order, k))
  {
    if k > 0 {
      ReserveRecords(pick, b, order, k - 1);
      var r, c := ReserveUpTo(pick, b, order, k - 1), order[k - 1];
      var choice := pick(r.book, c.task, c.domain);
      if choice.Some? {
        AssignKeepsAgreement(r.book, c.task, choice.value);
      }
    }
  }

  /** A candidate is served legally, and its target stays when others are served after it. */
  lemma {:induction false} ServedAt(
    pick: Picker, topo: Topology, allowed: map<nat, set<nat>>, b: Book, order: seq<Candidate>, k: nat, i: nat)
    requires i < k <= |order| && PicksLegally(pick, topo, allowed, order[i])
    requires forall j :: i < j < k ==> order[j].task.tid != order[i].task.tid
    ensures ServedLegally(topo, allowed, ReserveUpTo(pick, b, order, k).targets, order[i])
  {
    if i < k - 1 {
      ServedAt(pick, topo, allowed, b, order, k - 1, i);
    }
  }

  /** Only candidates get targets. */
  lemma {:induction false} TargetOf(pick: Picker, b: Book, order: seq<Candidate>, k: nat, t: nat) returns (i: nat)
    requires k <= |order| && t in ReserveUpTo(pick, b, order, k).targets
    ensures i < k && order[i].task.tid == t
  {
    if order[k - 1].task.tid == t {
      i := k - 1;
    } else {
      i := TargetOf(pick, b, order, k - 1, t);
    }
  }

  function PickerOf(e: Burst): Picker { (b: Book, t: Task, d: nat) => e.Choose(b, t, d) }

  function BurstTargets(e: Burst, b: Book): Reserved {
    ReserveUpTo(PickerOf(e), b, ServingOrder(e), |ServingOrder(e)|)
  }

  lemma OrderIsPickedLegally(e: Burst, c: Candidate)
    requires e.topo.Consistent() && Describes(e, c)
    ensures PicksLegally(PickerOf(e), e.topo, e.allowed, c)
  {
    forall b: Book
      ensures PickerOf(e)(b, c.task, c.domain).Some?
      ensures Legal(e.topo, PickerOf(e)(b, c.task, c.domain).value, c.domain, e.allowed[c.task.tid])
    {
      ChooseIsLegal(e, b, c.task);
    }
  }

  /**
   * A burst reserves a CPU for exactly the threads whose first task qualifies; each reservation is a CPU
   * the thread may use in its planned domain; the ledger records it; and the ledger stays consistent.
   */
  lemma BurstIsSound(e: Burst, b: Book, k: nat)
    requires e.topo.Consistent() && Agrees(b)
    ensures Recorded(b, BurstTargets(e, b))
    ensures k < |e.pending| && !SeenBefore(e.pending, k) ==>
              var t, targets := e.pending[k], BurstTargets(e, b).targets;
              && (t.tid in targets <==> e.Qualifies(t))
              && (t.tid in targets ==> Legal(e.topo, targets[t.tid], e.Target(t).value, e.allowed[t.tid]))
  {
    ReserveRecords(PickerOf(e), b, ServingOrder(e), |ServingOrder(e)|);
    if k < |e.pending| && !SeenBefore(e.pending, k) {
      if e.Qualifies(e.pending[k]) {
        QualifyingIsServed(e, b, k);
      } else {
        OthersAreNotServed(e, b, k);
      }
    }
  }

  lemma QualifyingIsServed(e: Burst, b: Book, k: nat)
    requires e.topo.Consistent() && k < |e.pending| && !SeenBefore(e.pending, k) && e.Qualifies(e.pending[k])
    ensures ServedLegally(e.topo, e.allowed, BurstTargets(e, b).targets, CandidateOf(e, k))
  {
    var order, c := ServingOrder(e), CandidateOf(e, k);
    ServingOrderFacts(e);
    CandidatesComplete(e, |e.pending|, k);
    assert c in order;
    var i :| 0 <= i < |order| && order[i] == c;
    OrderIsPickedLegally(e, c);
    ServedAt(PickerOf(e), e.topo, e.allowed, b, order, |order|, i);
  }

  lemma ServedTaskIsFirst(e: Burst, order: seq<Candidate>, i: nat) returns (j: nat)
    requires order == ServingOrder(e) && i < |order|
    ensures j < |e.pending| && e.pending[j] == order[i].task && !SeenBefore(e.pending, j) && e.Qualifies(e.pending[j])
  {
    ServingOrderFacts(e);
    assert Describes(e, order[i]);
    j := order[i].index;
  }

  lemma SameFirstTask(pending: seq<Task>, j: nat, k: nat)
    requires j < |pending| && k < |pending| && !SeenBefore(pending, j) && !SeenBefore(pending, k)
    requires pending[j].tid == pending[k].tid
    ensures j == k
  {
  }

  lemma OthersAreNotServed(e: Burst, b: Book, k: nat)
    requires e.topo.Consistent() && k < |e.pending| && !SeenBefore(e.pending, k) && !e.Qualifies(e.pending[k])
    ensures e.pending[k].tid !in BurstTargets(e, b).targets
  {
    var order, targets := ServingOrder(e), BurstTargets(e, b).targets;
    if e.pending[k].tid in targets {
      var i := TargetOf(PickerOf(e), b, order, |order|, e.pending[k].tid);
      var j := ServedTaskIsFirst(e, order, i);
      SameFirstTask(e.pending, j, k);
    }
  }

  // ----- the ledger object -----

  method ListJobs(cpuOf: map<nat, nat>, order: seq<nat>, nrCpus: nat) returns (jobs: seq<seq<nat>>)
    requires forall t :: t in order ==> t in cpuOf
    ensures jobs == Listed(cpuOf, order, nrCpus)
  {
    jobs := seq(nrCpus, _ => []);
    var i := 0;
    while i < |order|
      invariant 0 <= i <= |order| && jobs == Listed(cpuOf, order[..i], nrCpus)
    {
      assert order[..i + 1][..i] == order[..i];
      var cpu := cpuOf[order[i]];
      if cpu < nrCpus {
        jobs := jobs[cpu := jobs[cpu] + [order[i]]];
      }
      i := i + 1;
    }
    assert order[..i] == order;
  }

  class Reservations {
    var cpuByTid: map<nat, nat>
    var cpuJobs: seq<seq<nat>>

    ghost function Value(): Book
      reads this
    {
      Book(cpuByTid, cpuJobs)
    }

    ghost predicate Valid()
      reads this
    {
      Agrees(Value())
    }

    /** Lists every planned thread under its CPU. */
    constructor FromSnapshot(cpuOf: map<nat, nat>, nrCpus: nat)
      ensures Valid() && Value() == Snapshot(cpuOf, nrCpus)
    {
      var jobs := ListJobs(cpuOf, Ascending(cpuOf.Keys), nrCpus);
      cpuByTid, cpuJobs := cpuOf, jobs;
      SnapshotAgrees(cpuOf, nrCpus);
    }

    method RemoveJobFrom(cpu: nat, tid: nat)
      modifies this`cpuJobs
      ensures cpuJobs == Dropped(old(cpuJobs), cpu, tid)
    {
      if cpu < |cpuJobs| && tid in cpuJobs[cpu] {
        var jobs := cpuJobs[cpu];
        var index := Position(jobs, tid);
        cpuJobs := cpuJobs[cpu := jobs[index := jobs[|jobs| - 1]][..|jobs| - 1]];
      }
    }

    method AddJobTo(cpu: nat, tid: nat)
      modifies this`cpuJobs
      ensures cpuJobs == Added(old(cpuJobs), cpu, tid)
    {
      if cpu < |cpuJobs| && tid !in cpuJobs[cpu] {
        cpuJobs := cpuJobs[cpu := cpuJobs[cpu] + [tid]];
      }
    }

    method CommitCpu(task: Task, target: nat)
      requires Valid()
      modifies this
      ensures Valid() && Value() == Assigned(old(Value()), task, target)
    {
      AssignKeepsAgreement(Value(), task, target);
      var source := if task.tid in cpuByTid then Some(cpuByTid[task.tid]) else task.cpu;
      if source.Some? {
        RemoveJobFrom(source.value, task.tid);
      }
      AddJobTo(target, task.tid);
      cpuByTid := cpuByTid[task.tid := target];
    }

    /** Serves the candidates in order, each against the ledger the earlier ones left. */
    method ReserveAll(order: seq<Candidate>, pick: Picker) returns (targets: map<nat, nat>)
      requires Valid()
      modifies this
      ensures Valid() && ReserveUpTo(pick, old(Value()), order, |order|) == Reserved(Value(), targets)
    {
      ghost var start := Value();
      targets := map[];
      var i := 0;
      while i < |order|
        invariant 0 <= i <= |order| && Valid()
        invariant ReserveUpTo(pick, start, order, i) == Reserved(Value(), targets)
      {
        var target := pick(Book(cpuByTid, cpuJobs), order[i].task, order[i].domain);
        if target.Some? {
          CommitCpu(order[i].task, target.value);
          targets := targets[order[i].task.tid := target.value];
        }
        i := i + 1;
      }
    }

    method ReserveBurst(e: Burst) returns (targets: map<nat, nat>)
      requires Valid()
      modifies this
      ensures Valid() && BurstTargets(e, old(Value())) == Reserved(Value(), targets)
    {
      targets := ReserveAll(ServingOrder(e), PickerOf(e));
    }
  }
}
