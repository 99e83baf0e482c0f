/** In which order a burst serves its threads, and what each of them sees and gets. */
module BurstLaw {
  import opened Machine
  import opened Ordered
  import opened CpuSelect
  import opened CpuLaw
  import opened HostMapping
  import opened Ledger
  import opened BurstPlan

  lemma {:induction false} CandidatesAreOf(e: Burst, k: nat, i: nat)
    requires k <= |e.pending| && i < |Candidates(e, k)|
    ensures var c := Candidates(e, k)[i];
            c.index < k && e.Qualifies(e.pending[c.index]) && c == CandidateOf(e, c.index) && !SeenBefore(e.pending, c.index)
  {
    if i < |Candidates(e, k - 1)| {
      CandidatesAreOf(e, k - 1, i);
    }
  }

  lemma ServedAreOf(e: Burst, i: nat)
    requires i < |ServingOrder(e)|
    ensures var c := ServingOrder(e)[i];
            c.index < |e.pending| && e.Qualifies(e.pending[c.index]) && c == CandidateOf(e, c.index) && !SeenBefore(e.pending, c.index)
  {
    var c, all := ServingOrder(e)[i], Candidates(e, |e.pending|);
    ServingOrderFacts(e);
    assert c in all;
    var j: nat :| j < |all| && all[j] == c;
    CandidatesAreOf(e, |e.pending|, j);
  }

  /** The CPUs a candidate's thread may be given. */
  ghost function Choices(e: Burst, c: Candidate): set<nat> { e.CandidateCpus(c.task.tid, c.domain) }

  /** Fewer CPUs to choose from come first; among equals, fewer allowed CPUs; among those, the earlier task. */
  ghost predicate TighterOrEarlier(e: Burst, a: Candidate, b: Candidate) {
    || |Choices(e, a)| < |Choices(e, b)|
    || (|Choices(e, a)| == |Choices(e, b)| && |e.Allowed(a.task.tid)| < |e.Allowed(b.task.tid)|)
    || (|Choices(e, a)| == |Choices(e, b)| && |e.Allowed(a.task.tid)| == |e.Allowed(b.task.tid)| && a.index < b.index)
  }

  /** Threads with fewer CPUs are served first: one that could go anywhere never goes before one that could not. */
  lemma TighterIsServedFirst(e: Burst, i: nat, j: nat)
    requires i < j < |ServingOrder(e)|
    ensures TighterOrEarlier(e, ServingOrder(e)[i], ServingOrder(e)[j])
  {
    var a, b := ServingOrder(e)[i], ServingOrder(e)[j];
    ServingOrderFacts(e);
    ServedAreOf(e, i);
    ServedAreOf(e, j);
    assert TighterFirst(a, b);
    assert a.task.tid != b.task.tid;
  }

  /** What the burst has reserved when the turn of candidate `i` comes. */
  ghost function BeforeTurn(e: Burst, b: Book, i: nat): Reserved
    requires i <= |ServingOrder(e)|
  {
    ReserveUpTo(PickerOf(e), b, ServingOrder(e), i)
  }

  lemma {:induction false} ServedWith(pick: Picker, b: Book, order: seq<Candidate>, k: nat, i: nat)
    requires i < k <= |order| && forall j :: i < j < k ==> order[j].task.tid != order[i].task.tid
    requires pick(ReserveUpTo(pick, b, order, i).book, order[i].task, order[i].domain).Some?
    ensures var r := ReserveUpTo(pick, b, order, k).targets;
            order[i].task.tid in r && Some(r[order[i].task.tid]) == pick(ReserveUpTo(pick, b, order, i).book, order[i].task, order[i].domain)
  {
    if i < k - 1 {
      ServedWith(pick, b, order, k - 1, i);
    }
  }

  /**
   * Each thread gets the CPU chosen for it in its turn, from a ledger that shows those served before it where they
   * have been reserved and everyone else where they were.
   */
  lemma ServedInTurn(e: Burst, b: Book, i: nat)
    requires e.topo.Consistent() && Agrees(b) && i < |ServingOrder(e)|
    ensures var c, seen, targets := ServingOrder(e)[i], BeforeTurn(e, b, i), BurstTargets(e, b).targets;
            && Recorded(b, seen)
            && (forall t :: t in seen.targets ==> exists j :: 0 <= j < i && ServingOrder(e)[j].task.tid == t)
            && c.task.tid in targets && Some(targets[c.task.tid]) == e.Choose(seen.book, c.task, c.domain)
  {
    var c, order := ServingOrder(e)[i], ServingOrder(e);
    ServingOrderFacts(e);
    assert Describes(e, c);
    OrderIsPickedLegally(e, c);
    ReserveRecords(PickerOf(e), b, order, i);
    ServedWith(PickerOf(e), b, order, |order|, i);
    forall t | t in BeforeTurn(e, b, i).targets ensures exists j :: 0 <= j < i && order[j].task.tid == t {
      var j := TargetOf(PickerOf(e), b, order, i, t);
    }
  }

  /** A fixed CPU that the thread may be given is the one it gets. */
  lemma FixedIsHonoured(e: Burst, b: Book, k: nat)
    requires e.topo.Consistent() && Agrees(b) && k < |e.pending| && !SeenBefore(e.pending, k) && e.Qualifies(e.pending[k])
    requires var t := e.pending[k]; t.tid in e.fixed && e.fixed[t.tid] in e.CandidateCpus(t.tid, e.Target(t).value)
    ensures var t, targets := e.pending[k], BurstTargets(e, b).targets; t.tid in targets && targets[t.tid] == e.fixed[t.tid]
  {
    var order, c := ServingOrder(e), CandidateOf(e, k);
    ServingOrderFacts(e);
    CandidatesComplete(e, |e.pending|, k);
    assert c in order;
    var i: nat :| i < |order| && order[i] == c;
    ServedInTurn(e, b, i);
  }

  /** Without a fixed CPU, the one a thread is already planned on is kept while it can be used in its domain. */
  lemma PlannedCpuIsKept(e: Burst, b: Book, t: Task, d: nat, cpu: nat)
    requires e.topo.Consistent() && t.tid !in e.fixed && t.tid in b.cpuOf && b.cpuOf[t.tid] == cpu && cpu <= I32_MAX
    requires Legal(e.topo, cpu, d, e.Allowed(t.tid)) && e.view.Util(cpu) < e.view.highUtil && e.view.State(cpu).currentTid in {0, t.tid}
    requires Unpromised(e.view.(planned := b.jobs), cpu, t.tid)
    ensures e.Choose(b, t, d) == Some(cpu)
  {
    ReservedIsUsed(e.view.(planned := b.jobs), e.topo, t.tid, cpu, d, e.Allowed(t.tid), e.mapping.eligibleCpus);
  }

  /** A thread planned in a domain where it has a CPU is served, there, if the domain is eligible or the one it is in. */
  lemma PlannedDomainIsUsed(e: Burst, b: Book, k: nat)
    requires e.topo.Consistent() && Agrees(b) && k < |e.pending| && !SeenBefore(e.pending, k)
    requires var t := e.pending[k];
             && t.tid in e.domainOf && t.tid in e.allowed
             && (exists c :: Legal(e.topo, c, e.domainOf[t.tid], e.allowed[t.tid]))
             && (e.domainOf[t.tid] in e.mapping.eligibleDomains || t.domain == Some(e.domainOf[t.tid]))
    ensures var t, targets := e.pending[k], BurstTargets(e, b).targets;
            t.tid in targets && Legal(e.topo, targets[t.tid], e.domainOf[t.tid], e.allowed[t.tid])
  {
    var t := e.pending[k];
    var c :| Legal(e.topo, c, e.domainOf[t.tid], e.allowed[t.tid]);
    assert c in InDomain(e.topo, e.allowed[t.tid], e.domainOf[t.tid]);
    BurstIsSound(e, b, k);
  }
}
