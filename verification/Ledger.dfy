/** The CPU side of the dispatch reservations: a map from thread to CPU and the per-CPU job lists. */
module Ledger {
  import opened Machine
  import opened Ordered
  import opened CpuSelect

  datatype Task = Task(tid: nat, cpu: Option<nat>, domain: Option<nat>, tick: bool)

  /** The map and its index. */
  datatype Book = Book(cpuOf: map<nat, nat>, jobs: seq<seq<nat>>)

  /** Each list is duplicate-free and holds exactly the threads the map sends to that CPU. */
  ghost predicate Agrees(b: Book) {
    forall cpu: nat :: cpu < |b.jobs| ==>
      Distinct(b.jobs[cpu]) && forall t :: t in b.jobs[cpu] <==> t in b.cpuOf && b.cpuOf[t] == cpu
  }

  // ----- job lists -----

  function Position(jobs: seq<nat>, tid: nat): (i: nat)
    requires tid in jobs
    ensures i < |jobs| && jobs[i] == tid
  {
    if jobs[0] == tid then 0 else 1 + Position(jobs[1..], tid)
  }

  /** `swap_remove`: the last job takes the place of the removed one. */
  function SwapRemove(jobs: seq<nat>, i: nat): seq<nat>
    requires i < |jobs|
  {
    jobs[i := jobs[|jobs| - 1]][..|jobs| - 1]
  }

  function RemoveJob(jobs: seq<nat>, tid: nat): seq<nat> {
    if tid in jobs then SwapRemove(jobs, Position(jobs, tid)) else jobs
  }

  function AddJob(jobs: seq<nat>, tid: nat): seq<nat> {
    if tid in jobs then jobs else jobs + [tid]
  }

  lemma RemoveJobRemoves(jobs: seq<nat>, tid: nat)
    requires Distinct(jobs)
    ensures Distinct(RemoveJob(jobs, tid))
    ensures forall t :: t in RemoveJob(jobs, tid) <==> t in jobs && t != tid
  {
    if tid in jobs {
      var i, n := Position(jobs, tid), |jobs| - 1;
      var r := SwapRemove(jobs, i);
      forall t | t in jobs && t != tid ensures t in r {
        var k :| 0 <= k < |jobs| && jobs[k] == t;
        assert r[if k == n then i else k] == t;
      }
    }
  }

  lemma AddJobAdds(jobs: seq<nat>, tid: nat)
    requires Distinct(jobs)
    ensures Distinct(AddJob(jobs, tid))
    ensures forall t :: t in AddJob(jobs, tid) <==> t in jobs || t == tid
  {
  }

  // ----- one assignment -----

  function Dropped(jobs: seq<seq<nat>>, cpu: nat, tid: nat): (r: seq<seq<nat>>)
    ensures |r| == |jobs|
  {
    if cpu < |jobs| then jobs[cpu := RemoveJob(jobs[cpu], tid)] else jobs
  }

  function Added(jobs: seq<seq<nat>>, cpu: nat, tid: nat): (r: seq<seq<nat>>)
    ensures |r| == |jobs|
  {
    if cpu < |jobs| then jobs[cpu := AddJob(jobs[cpu], tid)] else jobs
  }

  function Assigned(b: Book, task: Task, target: nat): Book {
    var source := if task.tid in b.cpuOf then Some(b.cpuOf[task.tid]) else task.cpu;
    var jobs := if source.Some? then Dropped(b.jobs, source.value, task.tid) else b.jobs;
    Book(b.cpuOf[task.tid := target], Added(jobs, target, task.tid))
  }

  /** Re-homing a thread keeps the index in agreement with the map, wherever the thread came from. */
  lemma AssignKeepsAgreement(b: Book, task: Task, target: nat)
    requires Agrees(b)
    ensures Agrees(Assigned(b, task, target))
  {
    var b' := Assigned(b, task, target);
    var source := if task.tid in b.cpuOf then Some(b.cpuOf[task.tid]) else task.cpu;
    var jobs := if source.Some? then Dropped(b.jobs, source.value, task.tid) else b.jobs;
    forall cpu: nat | cpu < |b.jobs|
      ensures Distinct(b'.jobs[cpu]) && forall t :: t in b'.jobs[cpu] <==> t in b'.cpuOf && b'.cpuOf[t] == cpu
    {
      RemoveJobRemoves(b.jobs[cpu], task.tid);
      assert Distinct(jobs[cpu]) && forall t :: t in jobs[cpu] <==> t in b.cpuOf && b.cpuOf[t] == cpu && t != task.tid;
      AddJobAdds(jobs[cpu], task.tid);
    }
  }

  // ----- the snapshot -----

  function Listed(cpuOf: map<nat, nat>, tids: seq<nat>, nrCpus: nat): (r: seq<seq<nat>>)
    requires forall t :: t in tids ==> t in cpuOf
    ensures |r| == nrCpus
  {
    if tids == [] then seq(nrCpus, _ => []) else
      var init, t := Listed(cpuOf, tids[..|tids| - 1], nrCpus), tids[|tids| - 1];
      if cpuOf[t] < nrCpus then init[cpuOf[t] := init[cpuOf[t]] + [t]] else init
  }

  function Snapshot(cpuOf: map<nat, nat>, nrCpus: nat): Book {
    Book(cpuOf, Listed(cpuOf, Ascending(cpuOf.Keys), nrCpus))
  }

  lemma {:induction false} ListedAgrees(cpuOf: map<nat, nat>, tids: seq<nat>, nrCpus: nat)
    requires Distinct(tids) && forall t :: t in tids ==> t in cpuOf
    ensures forall cpu: nat :: cpu < nrCpus ==>
              var l := Listed(cpuOf, tids, nrCpus)[cpu];
              Distinct(l) && forall t :: t in l <==> t in tids && cpuOf[t] == cpu
  {
    if tids != [] {
      var init, t := tids[..|tids| - 1], tids[|tids| - 1];
      ListedAgrees(cpuOf, init, nrCpus);
      assert t !in init && forall x :: x in tids <==> x in init || x == t;
    }
  }

  lemma SnapshotAgrees(cpuOf: map<nat, nat>, nrCpus: nat)
    ensures Agrees(Snapshot(cpuOf, nrCpus))
  {
    ListedAgrees(cpuOf, Ascending(cpuOf.Keys), nrCpus);
  }

  /** After a snapshot, any sequence of assignments leaves the index in agreement with the map. */
  function Replayed(b: Book, moves: seq<(Task, nat)>): Book {
    if moves == [] then b else
      var last := moves[|moves| - 1];
      Assigned(Replayed(b, moves[..|moves| - 1]), last.0, last.1)
  }

  lemma {:induction false} ReplayAgrees(cpuOf: map<nat, nat>, nrCpus: nat, moves: seq<(Task, nat)>)
    ensures Agrees(Replayed(Snapshot(cpuOf, nrCpus), moves))
  {
    if moves == [] {
      SnapshotAgrees(cpuOf, nrCpus);
    } else {
      ReplayAgrees(cpuOf, nrCpus, moves[..|moves| - 1]);
      var last := moves[|moves| - 1];
      AssignKeepsAgreement(Replayed(Snapshot(cpuOf, nrCpus), moves[..|moves| - 1]), last.0, last.1);
    }
  }
}
