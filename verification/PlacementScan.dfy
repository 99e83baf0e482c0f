/** The placement loops: the scan over eligible domains, the search for a spread target, and the decision itself. */
module PlacementScan {
  import opened Machine
  import opened Ordered
  import opened CpuSelect
  import opened HostMapping
  import opened PlacementCost
  import opened PlacementScene
  import opened Placement

  class CandidateScan {
    var best: Option<Eval>
    var blockedByBudget: bool
    var blockedByPhase: bool
    var blockedByReverse: bool
    var blockedByDestination: bool
    var blockedBySoftOnly: bool

    constructor ()
      ensures best == None && forall judge :: Records(judge, [])
    {
      best := None;
      blockedByBudget, blockedByPhase, blockedByReverse := false, false, false;
      blockedByDestination, blockedBySoftOnly := false, false;
    }

    /** The flags say which blocks occurred among the domains seen. */
    ghost predicate Records(judge: Judge, seen: seq<nat>)
      reads this
    {
      && (blockedByBudget <==> Blocked(judge, seen, BudgetBlock))
      && (blockedByPhase <==> Blocked(judge, seen, PhaseBlock))
      && (blockedByReverse <==> Blocked(judge, seen, ReverseBlock))
      && (blockedByDestination <==> Blocked(judge, seen, DestinationBlock))
      && (blockedBySoftOnly <==> Blocked(judge, seen, SoftOnlyBlock))
    }

    method NoteCandidate(e: Eval)
      modifies this`best
      ensures best == Note(old(best), e)
    {
      if best.None? || e.Better(best.value) {
        best := Some(e);
      }
    }

    /** Note what one domain offers, or why it is blocked. */
    method Visit(judge: Judge, ghost seen: seq<nat>, d: nat)
      requires Records(judge, seen)
      modifies this
      ensures Records(judge, seen + [d])
      ensures best == if judge(d).Kept? then Note(old(best), judge(d).e) else old(best)
    {
      BlockedNext(judge, seen, d);
      match judge(d)
      case Skipped =>
      case BudgetBlock => blockedByBudget := true;
      case ReverseBlock => blockedByReverse := true;
      case SoftOnlyBlock => blockedBySoftOnly := true;
      case DestinationBlock => blockedByDestination := true;
      case PhaseBlock => blockedByPhase := true;
      case Kept(e) => NoteCandidate(e);
    }

    method ScanDomains(judge: Judge, domains: seq<nat>)
      requires best == None && Records(judge, [])
      modifies this
      ensures best == BestTo(Offers(judge), domains, |domains|) && Records(judge, domains)
    {
      for i := 0 to |domains|
        invariant best == BestTo(Offers(judge), domains, i) && Records(judge, domains[..i])
      {
        assert domains[..i + 1] == domains[..i] + [domains[i]];
        Visit(judge, domains[..i], domains[i]);
      }
      assert domains[..|domains|] == domains;
    }

    method ReasonToStay(ghost judge: Judge, ghost domains: seq<nat>) returns (r: Reason)
      requires Records(judge, domains)
      ensures r == BlockReason(judge, domains)
    {
      r := if blockedBySoftOnly then StayCurrentDomain
      else if blockedByPhase then MovePhaseGate
      else if blockedByReverse then ReverseHysteresis
      else if blockedByDestination then DestinationGuard
      else if blockedByBudget then MigrationBudget
      else NoCandidate;
    }
  }

  lemma BlockedNext(judge: Judge, seen: seq<nat>, d: nat)
    ensures forall v :: Blocked(judge, seen + [d], v) <==> Blocked(judge, seen, v) || judge(d) == v
  {
    forall v ensures Blocked(judge, seen + [d], v) <==> Blocked(judge, seen, v) || judge(d) == v {
      var all := seen + [d];
      if Blocked(judge, seen, v) {
        var i :| 0 <= i < |seen| && judge(seen[i]) == v;
        assert all[i] == seen[i];
      }
      assert all[|seen|] == d;
    }
  }

  /** The least loaded domain whose best CPU among the given ones is idle. */
  method FindSpread(s: Scene, cpus: set<nat>) returns (t: Option<Target>)
    ensures t == SpreadIn(s, cpus)
  {
    var d := FindLeast(Domains(s), Spreadable(s, cpus), SpreadKeys(s, cpus));
    if d.None? {
      return None;
    }
    t := Some(Target(d.value, SpreadCpu(s, cpus, d.value).GetOr(0)));
  }

  method FindLeast(order: seq<nat>, keep: set<nat>, key: nat -> seq<int>) returns (best: Option<nat>)
    ensures best == LeastBy(Filter(order, keep), key)
  {
    best := None;
    for i := 0 to |order|
      invariant best == LeastBy(Filter(order[..i], keep), key)
    {
      FilterNext(order, keep, i);
      LeastByNext(Filter(order[..i], keep), order[i], key);
      if order[i] in keep && (best.None? || LexLess(key(order[i]), key(best.value))) {
        best := Some(order[i]);
      }
    }
    assert order[..|order|] == order;
  }

  lemma FilterNext(order: seq<nat>, keep: set<nat>, i: nat)
    requires i < |order|
    ensures Filter(order[..i + 1], keep) == if order[i] in keep then Filter(order[..i], keep) + [order[i]] else Filter(order[..i], keep)
  {
    assert order[..i + 1][..i] == order[..i];
  }

  lemma LeastByNext(s: seq<nat>, x: nat, key: nat -> seq<int>)
    ensures LeastBy(s + [x], key) == if LeastBy(s, key).None? || LexLess(key(x), key(LeastBy(s, key).value)) then Some(x) else LeastBy(s, key)
  {
    assert (s + [x])[..|s|] == s;
  }

  method FindSpreadChoice(s: Scene) returns (t: Option<Target>)
    ensures t == SpreadChoice(s)
  {
    t := None;
    if s.AllowedEligible() != {} {
      t := FindSpread(s, s.AllowedEligible());
    }
    if t.None? {
      t := FindSpread(s, s.allowed);
    }
  }

  /** Place a task: the loops above, and the answers in the order they are tried. */
  method ChoosePlacement(s: Scene) returns (d: Decision)
    ensures d == Decide(s)
  {
    if s.Young() {
      var choice := FindSpreadChoice(s);
      var t := Elsewhere(s.task, choice);
      if t.Some? {
        return MoveTo(s, t.value.domain, t.value.cpu, IdleSpread);
      }
    }
    if StaysEarly(s) {
      return Stay(s, StayCurrentDomain);
    }
    if s.SourceBudgetSpent() {
      return Stay(s, MigrationBudget);
    }
    d := ScanAndChoose(s);
  }

  method ScanAndChoose(s: Scene) returns (d: Decision)
    ensures d == ChosenBest(s).GetOr(NothingKept(s))
  {
    var scan := new CandidateScan();
    scan.ScanDomains(JudgeOf(s), Domains(s));
    if scan.best.Some? {
      d := Chosen(s, scan.best.value);
    } else {
      var reason := scan.ReasonToStay(JudgeOf(s), Domains(s));
      d := Resliced(Stay(s, reason), RateControlled(s));
    }
  }
}
