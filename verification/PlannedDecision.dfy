/** Following the planner: its entry for a thread is used only if it is current, legal, settled and within budget. */
module PlannedDecision {
  import opened Machine
  import opened Samples
  import opened CpuSelect
  import opened HostMapping
  import opened PlacementCost
  import opened PlacementScene
  import opened Placement

  datatype Entry = Entry(domain: nat, cpu: Option<nat>)

  datatype PlacementPlan = PlacementPlan(epoch: u64, entries: map<nat, Entry>)

  datatype Refusal =
    | StalePlan | NoPlan | IllegalDomain | SettleWindow | ReverseProtect | SourceBudget | DestinationBudget | NoCpu

  datatype Result = Ok(value: Decision) | Err(error: Refusal)

  function LegalDomains(s: Scene): set<nat> {
    set c | c in s.allowed && s.topo.DomainOf(c).Some? && s.topo.DomainOf(c).value in s.mapping.eligibleDomains :: s.topo.DomainOf(c).value
  }

  /** The planned CPU when it is one of the target domain, or else one chosen as for a burst. */
  function PlannedCpu(s: Scene, e: Entry): Option<nat> { EntryCpu(s, e).Or(ChosenCpu(s, e.domain)) }

  function EntryCpu(s: Scene, e: Entry): Option<nat> {
    Keep(e.cpu, e.cpu.Some? && e.cpu.value in TargetCpus(s.topo, s.allowed, s.mapping.eligibleCpus, e.domain))
  }

  function ChosenCpu(s: Scene, d: nat): Option<nat> {
    ChooseInDomain(s.cpus, s.topo, s.task.View(), d, s.allowed, s.mapping.eligibleCpus,
                   s.task.domain == Some(d) && d !in s.mapping.excludedDomains && s.task.trigger.IsTick(), AsPlanned)
  }

  /** Why an entry may not be followed, in the order the reasons are looked for. */
  function Objection(s: Scene, d: nat): Option<Refusal> {
    var moves := s.task.domain != Some(d);
    if d !in LegalDomains(s) && moves then Some(IllegalDomain)
    else if moves && !s.Excluded() && s.meta.Some? && s.Settling() then Some(SettleWindow)
    else if moves && !s.Excluded() && s.Reverses(d) then Some(ReverseProtect)
    else if moves && s.SourceBudgetSpent() then Some(SourceBudget)
    else if moves && s.BudgetSpent(d) then Some(DestinationBudget)
    else None
  }

  function Followed(s: Scene, d: nat, cpu: nat): Decision {
    if s.task.domain == Some(d) then Decision(Some(d), Some(cpu), StayCurrentDomain, s.task.trigger, TickStay(s), false, DEFAULT_SLICE_NS)
    else MoveTo(s, d, cpu, if s.Excluded() then ExcludedDomainEscape else MoveCoolerDomain)
  }

  function Planned(s: Scene, plan: PlacementPlan, latestEpoch: u64): Result {
    if SatSub(latestEpoch, plan.epoch) > 1 then Err(StalePlan)
    else if s.task.tid !in plan.entries then Err(NoPlan)
    else
      var e := plan.entries[s.task.tid];
      var objection, cpu := Objection(s, e.domain), PlannedCpu(s, e);
      if objection.Some? then Err(objection.value)
      else if cpu.None? then Err(NoCpu)
      else Ok(Followed(s, e.domain, cpu.value))
  }

  /** What both ways of deciding promise about a migration. */
  ghost predicate Considerate(s: Scene, d: Decision) {
    && !d.deferred
    && (d.reason == ExcludedDomainEscape ==> s.Excluded() && d.domain.Some?)
    && (d.reason == MoveCoolerDomain ==>
          && d.domain.Some? && d.domain != s.task.domain && !s.Excluded() && !s.Settling()
          && !s.SourceBudgetSpent() && !s.BudgetSpent(d.domain.value))
  }

  lemma FollowedIsConsiderate(s: Scene, d: nat, cpu: nat)
    requires Objection(s, d).None? && s.meta.Some?
    ensures Considerate(s, Followed(s, d, cpu))
  {
  }

  /** Following the plan respects the settle window and the budgets, and names a CPU the task may use in the target domain. */
  lemma PlannedIsConsiderate(s: Scene, plan: PlacementPlan, latestEpoch: u64)
    requires s.topo.Consistent() && s.meta.Some? && Planned(s, plan, latestEpoch).Ok?
    ensures var d := Planned(s, plan, latestEpoch).value;
            && Considerate(s, d) && d.domain.Some? && d.cpu.Some? && Legal(s.topo, d.cpu.value, d.domain.value, s.allowed)
            && (d.domain != s.task.domain ==> d.domain.value in s.mapping.eligibleDomains)
            && d.reason != IdleSpread
            && (!d.reason.Relocates() ==> d.domain == s.task.domain)
  {
    var e := plan.entries[s.task.tid];
    PlannedCpuIsLegal(s, e);
    FollowedIsConsiderate(s, e.domain, PlannedCpu(s, e).value);
    FollowedIs(s, e.domain, PlannedCpu(s, e).value);
    assert s.task.domain != Some(e.domain) ==> e.domain in LegalDomains(s);
  }

  lemma FollowedIs(s: Scene, d: nat, cpu: nat)
    ensures var f := Followed(s, d, cpu);
            f.domain == Some(d) && f.cpu == Some(cpu) && f.reason != IdleSpread && (f.reason.Relocates() <==> s.task.domain != Some(d))
  {
  }

  lemma PlannedCpuIsLegal(s: Scene, e: Entry)
    requires s.topo.Consistent()
    ensures PlannedCpu(s, e).Some? ==> Legal(s.topo, PlannedCpu(s, e).value, e.domain, s.allowed)
  {
    ChosenCpuIsLegal(s, e.domain);
    EntryCpuIsLegal(s, e);
  }

  lemma EntryCpuIsLegal(s: Scene, e: Entry)
    requires s.topo.Consistent()
    ensures EntryCpu(s, e).Some? ==> Legal(s.topo, EntryCpu(s, e).value, e.domain, s.allowed)
  {
  }

  lemma ChosenCpuIsLegal(s: Scene, d: nat)
    requires s.topo.Consistent()
    ensures ChosenCpu(s, d).Some? ==> Legal(s.topo, ChosenCpu(s, d).value, d, s.allowed)
  {
    ChooseInDomainIsLegal(s.cpus, s.topo, s.task.View(), d, s.allowed, s.mapping.eligibleCpus,
                          s.task.domain == Some(d) && d !in s.mapping.excludedDomains && s.task.trigger.IsTick(), AsPlanned);
  }

  /** So does the fallback policy. */
  lemma DecideIsConsiderate(s: Scene)
    requires s.topo.Consistent()
    ensures Considerate(s, Decide(s))
  {
    DecideOne(s);
    if Decide(s).reason == MoveCoolerDomain {
      CoolerMoveIsBetter(s);
    } else if Decide(s).reason == ExcludedDomainEscape {
      MovesAreLegal(s);
    }
  }
}
