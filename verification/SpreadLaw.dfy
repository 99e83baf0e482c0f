/** How evenly domains are sampled, and in which order threads take sites in them. */
module SpreadLaw {
  import opened Arithmetic
  import opened Machine
  import opened Ordered
  import opened CpuSelect
  import opened ArcasSpread
  import opened ArcasSelect
  import opened ArcasPlan

  // ----- even sampling -----

  ghost function Floor(n: nat, d: nat): nat
    requires d > 0
  {
    n / d
  }

  ghost function Ceiling(n: nat, d: nat): nat
    requires d > 0
  {
    if n % d == 0 then n / d else n / d + 1
  }

  /** Adding `n` to a dividend adds its floor or its ceiling to the quotient. */
  lemma QuotientSteps(x: nat, n: nat, d: nat)
    requires d > 0
    ensures Floor(n, d) <= (x + n) / d - x / d <= Ceiling(n, d)
  {
    var q, r := (x + n) / d, x / d + n / d;
    DivisionSplits(x, d);
    DivisionSplits(n, d);
    assert x + n == r * d + (x % d + n % d) by { assert r * d == x / d * d + n / d * d; }
    DivisionIsGreatest(x + n, r, d);
    if n % d == 0 {
      QuotientOf(r, d, x % d);
    } else {
      assert (r + 2) * d == r * d + d + d;
      QuotientIsBelow(x + n, r + 2, d);
    }
  }

  /** The samples start at the first candidate, and consecutive ones are the floor or the ceiling of `n / desired` apart. */
  lemma SamplesAreEven(n: nat, desired: nat, k: nat)
    requires desired > 0
    ensures SampleIndex(n, desired, 0) == 0
    ensures Floor(n, desired) <= SampleIndex(n, desired, k + 1) - SampleIndex(n, desired, k) <= Ceiling(n, desired)
  {
    assert (k + 1) * n == k * n + n;
    QuotientSteps(k * n, n, desired);
    QuotientOf(0, desired, 0);
  }

  /** So no stretch between two sampled candidates, or after the last, is longer than any other by more than one. */
  lemma SampledAreEven(cs: seq<nat>, desired: nat, j: nat)
    requires 0 < desired <= |cs| && Distinct(cs) && j < desired
    ensures var s, here, next := Sampled(cs, desired, desired), SampleIndex(|cs|, desired, j), SampleIndex(|cs|, desired, j + 1);
            && |s| == desired && here < |cs| && s[j] == cs[here]
            && Floor(|cs|, desired) <= next - here <= Ceiling(|cs|, desired)
            && (if j + 1 == desired then next == |cs| else next < |cs| && s[j + 1] == cs[next])
  {
    SampledAreDistinct(cs, desired, desired);
    SamplesAreEven(|cs|, desired, j);
    if j + 1 == desired {
      QuotientOf(|cs|, desired, 0);
      assert desired * |cs| == |cs| * desired + 0;
    }
  }

  // ----- usable domains -----

  lemma {:induction false} UsableMembers(keep: nat -> bool, eligible: seq<nat>, x: nat)
    ensures x in UsableBy(keep, eligible) <==> x in eligible && keep(x)
  {
    if eligible != [] {
      assert eligible == eligible[..|eligible| - 1] + [eligible[|eligible| - 1]];
      UsableMembers(keep, eligible[..|eligible| - 1], x);
    }
  }

  /** Some runnable thread may use a CPU of the domain. */
  ghost predicate HasRoom(topo: Topology, load: Load, d: nat) { exists c :: c in topo.CpusOf(d) && c in UnionAllowed(load) }

  /** A domain that no runnable thread may use is active only if no eligible domain is one that some thread may use. */
  lemma UselessIsNotSelected(topo: Topology, eligible: seq<nat>, load: Load, spread: nat, x: nat, y: nat)
    requires Distinct(eligible) && y in eligible && HasRoom(topo, load, y) && x in Selected(topo, eligible, load, spread)
    ensures HasRoom(topo, load, x)
  {
    UsableMembers(HasSlots(topo, load), eligible, y);
    UsableMembers(HasSlots(topo, load), eligible, x);
    SlotsMeanRoom(topo, load, y);
    SlotsMeanRoom(topo, load, x);
    CandidatesKeepSlots(topo, load, eligible);
    SelectionOfCandidates(topo, load, Candidates(topo, load, eligible), spread);
  }

  lemma SlotsMeanRoom(topo: Topology, load: Load, d: nat)
    requires UnionAllowed(load) != {}
    ensures SlotCpus(topo, d, UnionAllowed(load)) != [] <==> HasRoom(topo, load, d)
  {
    var slots := SlotCpus(topo, d, UnionAllowed(load));
    if slots != [] {
      assert slots[0] in slots;
    }
  }

  // ----- turns and sites -----

  /** Fewer allowed CPUs first; among equals the lower rank; among those the lower id. */
  ghost predicate TighterOrLower(s: Scene, a: nat, b: nat) {
    || |s.Allowed(a)| < |s.Allowed(b)|
    || (|s.Allowed(a)| == |s.Allowed(b)| && s.Rank(a) < s.Rank(b))
    || (|s.Allowed(a)| == |s.Allowed(b)| && s.Rank(a) == s.Rank(b) && a < b)
  }

  /** Threads with fewer CPUs to run on are planned first. */
  lemma TighterIsPlannedFirst(s: Scene, i: nat, j: nat)
    requires i < j < |s.Order()|
    ensures TighterOrLower(s, s.Order()[i], s.Order()[j])
  {
    OrderFacts(s);
    var leq := s.Leq();
    assert leq(s.Order()[i], s.Order()[j]);
  }

  /** The slot at which a turn of the ring from the cursor first meets an allowed one outside `banned`. */
  lemma {:induction false} ScanIsFirst(cpus: seq<nat>, cursor: nat, allowed: set<nat>, banned: set<nat>, k: nat) returns (at: nat)
    requires ScanSlots(cpus, cursor, allowed, banned, k).Some?
    ensures k <= at < |cpus| && cpus[(cursor + at) % |cpus|] == ScanSlots(cpus, cursor, allowed, banned, k).value
    ensures forall j :: k <= j < at ==> cpus[RingAt(|cpus|, cursor, j)] !in allowed || cpus[RingAt(|cpus|, cursor, j)] in banned
    decreases |cpus| - k
  {
    var c := cpus[RingAt(|cpus|, cursor, k)];
    if c in allowed && c !in banned {
      at := k;
    } else {
      at := ScanIsFirst(cpus, cursor, allowed, banned, k + 1);
    }
  }

  /** The slot is met first on a turn of the ring from the cursor, of the allowed ones outside `banned`. */
  ghost predicate FirstMet(cpus: seq<nat>, cursor: nat, allowed: set<nat>, banned: set<nat>, c: nat) {
    exists at: nat :: at < |cpus| && MetAt(cpus, cursor, allowed, banned, c, at)
  }

  ghost predicate MetAt(cpus: seq<nat>, cursor: nat, allowed: set<nat>, banned: set<nat>, c: nat, at: nat)
    requires at < |cpus|
  {
    && cpus[RingAt(|cpus|, cursor, at)] == c && c in allowed && c !in banned
    && forall j :: 0 <= j < at ==> cpus[RingAt(|cpus|, cursor, j)] !in allowed || cpus[RingAt(|cpus|, cursor, j)] in banned
  }

  lemma ScanMeetsFirst(cpus: seq<nat>, cursor: nat, allowed: set<nat>, banned: set<nat>)
    requires ScanSlots(cpus, cursor, allowed, banned, 0).Some?
    ensures FirstMet(cpus, cursor, allowed, banned, ScanSlots(cpus, cursor, allowed, banned, 0).value)
  {
    var at := ScanIsFirst(cpus, cursor, allowed, banned, 0);
    ScanFinds(cpus, cursor, allowed, banned);
    assert MetAt(cpus, cursor, allowed, banned, ScanSlots(cpus, cursor, allowed, banned, 0).value, at);
  }

  /** Within a domain the next unused slot from the cursor is taken, and with none left the next allowed one. */
  lemma SlotsAreTakenInTurn(s: Scene, p: Plan, d: nat, allowed: set<nat>)
    requires s.PickSlot(p, d, allowed).Some?
    ensures var c := s.PickSlot(p, d, allowed).value;
            || FirstMet(s.Slots(d), s.Cursor(p, d), allowed, p.used, c)
            || ((forall x :: x in s.Slots(d) && x in allowed ==> x in p.used) && FirstMet(s.Slots(d), s.Cursor(p, d), allowed, {}, c))
  {
    ScanFinds(s.Slots(d), s.Cursor(p, d), allowed, p.used);
    if ScanSlots(s.Slots(d), s.Cursor(p, d), allowed, p.used, 0).Some? {
      ScanMeetsFirst(s.Slots(d), s.Cursor(p, d), allowed, p.used);
    } else {
      ScanMeetsFirst(s.Slots(d), s.Cursor(p, d), allowed, {});
    }
  }

  /** How many of the first `k` threads are planned in the domain. */
  ghost function SitedIn(domains: map<nat, nat>, order: seq<nat>, k: nat, d: nat): nat
    requires k <= |order|
  {
    if k == 0 then 0 else SitedIn(domains, order, k - 1, d) + (if order[k - 1] in domains && domains[order[k - 1]] == d then 1 else 0)
  }

  lemma {:induction false} LaterSitesDoNotCount(domains: map<nat, nat>, order: seq<nat>, k: nat, d: nat, t: nat, x: nat)
    requires k <= |order| && t !in order[..k]
    ensures SitedIn(domains[t := x], order, k, d) == SitedIn(domains, order, k, d)
  {
    if k > 0 {
      assert order[..k] == order[..k - 1] + [order[k - 1]];
      LaterSitesDoNotCount(domains, order, k - 1, d, t, x);
    }
  }

  lemma ChosenIsPicked(s: Scene, p: Plan, t: nat)
    requires s.topo.Consistent() && t in s.load && s.active != []
    ensures s.Choose(p, t) == s.PickSite(p, t, 0)
  {
    ChooseFacts(s, p, t);
  }

  /** Planning a thread moves the cursor of its domain on by one, and no other. */
  lemma AssignedMovesCursor(s: Scene, p: Plan, t: nat, d: nat)
    requires s.topo.Consistent() && t in s.load && s.active != [] && s.Cursor(p, d) < U64_MAX
    ensures var q, site := s.Assigned(p, t), s.Choose(p, t);
            && q.domains == (if site.Some? then p.domains[t := site.value.domain] else p.domains)
            && s.Cursor(q, d) == s.Cursor(p, d) + (if site.Some? && site.value.domain == d then 1 else 0)
  {
    ChosenIsPicked(s, p, t);
  }

  lemma NextCursorCounts(s: Scene, p: Plan, order: seq<nat>, k: nat, d: nat)
    requires s.topo.Consistent() && s.active != [] && Lists(order, s.load) && k < |order| <= U64_MAX && order[k] !in p.domains
    requires s.Cursor(p, d) == SitedIn(p.domains, order, k, d) <= k
    ensures s.Cursor(s.Assigned(p, order[k]), d) == SitedIn(s.Assigned(p, order[k]).domains, order, k + 1, d) <= k + 1
  {
    var t, site := order[k], s.Choose(p, order[k]);
    AssignedMovesCursor(s, p, t, d);
    assert t !in order[..k];
    if site.Some? {
      LaterSitesDoNotCount(p.domains, order, k, d, t, site.value.domain);
    }
  }

  ghost predicate Counted(s: Scene, order: seq<nat>, d: nat, p: Plan, k: nat) {
    && k <= |order| && s.Cursor(p, d) == SitedIn(p.domains, order, k, d) <= k
    && forall i :: k <= i < |order| ==> order[i] !in p.domains
  }

  lemma NextIsCounted(s: Scene, p: Plan, order: seq<nat>, k: nat, d: nat, step: (Plan, nat) -> Plan)
    requires s.topo.Consistent() && s.active != [] && Lists(order, s.load) && k < |order| <= U64_MAX && Counted(s, order, d, p, k)
    requires step == s.Assigner()
    ensures Counted(s, order, d, step(p, order[k]), k + 1)
  {
    assert step(p, order[k]) == s.Assigned(p, order[k]);
    NextCursorCounts(s, p, order, k, d);
    AssignedMovesCursor(s, p, order[k], d);
  }

  ghost function Counting(s: Scene, order: seq<nat>, d: nat): (Plan, nat) -> bool { (p: Plan, k: nat) => Counted(s, order, d, p, k) }

  lemma AssignerKeepsCount(s: Scene, order: seq<nat>, d: nat, p: Plan, k: nat, step: (Plan, nat) -> Plan, inv: (Plan, nat) -> bool)
    requires s.topo.Consistent() && s.active != [] && Lists(order, s.load) && k < |order| <= U64_MAX
    requires step == s.Assigner() && inv == Counting(s, order, d)
    ensures Keeps(step, order, inv, p, k)
  {
    if inv(p, k) {
      NextIsCounted(s, p, order, k, d, step);
    }
  }

  /** While a plan is built, the cursor of a domain is the number of threads planned in it so far: they are dealt its slots round. */
  lemma CursorsCount(s: Scene, order: seq<nat>, k: nat, d: nat)
    requires s.topo.Consistent() && s.active != [] && Lists(order, s.load) && k <= |order| <= U64_MAX
    ensures Counted(s, order, d, s.PlanOver(order, k), k)
  {
    var step, inv := s.Assigner(), Counting(s, order, d);
    forall p: Plan, j: nat | j < |order| ensures Keeps(step, order, inv, p, j) {
      AssignerKeepsCount(s, order, d, p, j, step, inv);
    }
    assert inv(EMPTY_PLAN, 0);
    FoldKeeps(step, order, inv, k);
  }

  /** No CPU of the domain is allowed to the thread. */
  ghost predicate Closed(s: Scene, tid: nat, d: nat) { forall c :: !Legal(s.topo, c, d, s.Allowed(tid)) }

  lemma {:induction false} SiteIsFirst(s: Scene, p: Plan, tid: nat, offset: nat) returns (at: nat)
    requires s.topo.Consistent() && tid in s.load && s.active != [] && s.PickSite(p, tid, offset).Some?
    ensures offset <= at < |s.active| && s.PickSite(p, tid, offset).value.domain == s.DomainAt(tid, at)
    ensures forall j :: offset <= j < at ==> Closed(s, tid, s.DomainAt(tid, j))
    decreases |s.active| - offset
  {
    PickSlotFacts(s, p, tid, s.DomainAt(tid, offset));
    if s.PickSlot(p, s.DomainAt(tid, offset), s.Allowed(tid)).Some? {
      at := offset;
    } else {
      at := SiteIsFirst(s, p, tid, offset + 1);
    }
  }

  lemma TurnFromRank(n: nat, rank: nat, k: nat)
    requires n > 0
    ensures RingAt(n, rank % n, k) == (rank + k) % n
  {
    var q, r := rank / n, (rank % n + k) % n;
    DivisionSplits(rank, n);
    DivisionSplits(rank % n + k, n);
    var q' := (rank % n + k) / n;
    assert rank + k == (q + q') * n + r by { assert (q + q') * n == q * n + q' * n; }
    RemainderOf(q + q', n, r);
  }

  /** The `k`-th active domain counted from the thread's rank, round and round. */
  ghost function InTurn(s: Scene, tid: nat, k: nat): nat
    requires s.active != []
  {
    s.active[(s.Rank(tid) + k) % |s.active|]
  }

  lemma TurnsAreDomains(s: Scene, tid: nat, k: nat)
    requires s.active != []
    ensures s.DomainAt(tid, k) == InTurn(s, tid, k)
  {
    TurnFromRank(|s.active|, s.Rank(tid), k);
  }

  ghost predicate ClosedBefore(s: Scene, tid: nat, k: nat)
    requires s.active != []
  {
    forall j: nat :: j < k ==> Closed(s, tid, InTurn(s, tid, j))
  }

  lemma SiteIsInTurn(s: Scene, p: Plan, tid: nat) returns (k: nat)
    requires s.topo.Consistent() && tid in s.load && s.active != [] && s.PickSite(p, tid, 0).Some?
    ensures k < |s.active| && s.PickSite(p, tid, 0).value.domain == InTurn(s, tid, k) && ClosedBefore(s, tid, k)
  {
    k := SiteIsFirst(s, p, tid, 0);
    TurnsAreDomains(s, tid, k);
    forall j: nat | j < k ensures Closed(s, tid, InTurn(s, tid, j)) {
      TurnsAreDomains(s, tid, j);
    }
  }

  /** A thread is sent to the first active domain, counted from its rank, that has a CPU for it: crowded ones included. */
  lemma DomainsAreTakenInTurn(s: Scene, p: Plan, tid: nat) returns (k: nat)
    requires s.topo.Consistent() && tid in s.load && s.active != [] && s.Reaches(tid)
    ensures s.Choose(p, tid).Some? && k < |s.active| && s.Choose(p, tid).value.domain == InTurn(s, tid, k) && ClosedBefore(s, tid, k)
  {
    ChooseFacts(s, p, tid);
    k := SiteIsInTurn(s, p, tid);
  }

  /** The thread may run in every active domain. */
  ghost predicate Open(s: Scene, tid: nat) { forall d :: d in s.active ==> !Closed(s, tid, d) }

  lemma OpenThreadReaches(s: Scene, tid: nat)
    requires s.active != [] && Open(s, tid)
    ensures s.Reaches(tid)
  {
    var d := s.active[0];
    assert d in s.active && !Closed(s, tid, d);
  }

  lemma OpenIsNeverSkipped(s: Scene, tid: nat, k: nat)
    requires s.active != [] && Open(s, tid) && ClosedBefore(s, tid, k)
    ensures k == 0
  {
    var d := InTurn(s, tid, 0);
    assert d in s.active && !Closed(s, tid, d);
  }

  lemma OpenThreadGoesToItsRank(s: Scene, p: Plan, tid: nat)
    requires s.topo.Consistent() && tid in s.load && s.active != [] && Open(s, tid)
    ensures s.Choose(p, tid).Some? && s.Choose(p, tid).value.domain == InTurn(s, tid, 0)
  {
    OpenThreadReaches(s, tid);
    var k := DomainsAreTakenInTurn(s, p, tid);
    OpenIsNeverSkipped(s, tid, k);
  }

  /** Threads open to all are dealt round the active domains: they share one only if their ranks are a multiple of the number of domains apart. */
  lemma OpenThreadsAreDealtRound(s: Scene, p: Plan, q: Plan, a: nat, b: nat)
    requires s.topo.Consistent() && a in s.load && b in s.load && s.active != [] && Distinct(s.active) && Open(s, a) && Open(s, b)
    ensures s.Choose(p, a).Some? && s.Choose(q, b).Some?
    ensures s.Choose(p, a).value.domain == s.Choose(q, b).value.domain <==> s.Rank(a) % |s.active| == s.Rank(b) % |s.active|
  {
    OpenThreadGoesToItsRank(s, p, a);
    OpenThreadGoesToItsRank(s, q, b);
  }
}
