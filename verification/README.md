# A model of cSwitch's controllers, and what they guarantee

cSwitch is a user-space scheduler for `sched_ext`. Around its deterministic decisions there is a shell of
samplers, BPF maps and processes; this project models the decisions themselves and proves what they promise:

* **Villain control** (`Contenders`, `VillainLatch`, `VillainLaw`, `TokenBucket`, `BucketLaw`): the streaming choice
  of a dominant thread per link, the latch that holds it, and the token bucket that slows it down with a watchdog
  against starving it.
* **CPU ownership** (`Nsdi`, `NsdiLaw`, `NsdiGrantLaw`, `NsdiStatic`): the release and grant passes over
  per-application CPU sets, and the static split they start from.
* **Domain spread** (`ArcasSpread`, `ArcasSelect`, `ArcasPlan`, `SpreadLaw`, `ArcasControl`, `ArcasLaw`): the least
  number of domains that covers the runnable threads, the domains selected, the target plan, and the controller around
  them.
* **Reservations** (`Ledger`, `BurstPlan`, `BurstLaw`, `DomainSnapshot`, `MigrationLedger`, `DomainLaw`): the map from
  thread to CPU with its index of job lists, the burst reservations, and the planned domains with their migration
  budgets.
* **Link evidence** (`Apportion`, `Attribution`, `PendingPlan`, `AttributionLaw`, `AttributionTable`; `DecayMath`,
  `EvidenceStore`, `DecayLaw`, `EvidenceTable`): splitting a measured change of link traffic over threads, the life of
  a pending attribution, and the decay of evidence that exceeds what a link carries.
* **Placement and dispatch** (`CpuSelect`, `CpuLaw`, `PlacementCost`, `PlacementScene`, `CostLaw`, `Placement`,
  `PlacementMargin`, `PlacementLaw`, `StayLaw`, `PlacementScan`; `PlannedDecision`, `Dispatch`, `DispatchLaw`,
  `DispatchLimits`, `DispatchLoop`, `SettleWindow`, `SettleLimits`, `ReverseGuard`): the decision for one task, and
  whole batches and runs of decisions.
* **Small pieces** (`CpuList`, `Hysteresis`, `HysteresisLaw`): the cpulist printer and parser, and the hot/cool
  filter.

`Machine`, `Arithmetic`, `Ordered`, `Samples`, `HostMapping`, `KeyedTotals` and `SweepTotals` hold what these share.
The modules named `Law` say, in terms of the inputs alone, what must happen and not only what may.
Code of the program that updates state in place is a class or a method proved against a function of the old state;
whole-run statements are lemmas about those functions.

Reading conventions. Thread, CPU, domain and link ids are natural numbers; counters, bandwidths, costs and times are
32- or 64-bit integers with the saturation, wrap-around and truncation of the code written out, in a release build
where the two builds differ. The clock, the samples, the throttle's answer inside the dispatch loop and whether the
kernel takes a task are inputs. `Topology.Consistent` says that the list of CPUs per domain and the domain per CPU
agree and that no CPU is listed twice; an application's id is its index. `usize` is a 64-bit integer.

## Findings

Three promises fail on some input. For each, the code is modelled as it is, an input that fails is given, and the exact
condition under which the promise holds is proved.

* The contender fold returns a winner that does not dominate when the best score is the 32-bit maximum and the
  runner-up is high enough for the saturating threshold to stop at it (`Contenders.SaturationBreaksDominance`,
  `Contenders.WinnerIsDominant`). Its result depends on the order of the threads exactly when two of them score that
  maximum (`Contenders.WinnerIgnoresOrder`).
* Decay can leave a link above its cap, because a saturated sum of the prior evidence scales too little away
  (`EvidenceStore.DecayMissesCap`). It does so exactly when the scaled contributions before the last exceed the cap,
  or the cap is itself the 32-bit maximum and the saturated sum passes for less (`EvidenceStore.DecayCapsTotal`); it does
  not when the contributions before the last fit in 32 bits and the cap is below that maximum
  (`EvidenceStore.DecayCapsWhenOthersFit`).
* A settle window that would end past the 64-bit clock wraps around and is over before it starts
  (`SettleWindow.WindowIsKept`); a thread can then move there and back at one and the same time
  (`SettleLimits.OverrunWindowHoldsNothing`).

Two functions break their promise on inputs that the program never gives them.

* The hot/cool filter's weighted sum wraps in 32 bits (`Hysteresis.SmoothingWraps`); the mean is right exactly when the
  sum fits (`Hysteresis.SmoothedIsMean`). All samplers clamp what they feed it to 10 000 (src/df_ccm_sampler.rs:94-101,
  src/df_cs_sampler.rs:82-89, src/llc_sampler.rs:63-68), and then it never wraps (`Hysteresis.SmoothingIsSafe`).
* The margin comparison asks for less than the margin when cost times margin does not fit in 64 bits
  (`PlacementCost.SaturationShrinksMargin`), for some candidate exactly when the nominal gain is more than a
  ten-thousandth of the 64-bit range (`PlacementCost.MarginIsRelativeGain`). In a placement no move gains that much
  while there is a margin to clear, so every verdict there is the nominal one (`PlacementMargin.PlacementMarginIsNominal`,
  `PlacementMargin.ChosenOnNominalMargin`).

The guard against sending a thread straight back decides nothing in the dispatch loop: its multiplier is 1
(src/app.rs:111), so it ends with the settle window, which is looked at first, and a task out of service is not guarded
(`ReverseGuard.ReverseGuardIsSubsumed`).

Two limits of the migration budgets are stated as well: a task that starts out of service ignores them
(`DispatchLimits.EscapeKeepsBudgets`, `DispatchLimits.EscapeOverrunsBudget`), and an idle spread is not counted
(`DispatchLimits.SpreadIsNotCounted`).

## Model

| member | source | states |
|---|---|---|
| Contenders.LinkContenders.Push | src/villain_control.rs:25-37 | one contender pushed in place is one step of the streaming fold |
| Contenders.LinkContenders.Winner | src/villain_control.rs:39-55 | the object's verdict is the fold's verdict, with the wrapped and saturated threshold of the code |
| Contenders.TallySummarises | src/villain_control.rs:25-37 | after any stream, the tally holds a top scorer, the greatest score among all the others, and the count |
| Contenders.WinnerIsDominant | src/villain_control.rs:17-56 | a winner is returned iff two threads score and one beats every other by one and by a tenth, exactly when saturation at the 32-bit maximum does not decide; and it is that thread |
| Contenders.WinnerIgnoresOrder | src/villain_control.rs:17-56 | the winner depends on the order of the threads exactly when two different ones score the 32-bit maximum |
| Contenders.SaturationBreaksDominance | src/villain_control.rs:43-50 | two threads at the 32-bit maximum: whichever is visited later is returned though neither dominates |
| Contenders.TopContender | src/villain_control.rs:568-586 | the loop over threads returns the fold's winner of the link's scores |
| Contenders.ScoresAreEvidence | src/villain_control.rs:568-580 | the scores compared are exactly those of the threads with evidence on the link |
| Contenders.TopContenderDominates | src/villain_control.rs:568-586 | on any list of threads, unless saturation decides, a link has a top contender iff one of the threads with evidence on it dominates the others, and it is that thread |
| Contenders.ChooseLinkVillains | src/villain_control.rs:544-588 | each link gets its fresh villain, the contender or else the fallback, and only victim links under live overload get one |
| VillainLatch.LinkStepLawful | src/villain_control.rs:258-404 | one round on one link: kept only while live and before the deadline, given up only with one ending event for it, acquired only from the newcomer with a new epoch, never in the round of a release |
| VillainLaw.ActionsExactlyWhen | src/villain_control.rs:258-404 | both ways, from the latch and the inputs: the villain is invalidated iff its thread is not live, released iff it is live and the clear samples including this one are enough, expires iff neither and its hold is over, is logged as held iff it stays under a new sample, and a newcomer is acquired iff there is one and the latch is empty, dead or run out; and which latch each case leaves |
| VillainLatch.NextIsLinkwise | src/villain_control.rs:227-407 | a round reports, changes and logs exactly the per-link steps; the effective villain of each in-range link is its latched contender |
| VillainLatch.LatchHistory | src/villain_control.rs:227-407 | over any run with throttling on, every latched villain was the newcomer of one round, has been live and before that round's deadline ever since, and counts the distinct clear samples since the last overload |
| VillainLaw.EmptyLatchAcquires | src/villain_control.rs:382-403 | after any run, an empty in-range latch takes the round's newcomer and reports it |
| VillainLaw.EmptyOnlyAfterRelease | src/villain_control.rs:291-403 | after any run, where there is a newcomer only a release leaves the latch empty |
| VillainLaw.HeldVillainStays | src/villain_control.rs:273-380 | after any run, a villain alive, not cleared and not out of time stays latched and reported, whoever else comes |
| VillainLaw.OffReportsNewcomers | src/villain_control.rs:227-251 | with throttling off every latch is dropped and every link reports its newcomer |
| VillainLatch.ReleaseNeedsClearSamples | src/villain_control.rs:291-311 | a release needs the configured number of clear samples, with no overload sample between |
| VillainLatch.ClearTraceIsDistinct | src/villain_control.rs:291-297 | with a forward-moving sampler those samples have distinct timestamps |
| VillainLatch.AcquireUnderOverload | src/villain_control.rs:544-588 | fed by the chooser on the same inputs, every acquire is of a victim link under live overload |
| VillainLatch.EpochsIdentifyVillains | src/villain_control.rs:222-225 | until the counter saturates, latched villains carry distinct epochs |
| VillainLatch.CsVillainLatchController.Reconsider | src/villain_control.rs:271-380 | ending or holding one latch in place is the first half of the link's step |
| VillainLatch.CsVillainLatchController.EffectiveVillains | src/villain_control.rs:227-407 | the controller object does exactly one round, on all links, sharing one epoch counter |
| TokenBucket.TokensAreConserved | src/villain_control.rs:437-499 | what a thread has paid plus the tokens left never exceeds the capacity plus the accrued refill |
| TokenBucket.RateBound | src/villain_control.rs:410-499 | slice time paid from tokens on one link is at most capacity plus elapsed time over the divisor |
| TokenBucket.WatchdogBound | src/villain_control.rs:462-499 | over any interleaving, watchdog-forced slices number at most one per full second elapsed |
| TokenBucket.DeferralIsBounded | src/villain_control.rs:429-522 | the defer counter is the length of the unbroken streak, and no defer comes a second or more after the first of its streak |
| TokenBucket.FreshLinkIsServed | src/villain_control.rs:437-460 | a thread that becomes the villain of another link starts with a full bucket and pays |
| BucketLaw.FundsDecide | src/villain_control.rs:437-499 | a call on the same link pays iff the tokens left plus the accrued refill cover a slice, and keeps exactly the rest; else it waits until a second has passed since the first wait, and is then forced |
| BucketLaw.WaitingBuysASlice | src/villain_control.rs:437-480 | over a run on one link, a call that comes a slice times the divisor after the last one always pays |
| BucketLaw.BurstIsServed | src/villain_control.rs:437-480 | a bucket new to a link pays for as many calls in a row as its capacity holds slices, however fast they come |
| TokenBucket.ThrottleEntry.Refill | src/villain_control.rs:437-460 | the refill in place is the bucket's refill |
| TokenBucket.ThrottleEntry.ApplyThrottle | src/villain_control.rs:462-499 | one throttle decision in place: pay, be forced, or defer |
| TokenBucket.ThrottleEntry.MaybeApply | src/villain_control.rs:501-522 | the guarded entry point in place is one call of the run |
| Nsdi.ChooseRevocableIsLeast | src/app_nsdi.rs:304-342 | the CPU revoked is the unique least revocable one, and there is one iff some owned CPU is revocable |
| Nsdi.RoundKeepsPartition | src/app_nsdi.rs:291-302 | a round keeps ownership disjoint inside the eligible set, with free and owned together all eligible CPUs |
| Nsdi.RoundMovesAtMostOne | src/app_nsdi.rs:373-478 | each application keeps its CPUs, loses one of them, or gains one free CPU |
| Nsdi.PendingKeepsACpu | src/app_nsdi.rs:376-404 | an application with pending work and a CPU never drops to none |
| Nsdi.StarvedMeansFull | src/app_nsdi.rs:406-476 | pending work is left without a CPU only if every eligible CPU has an owner |
| Nsdi.GrantsByPriority | src/app_nsdi.rs:406-476 | with low at most high, the i-th in priority order gets the i-th smallest free CPU while CPUs last, and everyone else keeps what the release left |
| Nsdi.NoDonorRemains | src/app_nsdi.rs:423-463 | the donor branch of the grant pass is dead: such a donor already released in the same round |
| NsdiLaw.RevokeKeyIsOrder | src/app_nsdi.rs:328-342 | the key gives up an idle CPU before a busy one, then fewer planned jobs, less use, a shorter queue, the lower id |
| NsdiLaw.ReleasesExactlyWhen | src/app_nsdi.rs:373-404 | an application gives up exactly one CPU, the first by that order, iff its delay is under the low mark, pending work would not be stranded and some owned CPU is idle, has at most one planned job or runs nothing; otherwise it is unchanged |
| NsdiLaw.PoolFeedsStarving | src/app_nsdi.rs:406-476 | when the pool holds a CPU for each application with pending work and none, each of them gets one |
| NsdiLaw.SpareFeedsStarving | src/app_nsdi.rs:373-476 | an application with a CPU to spare feeds a single starving one in the same round |
| NsdiGrantLaw.GrantsExactlyWhen | src/app_nsdi.rs:406-476 | for any marks, an application in need gets a CPU iff the pool holds more than there are applications in need before it, by no CPU, then delay, then id, and which CPU; everyone else keeps what the release left |
| Nsdi.ReleasePhase | src/app_nsdi.rs:373-404 | the release loop in place leaves the released applications, the free pool and the set of releasers |
| Nsdi.ServeOne | src/app_nsdi.rs:420-476 | one waiting application in place: the least free CPU, or nothing |
| Nsdi.GrantPhase | src/app_nsdi.rs:406-476 | the grant loop in place deals the pool to the waiting applications in order |
| Nsdi.RunDelayRange | src/app_nsdi.rs:359-479 | the whole controller in place is one round, and reports a change only if there was one |
| NsdiStatic.InitializeStaticPartition | src/app_nsdi.rs:260-282 | the loop gives application i its stretch of the sorted CPUs |
| NsdiStatic.StaticSplitIsFair | src/app_nsdi.rs:260-282 | the stretches partition the eligible CPUs with none left over, and differ by at most one |
| ArcasSpread.MinDomainsForRunnableLoad | src/app_arcas.rs:153-180 | the loop returns the length of the shortest covering prefix of the ranked capacities, or all domains if none covers |
| ArcasSpread.GreatestBeatAny | src/app_arcas.rs:160-178 | exchange argument: no k capacities sum to more than the k greatest |
| ArcasSpread.TopBeatsAnyChoice | src/app_arcas.rs:160-178 | any distinct eligible domains offer at most as many slots as the same number of top capacities |
| ArcasSpread.FloorIsLeast | src/app_arcas.rs:153-180 | no choice of distinct eligible domains that covers the runnable load is smaller than the floor |
| ArcasSelect.SampledAreDistinct | src/app_arcas.rs:212-219 | even sampling picks distinct domains, as many as asked for |
| SpreadLaw.SampledAreEven | src/app_arcas.rs:212-219 | consecutive samples, and the last one and the end, are the floor or the ceiling of n over desired apart |
| SpreadLaw.UselessIsNotSelected | src/app_arcas.rs:182-236 | a domain that no runnable thread may use is active only if no eligible domain is one that some thread may use |
| ArcasSelect.SelectActiveDomains | src/app_arcas.rs:182-236 | the loops return the sampled domains if they cover the load, and otherwise the widest |
| ArcasSelect.SelectionSize | src/app_arcas.rs:182-236 | the choice is min(spread, candidates) distinct eligible domains |
| ArcasSelect.SelectionCovers | src/app_arcas.rs:182-236 | with spread at least the floor and enough slots overall, the selected domains have a slot per runnable thread |
| ArcasPlan.ChooseFacts | src/app_arcas.rs:285-328 | a thread gets a site iff it reaches an active domain, a legal one, shared only if every CPU it may use there is taken; the last sweep over allowed CPUs never adds anything |
| ArcasPlan.TargetPlanIsSound | src/app_arcas.rs:247-339 | the plan has an entry exactly for the threads whose affinity meets an active domain, each legal in its domain, and a CPU is shared only when nothing is left there for the thread |
| SpreadLaw.TighterIsPlannedFirst | src/app_arcas.rs:263-274 | threads with fewer allowed CPUs are planned first, then lower ranks, then lower ids |
| SpreadLaw.DomainsAreTakenInTurn | src/app_arcas.rs:285-315 | a thread goes to the first active domain, counted from its rank, that has a CPU for it |
| SpreadLaw.OpenThreadsAreDealtRound | src/app_arcas.rs:285-315 | threads that may run everywhere share a domain iff their ranks are congruent modulo the number of active domains |
| SpreadLaw.SlotsAreTakenInTurn | src/app_arcas.rs:295-308 | in a domain the next unused allowed slot from the cursor is taken, and with none left the next allowed one |
| SpreadLaw.CursorsCount | src/app_arcas.rs:276-335 | while a plan is built, a domain's cursor is the number of threads planned in it so far |
| ArcasPlan.FindSlot | src/app_arcas.rs:296-310 | the two passes from the cursor find the slot: first an unused CPU, then any allowed one |
| ArcasPlan.BuildTargetPlan | src/app_arcas.rs:247-339 | the nested loops over cursors and used CPUs compute the plan |
| ArcasControl.NextSpreadIsSafe | src/app_arcas.rs:98-114 | the spread stays in range and covers the floor as far as the configured maximum allows |
| ArcasLaw.RemoteMeansFill | src/app_arcas.rs:341-354 | the signal is up iff the near-cache fills of the runnable threads sum to the threshold or more |
| ArcasLaw.RemoteFillGrows | src/app_arcas.rs:432-456 | on an adjusting round under remote fill the spread never falls, and rises by exactly the step or reaches the maximum |
| ArcasLaw.NoRemoteFillShrinks | src/app_arcas.rs:432-456 | without it the spread never rises above what the round requires, and falls by the step or reaches the greater of floor and minimum |
| ArcasLaw.MostIsReachedInTime | src/app_arcas.rs:409-470 | over any run of adjusting rounds under remote fill the maximum is reached within the ceiling of its distance over the step |
| ArcasLaw.NoFillDescends | src/app_arcas.rs:409-470 | over any run without it the spread goes down by the step each round until it rests at the least one |
| ArcasControl.RerankedFacts | src/app_arcas.rs:388-407 | forgetting absent threads and ranking new ones keeps every rank in use and ranks exactly the given threads |
| ArcasControl.RecomputedTargetsCover | src/app_arcas.rs:409-470 | whenever targets are recomputed with a maximum at least the floor and enough slots in all eligible domains, the active domains have a slot per runnable thread |
| ArcasControl.ArcasController.Reconcile | src/app_arcas.rs:387-407 | ranks are pruned and extended in place |
| ArcasControl.ArcasController.MaybeRebalance | src/app_arcas.rs:368-472 | the controller in place: spread, floor, active domains and targets of one call, that it reports an adjustment iff the spread changed on the way, and that the targets are recomputed iff they are outdated, the spread had to move or the interval has passed |
| Ledger.RemoveJobRemoves | src/app.rs:766-773 | swap-removal deletes exactly one thread and keeps a list duplicate-free |
| Ledger.AssignKeepsAgreement | src/app.rs:784-800 | re-homing a thread keeps each CPU's job list duplicate-free and equal to the threads the map sends there |
| Ledger.SnapshotAgrees | src/app.rs:561-573 | the snapshot's job lists agree with its map |
| Ledger.ReplayAgrees | src/app.rs:784-800 | after a snapshot and any sequence of assignments the index agrees with the map |
| BurstPlan.ServingOrderFacts | src/app.rs:588-625 | every qualifying thread is served once, the most constrained first |
| BurstLaw.TighterIsServedFirst | src/app.rs:588-625 | a thread with fewer candidate CPUs is served first, then the one with fewer allowed CPUs, then the earlier task |
| BurstPlan.ChooseIsLegal | src/app.rs:635-678 | a qualifying thread always gets a CPU, and one it may use in its target domain |
| BurstPlan.BurstIsSound | src/app.rs:575-681 | a burst reserves exactly for the threads that qualify, each a CPU in the thread's affinity and planned domain; the ledger records it and stays consistent |
| BurstLaw.ServedInTurn | src/app.rs:627-681 | each thread gets the CPU chosen in its turn, from a ledger that shows those served before it where they were reserved and everyone else as before |
| BurstLaw.FixedIsHonoured | src/app.rs:635-644 | a fixed target that is a candidate CPU is the one reserved |
| BurstLaw.PlannedCpuIsKept | src/app.rs:645-662 | otherwise a CPU already planned is kept while it can be used in the domain |
| BurstLaw.PlannedDomainIsUsed | src/app.rs:588-625 | a thread planned in a legal domain is served, and there |
| BurstPlan.Reservations.FromSnapshot | src/app.rs:374-395 | the constructor lists every planned thread under its CPU |
| BurstPlan.Reservations.CommitCpu | src/app.rs:451-459 | committing a CPU in place is one assignment |
| BurstPlan.Reservations.ReserveBurst | src/app.rs:408-432 | the burst loop in place serves the candidates in order against the ledger as it stands |
| DomainSnapshot.DomainsStart | src/app.rs:481-534 | a domain starts with exactly the threads planned there and the new tasks running there, no migrations, and a budget for its population |
| DomainLaw.DomainsStartWithResidents | src/app.rs:481-534 | a domain starts with as many tasks as threads reside there and new tasks run there, and a budget of one to four for them |
| DomainLaw.DomainsStartWithPressure | src/app.rs:481-534 | its pressures are the sums over the residents with a valid signature, and new tasks bring none |
| DomainSnapshot.DomainStates.FromSnapshot | src/app.rs:481-534 | the passes over threads, tasks and states build those domains |
| DomainSnapshot.DomainStates.CommitMigration | src/app.rs:707-764 | a migration in place leaves one domain and enters another, unless the task is there already |
| MigrationLedger.MoveConservesTasks | src/app.rs:707-764 | a migration touches only its two domains and conserves their population exactly when the source was believed populated |
| DomainLaw.MoveCarriesPressure | src/app.rs:707-764 | while the source counts the thread and the target has room, a migration carries exactly the thread and its pressure and touches no other domain |
| DomainLaw.ThereAndBack | src/app.rs:707-764 | then moving there and back restores what every domain carries; only the migrations stay counted |
| MigrationLedger.MoveKeepsBudgets | src/app.rs:707-764 | a migration keeps all budgets iff its source and its target have some left |
| Apportion.SharesAreExact | src/app.rs:1673-1686 | the shares of a link delta always sum to the delta |
| Apportion.SharesAreFloors | src/app.rs:1677-1686 | each share but the last is the floor of its proportional part |
| Apportion.LastShareIsClose | src/app.rs:1677-1686 | the last share is at least its floor |
| Attribution.WeightsAreSound | src/app.rs:1183-1248 | every weighted thread is armed and live, weighs between the minimum and the 32-bit maximum, and is listed once, so the total is positive |
| AttributionLaw.WeighsExactly | src/app.rs:1183-1200 | a change has a weight iff it is at least one and a half hundredths of its base, and the weight is its ten-thousandths rounded down |
| AttributionLaw.LargerChangeWeighsMore | src/app.rs:1183-1200 | a larger relative change never weighs less, and has a weight whenever the smaller one has |
| AttributionLaw.WeightsListMovers | src/app.rs:1203-1248 | those charged are exactly the armed and live threads whose own traffic moved with the link far enough to count, by the most specific source in which any did |
| Attribution.WeightsFitWord | src/app.rs:1633-1635 | with 32-bit thread ids the 64-bit total of the weights cannot saturate |
| Attribution.ChargesLand | src/app.rs:1673-1716 | each weighted thread's signature is charged exactly its own share, and the shares add up to the delta |
| AttributionLaw.ChargeMoves | src/app.rs:1250-1301 | a positive share of a rising link moves the evidence a quarter of the way to it, and one of a falling link takes a sixteenth of itself away |
| AttributionLaw.WritesKeepBooks | src/app.rs:1250-1310 | after a charge or a decay the projected pressure is the sum over the links, and the signature is stable iff it has two samples and enough confidence |
| AttributionLaw.TwoChargesAreStable | src/app.rs:1250-1301 | two charges make a new signature stable |
| Attribution.ChargesAreBounded | src/app.rs:1250-1301 | the charges of one delta raise the link's total evidence by at most the link's rise, and leave other links' totals alone |
| Attribution.LinkAppliedIsBounded | src/app.rs:1574-1770 | applying a fresh link, decay included, raises its evidence by at most its rise, not at all when it fell, and no other link's |
| Attribution.FallingLinkIsCapped | src/app.rs:1574-1770 | after applying a link that fell, its evidence is within five quarters of its bandwidth iff the scaled contributions leave room, and so whenever the prior evidence fits in 32 bits |
| PendingPlan.LinksApplyOnce | src/app.rs:1523-1577 | over any run of arm and apply calls, a link is applied at most once for each arming |
| AttributionLaw.ArmsExactlyWhen | src/app.rs:1443-1521 | a plan is armed iff it is another one than the last armed, has a thread seen lately, and some link has a fresh valid sample |
| AttributionLaw.AppliesExactlyWhen | src/app.rs:1523-1553 | in any call of any run a link is applied iff it is still open and has a fresh valid sample newer than its baseline |
| AttributionLaw.EndsExactlyWhen | src/app.rs:1555-1775 | the attribution ends iff its last open links are applied, or none is and its age limit is reached; otherwise exactly those applied are marked |
| PendingPlan.AppliesFromNewerSample | src/app.rs:1523-1553 | a link is applied only from a valid sample newer than its baseline at the arming still in force |
| PendingPlan.EvidenceIsBounded | src/app.rs:1523-1775 | one apply call raises each link's evidence by at most the rise since its baseline, and leaves links without a newer sample alone |
| AttributionLaw.CallMovesEvidence | src/app.rs:1523-1775 | in a call that finds a newer sample of a link that changed, the evidence of every thread with a positive share of it rises toward the share or falls by a sixteenth of it, whatever the other links do |
| PendingPlan.PendingHasWork | src/app.rs:901-914 | what is pending always has a link left to apply |
| PendingPlan.OldPendingEnds | src/app.rs:1555-1571 | past the age limit, a call applies a link or gives the attribution up |
| AttributionTable.Attributor.ArmPlan | src/app.rs:1443-1521 | arming in place: a new plan with candidates and a baseline replaces whatever was pending |
| AttributionTable.TakeShare | src/app.rs:1677-1686 | from the remaining delta and weight, the loop takes exactly the share defined for its position |
| AttributionTable.Attributor.ChargeShares | src/app.rs:1673-1716 | the share loop in place charges every weighted thread |
| AttributionTable.Attributor.ApplyPending | src/app.rs:1523-1775 | the apply call in place: fresh links applied and marked, the rest kept, expired or completed |
| DecayMath.FittingSumsMeetLimit | src/app.rs:1343-1362 | scaling with the remainder for the last contributor meets the limit when the prior sum fits in 32 bits |
| DecayMath.OverflowMissesLimit | src/app.rs:1343-1362 | three saturated contributions end at twice the limit |
| DecayMath.RoomWhenOthersFit | src/app.rs:1351-1362 | the scaled contributions leave room whenever all but the last fit in 32 bits and a sum above the limit is recognised |
| DecayLaw.LoweredIsClose | src/app.rs:1343-1362 | contributions above the limit are left at the limit, with the last one kept whole, or short of it by less than their number |
| EvidenceStore.DecayOnlyLowers | src/app.rs:1318-1396 | decaying a link raises no contribution and touches no other link |
| EvidenceStore.DecayCapsTotal | src/app.rs:1318-1396 | afterwards the evidence of valid threads is within the cap iff the scaled contributions leave room for the last, and so whenever the prior sum fits in 32 bits |
| EvidenceStore.DecayCapsWhenOthersFit | src/app.rs:1318-1396 | the cap is met when the contributions before the last fit in 32 bits and the cap is below the 32-bit maximum |
| DecayLaw.DecayIsClose | src/app.rs:1318-1396 | a link above its cap is left with a total at least the cap less the number of contributors, and under the cap only with the last contributor unchanged |
| DecayLaw.DecayKeepsProportion | src/app.rs:1318-1396 | a total that fits in 32 bits leaves each contributor but the last the floor of its part of the cap |
| EvidenceStore.DecayMissesCap | src/app.rs:1318-1396 | the evidence of any three threads that hold a full word each is decayed to twice the cap |
| EvidenceStore.SweepCapsLinks | src/app.rs:1398-1437 | after a sweep a link with a fresh valid sample holds at most five quarters of its bandwidth iff its scaled contributions left room, and so whenever its prior sum fits in 32 bits |
| DecayLaw.SweepIsClose | src/app.rs:1398-1437 | after a sweep a link that was above its cap holds more than the cap less the number of its contributors |
| EvidenceStore.SweepNeverRaises | src/app.rs:1398-1437 | no thread's contribution grows on any link |
| EvidenceStore.SweepKeepsSmallLinks | src/app.rs:1398-1437 | links already under the cap, or without a fresh sample, are unchanged |
| EvidenceTable.Signatures.DecayLinkEvidence | src/app.rs:1318-1396 | the contributor loop in place is the decay of the link |
| EvidenceTable.Signatures.DecayToCurrentSamples | src/app.rs:1398-1437 | the loop over samples in place is the sweep |
| CpuSelect.ChooseCpuIsLeast | src/policy/cpu_select.rs:66-99 | a CPU is chosen iff the domain has an allowed one, and it is the unique least by the busy key |
| CpuLaw.BusyKeyIsBetterOff | src/policy/cpu_select.rs:66-99 | the key means: an idle CPU before a busy one, the thread's own before others, then the less loaded one |
| CpuLaw.ChosenIsBestOff | src/policy/cpu_select.rs:66-99 | so no allowed CPU of the domain is better off than the chosen one, and an idle one is never passed over for a busy one |
| CpuSelect.ChooseInDomainIsLegal | src/app.rs:4851-5026 | the chain of preferences names an allowed CPU of the domain, and names one whenever there is one |
| CpuLaw.IdleStays | src/app.rs:4851-5026 | a task on an idle allowed CPU of the domain that is not promised to others stays on it |
| CpuLaw.TakenMovesToIdle | src/app.rs:4851-5026 | a task whose CPU another thread has taken goes to an idle one of the domain, if there is one |
| CpuSelect.PreferredIsLegal | src/app.rs:4588-4650 | a reserved CPU is used only if it is an allowed CPU of the selected domain |
| CpuLaw.ReservedIsUsed | src/app.rs:4588-4650 | a reserved CPU is used when it is legal, lightly used, not taken and not promised to others, and never when one of the first three fails or exactly one other thread is promised it |
| PlacementCost.SlotsCountExtraTasks | src/policy/candidate.rs:147-161 | a domain is over capacity iff it has more tasks than allowed CPUs, and by how many |
| PlacementCost.BetterIsLex | src/policy/candidate.rs:60-76 | being better is the lexicographic order of slot constraint, soft cost and tie-break, total on distinct CPUs |
| PlacementCost.MarginIsRelativeGain | src/policy/candidate.rs:111-129 | at an equal slot constraint every candidate is asked for the nominal gain iff that gain is at most a ten-thousandth of the 64-bit range; above it, one that gains just so much clears the margin |
| PlacementCost.MarginBeyondTheWhole | src/policy/candidate.rs:111-129 | up to a margin of 10 000 the nominal gain is that part of the cost; from there on only a zero soft cost gains it |
| PlacementCost.LargerMarginIsStricter | src/policy/candidate.rs:111-129 | what clears a margin clears every smaller one |
| PlacementCost.SaturationShrinksMargin | src/policy/candidate.rs:121-128 | of the comparison alone: where the product saturates, a fifth is asked for and a five-thousandth suffices |
| PlacementCost.BestIgnoresOrder | src/policy/candidate.rs:250-260 | the best of candidates on distinct CPUs does not depend on the order they are noted in |
| CostLaw.OverloadsAreExcess | src/policy/pipeline.rs:1027-1108 | the overloads compared are the excesses of the two domains as they are and once the traffic has moved |
| CostLaw.RoomRelievesOverload | src/policy/pipeline.rs:1027-1108 | moving to a domain with room relieves exactly as much overload as the traffic and the overload allow |
| CostLaw.EveningLowersPair | src/policy/pipeline.rs:98-122 | a move that evens two domains out never raises their pair penalty, and lowers it strictly when the source is above the deadband |
| CostLaw.PressureGrows | src/policy/pipeline.rs:161-182 | more overload, a worse pair or a fuller source never costs less |
| CostLaw.MarginShrinks | src/policy/pipeline.rs:279-291 | the margin in force is the configured one at an idle source, shrinks as the source fills, and is gone at a full one |
| CostLaw.PhaseComesRound | src/policy/pipeline.rs:249-277 | of any run of ticks as long as the phase modulus one lets a gated move pass |
| CostLaw.PhaseComesOnce | src/policy/pipeline.rs:249-277 | and no two do while the source is not overloaded |
| Placement.BestIsOrderFree | src/policy/pipeline.rs:941-1203 | the candidate chosen is the same whatever order the eligible domains are visited in |
| Placement.BestBeatsAll | src/policy/pipeline.rs:941-1203 | it strictly beats every other domain's candidate under slot constraint, soft cost and tie-break |
| PlacementLaw.ScanKeepsCandidates | src/policy/pipeline.rs:941-1203 | the scan keeps exactly the domains that are eligible and freshly sampled with a CPU for the task, and for a task in service are others, have budget left, and offer a move that is worthwhile, in its turn, and no forbidden way back |
| PlacementLaw.BestIsLeastCandidate | src/policy/pipeline.rs:941-1203 | the best is the candidate before all others |
| Placement.FinalBaselineAgrees | src/policy/pipeline.rs:1257-1323 | for a source in service the baseline recomputed for the chosen candidate equals the one used in the scan, so the candidate beats it |
| Placement.ChosenMovesOrMissesMargin | src/policy/pipeline.rs:1324-1403 | so the second "not better" answer is unreachable: the task moves iff the margin is cleared |
| PlacementLaw.LeavesExactlyWhen | src/policy/pipeline.rs:784-1403 | a task in service that does not spread, is out of its window, active, with a signature and budget left moves to a cooler domain iff there is a candidate and the least one relieves slots or gains the nominal margin; and it goes to that candidate's domain and CPU |
| PlacementLaw.InServiceLeaves | src/policy/pipeline.rs:1257-1403 | with a least candidate, such a task leaves for it or misses the margin, and what the decision then says |
| PlacementLaw.OutOfServiceEscapes | src/policy/pipeline.rs:972-1428 | a task in an excluded domain that does not spread escapes to its least candidate |
| PlacementLaw.UnweighedRemains | src/policy/pipeline.rs:820-940 | a task in service that settles, is cold, or has no signature stays for that reason, and one whose domain has no budget left stays for that |
| PlacementLaw.NoCandidateRemains | src/policy/pipeline.rs:1203-1245 | without a candidate the task stays, throttled iff a villain's reslice asked and its source is overloaded |
| StayLaw.ReasonToStay | src/policy/pipeline.rs:1203-1245 | and the reason it gives tells what the other domains offered: nothing at all, nothing but spent budgets, some move that relieves nothing, else one whose turn has not come, else one that would undo the last migration |
| StayLaw.StrandedKeepsCpu | src/policy/pipeline.rs:569-736 | a task without an allowed CPU in its domain keeps the CPU it is on |
| PlacementMargin.PairGainIsSmall | src/policy/pipeline.rs:98-122 | moving one load between two domains lowers their weighed pair penalty by at most nine tenths of the most it can be |
| PlacementMargin.MovesGainLittle | src/policy/pipeline.rs:169-182 | with the source below capacity no move gains a ten-thousandth of the 64-bit range |
| PlacementMargin.PlacementMarginIsNominal | src/policy/pipeline.rs:1350-1356 | at an equal slot constraint a move weighed in a placement clears the margin iff it gains it nominally, saturation or not |
| PlacementMargin.ChosenOnNominalMargin | src/policy/pipeline.rs:1324-1403 | a task in service leaves for its best candidate iff that relieves slots or gains the nominal margin, and otherwise misses the margin |
| Placement.CoolerMoveIsBetter | src/policy/pipeline.rs:820-1403 | every move to a cooler domain strictly beats staying, does not worsen the slot constraint, passes all guards, and respects settle window and budgets; cold tasks and tasks without a valid signature stay |
| Placement.CoolerMoveHasCause | src/policy/pipeline.rs:184-247 | without overload it relieves slots or reaches an idle CPU the source cannot offer; with overload it improves slots or pressure; undoing a protected move needs an overloaded source |
| Placement.CoolerMoveNeverCrowds | src/policy/pipeline.rs:1049-1080 | the slot constraints compared count the tasks without a CPU of their own before and after this one task moves, and a cooler move never adds to them |
| Placement.MovesAreLegal | src/policy/pipeline.rs:784-1428 | every spread, cooler move and escape names an allowed CPU inside the selected eligible domain |
| Placement.StaysAreLegal | src/policy/pipeline.rs:569-736 | staying keeps the domain, on an allowed CPU of it whenever there is one |
| Placement.SpreadIsIdle | src/policy/pipeline.rs:369-440 | a spread target is an idle allowed CPU of an eligible domain, and not where the task is |
| Placement.SpreadInIsLeast | src/policy/pipeline.rs:382-434 | among the domains whose best CPU is idle, the spread picks the one with the fewest tasks, ties broken by the rest of its key |
| PlacementLaw.SpreadsWhenSomeCpuIsIdle | src/policy/pipeline.rs:369-440 | there is a spread target iff some eligible domain has an idle CPU the task may use, eligible CPUs first |
| PlacementLaw.NewSpreads | src/policy/pipeline.rs:784-819 | a task woken at most four times without two samples goes to its spread target, whatever else holds |
| PlacementScan.CandidateScan.ScanDomains | src/policy/pipeline.rs:941-1203 | the scan loop keeps the best candidate and records exactly the kinds of block that occurred |
| PlacementScan.FindSpread | src/policy/pipeline.rs:382-434 | the spread loop finds the least loaded domain whose best CPU is idle |
| PlacementScan.ChoosePlacement | src/policy/pipeline.rs:484-1428 | the decision with its loops is the decision function |
| PlannedDecision.PlannedIsConsiderate | src/app.rs:5766-5850 | a plan entry is followed only outside the settle window and within both budgets, on an allowed CPU of the target domain |
| DispatchLaw.PlanIsFollowed | src/app.rs:5766-5850 | the plan is followed iff it is current and its entry is for a domain with a CPU for the task, and on a move eligible, within budgets, out of the window and no protected way back; it then gives the planned domain, and the planned CPU if usable |
| PlannedDecision.DecideIsConsiderate | src/policy/pipeline.rs:820-986 | so is the fallback policy's migration |
| Dispatch.RevalidationIsIdle | src/app.rs:7363-7385 | deciding a fallback migration again never changes the decision |
| Dispatch.FinalIsConsiderate | src/app.rs:7231-7408 | what is dispatched respects settle window and budgets, through throttle, revalidation and promised CPU |
| Dispatch.SentMovesAreLegal | src/app.rs:7386-7424 | what is dispatched on a move runs on an allowed CPU inside its selected domain |
| DispatchLaw.OutcomeOf | src/app.rs:7213-7519 | a task without affinity is dropped, a throttled one held, and of the others the kernel's answer decides between sent and refused |
| DispatchLaw.SentAsDecided | src/app.rs:7231-7424 | what is sent goes where the plan says iff it may be followed, and where the fallback policy says otherwise |
| DispatchLaw.PromiseIsKept | src/app.rs:7386-7408 | a task sent to a domain in which the CPU promised to it can still be used runs there |
| DispatchLaw.ResliceIsGiven | src/app.rs:7300-7362 | a throttled task that is sent gets the slice of the throttle |
| Dispatch.HandleKeepsBudgets | src/app.rs:7213-7505 | handling one task in service keeps all budgets and counts exactly the migration it sends |
| Dispatch.BatchKeepsBudgets | src/app.rs:7213-7519 | in a batch whose tasks start in domains in service, the migrations sent out of and into each domain are the ones counted, and never above its budget |
| Dispatch.BatchKeepsLedger | src/app.rs:7507-7509 | the CPU ledger agrees with its map through any batch |
| DispatchLaw.LedgerFollowsSent | src/app.rs:7507-7509 | after any part of a batch the ledger sends each thread to the CPU it was last sent to, its decision's or its own, and a thread not sent where it was at the start |
| DispatchLaw.JobsFollowSent | src/app.rs:7507-7509 | and a CPU's job list holds exactly those threads |
| DispatchLaw.CpuStatesFollowSent | src/app.rs:7511-7518 | a CPU is as deep as it was plus the tasks sent to it, and runs the last of them; a CPU nothing was sent to is unchanged |
| DispatchLaw.DomainsFollowMoves | src/app.rs:7501-7505 | a thread is planned where it last migrated to, and else where it was planned at the start |
| DispatchLimits.SpreadIsNotCounted | src/app.rs:802-812 | an idle spread changes no planned domain |
| DispatchLimits.EscapeKeepsBudgets | src/policy/pipeline.rs:972-986 | an escape from a domain out of service keeps the budgets iff both sides have some left, which it does not look at |
| DispatchLimits.EscapeOverrunsBudget | src/policy/pipeline.rs:972-986 | with one domain to escape to, the task is sent there even past the budget |
| DispatchLoop.Dispatcher.HandleTask | src/app.rs:7213-7519 | one iteration of the loop in place, over reservations, CPU states and threads |
| DispatchLoop.Dispatcher.DispatchAll | src/app.rs:7213-7519 | the loop handles the tasks in order up to the first one the kernel refuses |
| SettleWindow.WindowIsKept | src/app.rs:7475-7475 | a settle window has its full length iff its end fits the 64-bit clock; otherwise it is over at once |
| SettleWindow.CoolerMoveWaits | src/app.rs:5798-5810 | a cooler move is sent only after the thread's window, and opens a new one |
| SettleWindow.WindowMoves | src/app.rs:7470-7484 | a turn opens a new window for a thread iff it sends it to another domain, and otherwise leaves its window alone |
| SettleWindow.RelocationsSettle | src/app.rs:7470-7484 | over any run, a thread sent to another domain for any reason is not sent on to a cooler one for the settle time, as long as the windows opened for it fit the clock |
| SettleWindow.CoolerMovesAreApart | src/app.rs:7470-7484 | over any run, two cooler moves of the same tracked thread are at least the settle time apart, by plan or fallback, as long as the windows opened for it fit the clock |
| SettleLimits.OverrunWindowHoldsNothing | src/app.rs:7475-7475 | whenever a window would end past the clock, a two-turn run moves a thread there and back at one time |
| ReverseGuard.LastMigrationIsRecorded | src/app.rs:7470-7484 | a task sent to another domain has that as its last migration, and nothing else changes it |
| ReverseGuard.ReverseGuardIsSubsumed | src/app.rs:7479-7484 | over any batch the guard against going back decides nothing, by plan or fallback, because it ends with the settle window, which answers first |
| CpuList.AddRange | src/host_map.rs:229-238 | the inner loop adds exactly the interval, nothing when it is empty |
| CpuList.ParseCpuList | src/host_map.rs:221-245 | the parsing loop over parts computes the set the text denotes |
| CpuList.CpusToCpuList | src/types.rs:583-603 | the printing loops produce the text of the maximal runs |
| CpuList.RunsAreMaximal | src/types.rs:583-603 | the runs printed are ordered and separated by gaps |
| CpuList.CpuListRoundTrip | src/types.rs:583-603 | parsing the printed list gives back the set, for every finite set of ids, the empty one included |
| Hysteresis.UpdateMetric | src/filter.rs:12-53 | the update by branches is one step of the filter |
| Hysteresis.SmoothedIsMean | src/filter.rs:18-23 | the smoothed value is the weighted mean iff the sum fits in 32 bits, and then lies between old value and sample |
| Hysteresis.SmoothingWraps | src/filter.rs:22-22 | of the function alone: at half weight two values at the 32-bit maximum average to a hundredth of it |
| Hysteresis.SmoothingIsSafe | src/filter.rs:18-23 | with samples up to a hundredth of the 32-bit range nothing ever overflows |
| Hysteresis.CountsGrowSlowly | src/filter.rs:35-50 | the two counts are never both positive and grow by at most one per sample |
| Hysteresis.HotFlipsAreApart | src/filter.rs:35-50 | two flips to hot are at least both persistence windows apart |
| HysteresisLaw.HotWhenPersistent | src/filter.rs:35-50 | a metric is hot after max(1, persistence) consecutive values at or above the hot mark, whatever came before |
| HysteresisLaw.CoolWhenPersistent | src/filter.rs:35-50 | and cool after as many at or under the cool mark |
| HysteresisLaw.HotInSpiteOfDips | src/filter.rs:35-50 | values between the marks delay the switch but do not undo the progress to it |
| HysteresisLaw.OnlyMarksSwitch | src/filter.rs:35-50 | a flip to hot takes a high value and a flip to cool a low one |
| HysteresisLaw.SteadyLoadIsHot | src/filter.rs:12-53 | a new link under steady load at or above the hot mark is hot once it has persisted |

## Left out

- The kernel program, its maps and the BPF glue; the samplers; processes, cgroups, sysfs and arguments: samples, clock and affinity are inputs.
- The planner's optimiser: a plan is an arbitrary map from thread to target.
- Logging, traces, profiling, statistics, and the debug, score and class fields of a decision.
- The signature effect of a thread on a domain is an arbitrary function of task and capacity, fixed during a batch; where a result needs it (`PlacementMargin`), its traffic does not depend on the capacity, as in src/policy/signature.rs:19-58.
- The LLC and fill fields of a thread signature, and signature updates at placement time.
- DomainLaw.MoveCarriesPressure: stated while the source counts the thread and the target's counters have room; otherwise the counters saturate and the pressure is not conserved, which the code accepts.
- Whether the raw current CPU that a task without an allowed CPU in its domain keeps is still a good one.
- CostLaw.EveningLowersPair: like the other results on gains, for a thread whose traffic does not depend on the capacity of the domain.
- The scheduler's own tasks in the dispatch loop, tick holdoff, and the records of recent decisions.
- A task the kernel refuses is handed in again in a later run; its place in the pending queue is not modelled.
- The total of shares of weight zero: the code's branch for it is kept in the model, though weights are never zero.
- Nsdi.GrantsByPriority: for a low threshold above the high one, an application that released in the round is skipped as a recipient, so the first recipients in priority order are not the ones served; NsdiGrantLaw.GrantsExactlyWhen covers that case.
- ArcasControl.RecomputedTargetsCover: threads that arrive between two recomputations get no target until the next one, so the cover is stated at the recomputation.
- SettleWindow.CoolerMovesAreApart: an idle spread may relocate a thread inside its window; the code checks the window after the spread.
