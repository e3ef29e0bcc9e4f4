# Individuality pallets: a Dafny model

This project models four parts of the Individuality runtime and proves what they promise over every
run, for every interleaving of calls and every behaviour of the services they call.

* **Airdrop lifecycle** (`Airdrop*.dfy`). An event goes through eight phases while its registrations,
  winners, entropy, schedule entry and record sit in five tables, and its prizes in a hold shared by
  all events of an asset. `AirdropDraw` is the batched draw, `AirdropEvent` one event as an abstract
  record with its history, `AirdropSystem` the machine over all events and the ledger,
  `AirdropSafety`, `AirdropRuns`, `AirdropFrozen`, `AirdropGates`, `AirdropProgress`, `AirdropTicks`,
  `AirdropFunds`, `AirdropOrigins` and `AirdropObligation` its theorems, `AirdropTables` and `AirdropPallet` the stored tables updated in place and their
  refinement of the machine, `AirdropMigration` the v0 to v1 storage migration.
* **Alias accounts** (`Alias*.dfy`). A two-way map with staleness stamps and references, the two-phase
  sweep, its offchain planner and its gate. The member service answers as it likes in every step.
* **Coinage** (`Paid*.dfy`, `Coin*.dfy`). Paid unload tokens whose consumption records are erased
  later, and the transaction extension's take, restore and lock-out protocol.
* **Keys, sweeps, pages and contexts** (`BigEndian`, `ExpirySweep`, `StorageOrder`, `Chunks`,
  `Contexts`, `Labels`). Fast forms that must refine simple ones.

A state-changing call is a method of a class; its contract equates the new state with a function of
the old one, and the theorems are about that function. Clocks, randomness, ledger answers, proof
verification, the dispatched call and the choice of keys a bounded `clear_prefix` removes are fields
of an environment that may be anything in every step, within what the storage API allows.

Results where the code does not meet the property it might be expected to meet, each with its exact
condition:

* A member can join a period that has already expired, and the current period can be one whose
  collection was deleted, closed to every poll and new member for good, but only from the single
  second 2^32 - 1 on, where the 32-bit expiry time saturates; with a zero period length, from the
  expiry of the only period on (`PaidLifecycle.MembersJoinLivePeriods`,
  `PaidLifecycle.LastSecondJoinsExpired`, `PaidLifecycle.NeverLockedOutIff`). No token is accepted
  twice even then, nor after the 32-bit clock wraps, because the member service never reuses the
  identifier of a deleted collection (`PaidTokens.NeverAcceptedTwice`).
* Deleting a period's collection leaves keys registered for good iff some were still pending or had
  been onboarded into a ring already cleaned (`PaidLifecycle.DeletionLeavesOnlyLost`); two runs show
  it (`PaidLifecycle.PendingKeyIsStranded`, `PaidLifecycle.LateKeyIsStranded`).
* A retry counter can be admitted twice only if the base lock period is zero
  (`CoinLocks.CountersOnceIff`).
* Winners plus claims equal the effective winner count iff no entry was drawn twice
  (`AirdropRuns.ClaimingCountsAgree`). The documented obligation on registering callers ensures it
  (`AirdropObligation.ObligationFillsWinners`); a run that breaks the obligation loses a winner
  (`AirdropObligation.DoubledEntryLosesAWinner`).
* Masking by the page count is the modulus iff the page count is a power of two, and a stored list
  reads back iff it fits the ring (`Chunks.MaskIsModulusIff`, `Chunks.RoundTripIffFits`).
* A context preimage gives its parts back iff the product name holds no dot, which DNS labels never
  do (`Contexts.ParsesBackIffNoDot`).

The comment at pallets/coinage/src/extension.rs:196 calls the back-off quadratic; the code doubles the
lock with every failure, and the model follows the code.

## Model

| member | source | states |
|---|---|---|
| `AirdropDraw.CyclicVisitsOnce` | pallets/airdrop/src/lib.rs:723-726 | the one-shot reference order visits every registered slot exactly once |
| `AirdropDraw.CyclicWrapsAround` | pallets/airdrop/src/lib.rs:723-726 | that order starts strictly after the entropy point, wraps around once and ascends on either side |
| `AirdropDraw.BatchIsNextSlice` | pallets/airdrop/src/lib.rs:719-731 | the walk from the stored cursor starts with the next slots of the one-shot wrap-around order, before and after it wraps, so it never runs dry |
| `AirdropDraw.DrawnExtends` | pallets/airdrop/src/lib.rs:707-754 | a batch turns the winner table of an i-slot one-shot draw into that of an (i+n)-slot draw |
| `AirdropDraw.CrownSound` | pallets/airdrop/src/lib.rs:727-731 | the winner table holds exactly the registrants of the drawn slots, each with a drawn slot it registered |
| `AirdropDraw.CrownFull` | pallets/airdrop/src/lib.rs:727-731 | as many winners as drawn slots iff no entry was drawn twice |
| `AirdropDraw.DrawnAtMost` | pallets/airdrop/src/lib.rs:727-731 | a draw of n slots has at most n winners |
| `AirdropDraw.DrawnFull` | pallets/airdrop/src/lib.rs:1362-1367 | it has n iff the drawn entries are distinct, which holds when every entry determines its slot |
| `AirdropEvent.EffectiveBounds` | pallets/airdrop/src/lib.rs:612-613 | effective winners lie between one and the lesser of `max_winners` and the participants |
| `AirdropEvent.EffectiveWithinCap` | pallets/airdrop/src/lib.rs:612-613 | the count computed at closing is the only one that is at least one, at most `max_winners`, within the cap's share of the participants beyond the first, and as large as that allows |
| `AirdropEvent.StartRegistrationSound` | pallets/airdrop/src/lib.rs:562-573 | opening registration keeps the event invariant and what is owed |
| `AirdropEvent.CloseRegistrationSound` | pallets/airdrop/src/lib.rs:592-638 | closing keeps the invariant, releases exactly the slots no longer owed, and removes an event without participants only with its whole allocation released |
| `AirdropEvent.CaptureEntropySound` | pallets/airdrop/src/lib.rs:655-692 | capturing entropy newer than the watermark keeps the invariant; the history records it once, strictly after the closing |
| `AirdropEvent.DrawBatchExtends` | pallets/airdrop/src/lib.rs:707-754 | a batch never finds the iterator exhausted and leaves the winner table and cursor of a longer one-shot draw |
| `AirdropEvent.DrawBatchSound` | pallets/airdrop/src/lib.rs:707-754 | a batch keeps the event invariant |
| `AirdropEvent.CloseDrawingSound` | pallets/airdrop/src/lib.rs:767-787 | a complete draw becomes the claimable winner table |
| `AirdropEvent.CloseClaimingSound` | pallets/airdrop/src/lib.rs:799-827 | the end of claiming keeps unclaimed slots owed and all counts |
| `AirdropEvent.CleanUpRegistrationsSound` | pallets/airdrop/src/lib.rs:1234-1276 | registrations left plus cleaned equal the total; the phase ends exactly when none is left |
| `AirdropEvent.CleanUpWinnersSound` | pallets/airdrop/src/lib.rs:1280-1317 | winners left plus cleaned plus claimed stay within the effective winners; the phase ends exactly when none is left |
| `AirdropEvent.FinalizeSound` | pallets/airdrop/src/lib.rs:885-907 | removal releases exactly the slots still owed |
| `AirdropEvent.CancelSound` | pallets/airdrop/src/lib.rs:1136-1187 | cancelling in any phase keeps the invariant; slots owed before equal slots owed after plus slots released |
| `AirdropEvent.RegisterSound` | pallets/airdrop/src/lib.rs:1377-1398 | registering a free slot keeps the invariant, the participant count included, and owes nothing more |
| `AirdropEvent.ClaimSound` | pallets/airdrop/src/lib.rs:1525-1535 | a claim takes one winner out of the table and one slot out of what is owed; nobody already paid is in the table |
| `AirdropLedger.ReleaseBound` | pallets/airdrop/src/lib.rs:1549-1604 | a best-effort release never takes more than the slots' worth out of hold, nor any other asset |
| `AirdropLedger.ReleaseExactWhenWilling` | pallets/airdrop/src/lib.rs:1549-1604 | if the release is not refused it takes exactly the slots' worth, refund or not; a source gets all of it back iff the refund is not refused either |
| `AirdropSafety.DebtRemove` | pallets/airdrop/src/lib.rs:1549-1557 | the pot's debt splits into one event's debt and the others', whatever the order of summation |
| `AirdropSafety.CallChangeSound` | pallets/airdrop/src/lib.rs:911-1062 | every authorized lifecycle call is a sound change of its event |
| `AirdropSafety.SettleDebt` | pallets/airdrop/src/lib.rs:1192-1202 | a sound change moves exactly its released slots out of the debt |
| `AirdropSafety.SettleBacked` | pallets/airdrop/src/lib.rs:1549-1604 | settling keeps the hold at or above the debt whatever the ledger answers |
| `AirdropSafety.SettleKeepsInv` | pallets/airdrop/src/lib.rs:885-907 | settling a sound change keeps the system invariant, also when the event is removed |
| `AirdropSafety.ScheduleKeepsInv` | pallets/airdrop/src/lib.rs:1065-1110 | a new event starts with its whole allocation held and owed; a refused one changes nothing |
| `AirdropSafety.ScheduleFundedKeepsInv` | pallets/airdrop/src/lib.rs:1649-1675 | so does scheduling funded by a source account |
| `AirdropSafety.RegisterKeepsInv` | pallets/airdrop/src/lib.rs:1367-1398 | registering keeps the system invariant |
| `AirdropSafety.ClaimDebt` | pallets/airdrop/src/lib.rs:1503-1525 | a claim lowers debt and hold by one prize each and leaves other assets alone |
| `AirdropSafety.ClaimKeepsInv` | pallets/airdrop/src/lib.rs:1477-1545 | claiming keeps the system invariant |
| `AirdropSafety.CallKeepsInv` | pallets/airdrop/src/lib.rs:562-907 | every lifecycle call keeps the system invariant |
| `AirdropSafety.CancelKeepsInv` | pallets/airdrop/src/lib.rs:1113-1187 | cancelling or removing any event keeps the system invariant |
| `AirdropSafety.TranslateKeepsInv` | pallets/airdrop/src/migration.rs:89-107 | the translate pass of the migration keeps it |
| `AirdropSafety.StepKeepsInv` | pallets/airdrop/src/lib.rs:467-907 | every step of every kind keeps it |
| `AirdropSafety.RunKeepsInv` | pallets/airdrop/src/lib.rs:467-907 | so does every run, in any interleaving over any number of events |
| `AirdropRuns.ReleaseNeverSaturates` | pallets/airdrop/src/lib.rs:1558-1558 | no sound change releases an amount at which the saturating product saturates |
| `AirdropRuns.StepKeepsExact` | pallets/airdrop/src/lib.rs:1549-1604 | a step in which no best-effort release is refused keeps hold equal to debt, whatever transfers and claims are refused |
| `AirdropRuns.StepKeepsRefunded` | pallets/airdrop/src/lib.rs:1588-1602 | a step in which neither release nor refund is refused keeps refunds complete |
| `AirdropRuns.RunKeepsExact` | pallets/airdrop/src/lib.rs:1549-1604 | so hold equals debt over every run without a refused release |
| `AirdropRuns.RunKeepsRefunded` | pallets/airdrop/src/lib.rs:1588-1602 | and refunds are complete over every run without a refused release or refund |
| `AirdropRuns.PrizesAlwaysBacked` | pallets/airdrop/src/lib.rs:1065-1110 | in every state of every run the hold of each asset covers what its events owe, with equality while no best-effort release was refused |
| `AirdropRuns.WinnerCapRespected` | pallets/airdrop/src/lib.rs:612-624 | at every closing of every run, of live and removed events, the winner count respects the cap over the registrations present |
| `AirdropRuns.WinnersCanClaim` | pallets/airdrop/src/lib.rs:1477-1545 | a winner claiming in time in any reachable state is paid unless the ledger refuses |
| `AirdropRuns.RemovedEventsAreSettled` | pallets/airdrop/src/lib.rs:885-907 | on every path to removal, slots paid plus released equal `max_winners`, nobody is paid twice, everybody paid was drawn, and a source gets back all unpaid prizes if no release or refund was refused |
| `AirdropRuns.LiveEventsBalance` | pallets/airdrop/src/types.rs:107-172 | of every live event, slots paid, released and owed add up to `max_winners`, and claims stay within the effective winners |
| `AirdropRuns.DrawIsOneShot` | pallets/airdrop/src/lib.rs:707-754 | in every reachable drawing state the winner table is the one-shot draw over the registrations frozen at closing, with entropy newer than the watermark |
| `AirdropRuns.ClaimingCountsAgree` | pallets/airdrop/src/types.rs:139-147 | while claiming, winners plus claims are the drawn entries; they equal the effective winners iff no entry was drawn twice |
| `AirdropRuns.StepKeepsFrozen` | pallets/airdrop/src/lib.rs:627-692 | no step changes captured entropy, nor the registrations and closing of an event between closing and clearing |
| `AirdropFrozen.FrozenOverSegments` | pallets/airdrop/src/lib.rs:627-692 | over any stretch of a run in which an event lives on, its phase only advances, its entropy is written once and stays, and its registrations stay from closing to clearing |
| `AirdropFrozen.StepFreezes` | pallets/airdrop/src/lib.rs:592-638 | an event gets frozen only by the call that closes its registration, with the table it finds |
| `AirdropFrozen.StepCaptures` | pallets/airdrop/src/lib.rs:655-692 | an event gets entropy only by capturing a value newer than its watermark |
| `AirdropFrozen.ClosingExists` | pallets/airdrop/src/lib.rs:627-634 | the registrations of an event from closing to clearing are those present at one earlier closing call of the run |
| `AirdropFrozen.FrozenThenRandom` | pallets/airdrop/src/lib.rs:655-692 | and its entropy was captured by a later call, from a value produced strictly after the moment that closing call recorded |
| `AirdropGates.CallAcceptedIff` | pallets/airdrop/src/lib.rs:911-1062 | a lifecycle call is accepted exactly from a local source, in its phase, from its event's own registration start, draw time or end time on, or with fresher randomness |
| `AirdropGates.NotYetDueIff` | pallets/airdrop/src/lib.rs:921-924 | it is refused as not due exactly in its phase before that time |
| `AirdropGates.WantedIff` | pallets/airdrop/src/lib.rs:423-460 | the worker's scan submits exactly the calls that may happen of events whose registration start, draw time or end time has come, and no idle draw |
| `AirdropGates.BatchTakesUpToLimit` | pallets/airdrop/src/lib.rs:719-726 | a draw batch crowns as many of the remaining winners as the draw limit allows |
| `AirdropGates.StepKeepsWindow` | pallets/airdrop/src/lib.rs:1206-1217 | before an event's next time no step but cancelling or removing it ends its scheduled, registering or claiming phase |
| `AirdropGates.ClaimWindowStaysOpen` | pallets/airdrop/src/lib.rs:998-1013 | over a run, an event in claiming stays there until its end time unless cancelled |
| `AirdropGates.ScheduleAcceptedIff` | pallets/airdrop/src/lib.rs:1065-1110 | scheduling is accepted exactly under the documented terms with the allocation available, then holds exactly it; a refusal changes nothing |
| `AirdropGates.SourcePaysAllocation` | pallets/airdrop/src/lib.rs:1649-1675 | a source pays exactly the allocation into hold, the pot's free balance untouched, and only if the event is scheduled |
| `AirdropGates.RemovalAcceptedIff` | pallets/airdrop/src/lib.rs:1113-1120 | removal is accepted exactly while scheduled and leaves nothing of the event |
| `AirdropGates.CallCarriesCounts` | pallets/airdrop/src/lib.rs:562-907 | prizes are released only at closing and at the end; in between participants, effective winners and claims are carried along |
| `AirdropGates.CancelTerminates` | pallets/airdrop/src/lib.rs:1122-1135 | cancelling removes a scheduled event and sends any other to clean-up, releasing everything at once only while registering |
| `AirdropGates.CancelledPaysNobody` | pallets/airdrop/src/lib.rs:1129-1133 | once cancelled an event never reopens and pays nobody in any continuation of the run |
| `AirdropGates.RegisterAcceptedIff` | pallets/airdrop/src/lib.rs:1377-1398 | registering is accepted exactly while open and the slot free, and adds exactly that entry |
| `AirdropGates.ClaimAcceptedIff` | pallets/airdrop/src/lib.rs:1477-1545 | a claim is accepted exactly for an unpaid winner of an enabled asset before the end time if the ledger pays; at or past it the window is closed |
| `AirdropGates.PaidInsideWindow` | pallets/airdrop/src/lib.rs:1487-1494 | in every run a paid claim lies before the end time and after a closing at the draw time or later |
| `AirdropGates.EnableAcceptedIff` | pallets/airdrop/src/lib.rs:500-521 | an asset is enabled exactly if it was not and the source pays its minimum balance |
| `AirdropGates.FundingStays` | pallets/airdrop/src/lib.rs:140-147 | nothing but disabling an asset changes what it was funded with |
| `AirdropGates.DisableRefundsFunding` | pallets/airdrop/src/lib.rs:523-549 | disabling pays back exactly that, whatever the minimum balance is by then |
| `AirdropProgress.PickedIsAuthorized` | pallets/airdrop/src/lib.rs:428-460 | the call the worker picks for a due event passes its own `authorize_*` check |
| `AirdropProgress.PastEndAlwaysPicked` | pallets/airdrop/src/lib.rs:415-464 | past its end every event is due, and has a call exactly unless it waits for fresh randomness |
| `AirdropProgress.BatchesSpend` | pallets/airdrop/src/lib.rs:1234-1317 | removing a batch with some entries left saves exactly the calls the bound counts |
| `AirdropProgress.CallSpends` | pallets/airdrop/src/lib.rs:911-1062 | an authorized call never adds work to its event, counted in worker calls batch by batch, and the worker's own pick removes some |
| `AirdropProgress.CancelNeverAdds` | pallets/airdrop/src/lib.rs:1136-1187 | cancelling never adds work, and removes some unless the event already terminates |
| `AirdropProgress.StepFuel` | pallets/airdrop/src/lib.rs:415-464 | no step adds work to any live event, and serving it removes some |
| `AirdropProgress.WorkerFinishesEveryEvent` | pallets/airdrop/src/lib.rs:358-366 | an event is gone once its worker call was included as often as its measure says, however other steps interleave |
| `AirdropTicks.TickStaysAuthorized` | pallets/airdrop/src/lib.rs:423-462 | the calls of one tick, applied in order, are each still authorized when their turn comes |
| `AirdropTicks.AuthorizedIsPicked` | pallets/airdrop/src/lib.rs:911-1062 | a call passes its gate only as the worker's own pick, or as a draw already complete |
| `AirdropTicks.StepCostsOrWaits` | pallets/airdrop/src/lib.rs:467-907 | every step of every kind costs a live event work or leaves it waiting for the same call |
| `AirdropTicks.TickCostsWork` | pallets/airdrop/src/lib.rs:415-464 | an event past its end at a tick is gone, or has less work left, once that tick's calls were included among whatever other steps |
| `AirdropTicks.TicksFinishEveryEvent` | pallets/airdrop/src/lib.rs:415-464 | so it is removed after at most its draw batches, clean-up batches and phases many ticks past its end, with fresh randomness when it waits for it |
| `AirdropFunds.TransferConserves` | pallets/airdrop/src/lib.rs:1590-1596 | a transfer keeps each asset's total supply |
| `AirdropFunds.ReleaseConserves` | pallets/airdrop/src/lib.rs:1549-1604 | releasing and refunding prizes keeps each asset's total supply |
| `AirdropFunds.StepConservesSupply` | pallets/airdrop/src/lib.rs:467-907 | no call creates or destroys funds, failed or not |
| `AirdropFunds.RunConservesSupply` | pallets/airdrop/src/lib.rs:467-907 | over a run the supply of every asset is constant |
| `AirdropFunds.TransferMoves` | pallets/airdrop/src/lib.rs:1516-1522 | the sender loses and the receiver gains the amount; every other balance stays |
| `AirdropFunds.ClaimPays` | pallets/airdrop/src/lib.rs:1503-1524 | a paid claim moves one prize from hold to the beneficiary and changes no other balance |
| `AirdropFunds.ReleaseLandsWhole` | pallets/airdrop/src/lib.rs:1549-1604 | what leaves the hold arrives undivided at the source, or in the pot if the refund was refused |
| `AirdropOrigins.CallDescends` | pallets/airdrop/src/lib.rs:562-907 | no lifecycle call adds or alters a registration or pays anybody; closing freezes the table it finds |
| `AirdropOrigins.AlwaysTraced` | pallets/airdrop/src/lib.rs:1377-1398 | every registration in every reachable state goes back to an accepted register call, every payment to an accepted claim |
| `AirdropOrigins.OnlyRegistrantsArePaid` | pallets/airdrop/src/lib.rs:1477-1545 | whoever an event paid had registered for its identifier and had claimed |
| `AirdropObligation.ObligationKeepsEntriesDistinct` | pallets/airdrop/src/lib.rs:1364-1367 | if no two accepted register calls of an event carry one entry under different slots, every reachable registration table holds each entry once |
| `AirdropObligation.ObligationFillsWinners` | pallets/airdrop/src/lib.rs:1364-1367 | then winners plus claims equal the effective winner count |
| `AirdropObligation.DoubledEntryLosesAWinner` | pallets/airdrop/src/lib.rs:1364-1367 | a run in which one account registers under two slots reaches claiming with fewer winners |
| `AirdropTables.CoupleWritten` | pallets/airdrop/src/lib.rs:1221-1229 | storing or dropping one event keeps all tables in step: one schedule entry at the time its status dictates, and nothing left under a removed identifier |
| `AirdropTables.CoupleInsert` | pallets/airdrop/src/lib.rs:1098-1106 | scheduling under an unused identifier keeps the tables in step |
| `AirdropPallet.ScheduleIndexes` | pallets/airdrop/src/lib.rs:1206-1229 | the schedule in iteration order lists every live event exactly once, in timestamp order |
| `AirdropPallet.ScanDone` | pallets/airdrop/src/lib.rs:423-430 | a scan stopped at the first future entry has picked for exactly the due events |
| `AirdropPallet.TranslateLoop` | pallets/airdrop/src/migration.rs:86-107 | every event is rewritten with an empty name and exactly those awaiting registrations are listed, once each |
| `AirdropPallet.Pallet.constructor` | pallets/airdrop/src/lib.rs:97-147 | an empty pallet satisfies the coupling and the invariant |
| `AirdropPallet.Pallet.Transition` | pallets/airdrop/src/lib.rs:1221-1229 | the status changes and the event's schedule entry moves to the time the new status dictates |
| `AirdropPallet.Pallet.ReleaseRemainingPrizes` | pallets/airdrop/src/lib.rs:1549-1604 | the ledger becomes what a best-effort release and refund make of it |
| `AirdropPallet.Pallet.RefundAndDropEvent` | pallets/airdrop/src/lib.rs:1192-1202 | the whole allocation is released, record and schedule entry go |
| `AirdropPallet.Pallet.Gate` | pallets/airdrop/src/lib.rs:911-1062 | the `authorize_*` checks on the tables decide as the machine does; a refusal changes nothing |
| `AirdropPallet.Pallet.StartRegistrationAuthorized` | pallets/airdrop/src/lib.rs:562-573 | tables, ledger and answer follow the machine, and tables and machine stay in step |
| `AirdropPallet.Pallet.CloseRegistrationAuthorized` | pallets/airdrop/src/lib.rs:592-638 | tables, ledger and answer follow the machine for closing, with and without participants |
| `AirdropPallet.Pallet.CaptureEntropyAuthorized` | pallets/airdrop/src/lib.rs:655-692 | tables, ledger and answer follow the machine for capturing entropy |
| `AirdropPallet.Pallet.DrawLoop` | pallets/airdrop/src/lib.rs:719-735 | the loop always finds the capped number of slots, crowns their registrants and leaves the last one as cursor |
| `AirdropPallet.Pallet.DrawWinnersAuthorized` | pallets/airdrop/src/lib.rs:707-754 | tables, ledger and answer follow the machine for one batch of the draw |
| `AirdropPallet.Pallet.CloseDrawingAuthorized` | pallets/airdrop/src/lib.rs:767-787 | tables, ledger and answer follow the machine for closing the draw |
| `AirdropPallet.Pallet.CloseClaimingAuthorized` | pallets/airdrop/src/lib.rs:799-827 | tables, ledger and answer follow the machine for closing claims |
| `AirdropPallet.Pallet.CleanUpRegistrationsAuthorized` | pallets/airdrop/src/lib.rs:842-849 | tables, ledger and answer follow the machine for one batch of registration clean-up |
| `AirdropPallet.Pallet.CleanUpRegistrationsInner` | pallets/airdrop/src/lib.rs:1234-1276 | the tables change as one clean-up batch changes the record, with the schedule entry moved if the phase ends |
| `AirdropPallet.Pallet.CleanUpWinnersAuthorized` | pallets/airdrop/src/lib.rs:865-872 | tables, ledger and answer follow the machine for one batch of winner clean-up |
| `AirdropPallet.Pallet.CleanUpWinnersInner` | pallets/airdrop/src/lib.rs:1280-1317 | the same for one batch of winners |
| `AirdropPallet.Pallet.FinalizeAuthorized` | pallets/airdrop/src/lib.rs:885-907 | tables, ledger and answer follow the machine for finalizing; nothing stays under the identifier |
| `AirdropPallet.Pallet.DoSchedule` | pallets/airdrop/src/lib.rs:1065-1110 | tables, ledger and answer follow the machine for scheduling, with every refusal in its order |
| `AirdropPallet.Pallet.ScheduleFromSource` | pallets/airdrop/src/lib.rs:1649-1675 | transfer and scheduling happen together or not at all |
| `AirdropPallet.Pallet.DoRemoveScheduledEvent` | pallets/airdrop/src/lib.rs:1113-1120 | tables, ledger and answer follow the machine for removing a scheduled event |
| `AirdropPallet.Pallet.CancelEvent` | pallets/airdrop/src/lib.rs:1136-1187 | tables, ledger and answer follow the machine for cancelling in any phase, including unknown and terminating events |
| `AirdropPallet.Pallet.CancelStored` | pallets/airdrop/src/lib.rs:1141-1187 | tables and ledger change as cancelling changes the stored event's record |
| `AirdropPallet.Pallet.RegisterSlot` | pallets/airdrop/src/lib.rs:1367-1398 | tables, ledger and answer follow the machine for registering a slot |
| `AirdropPallet.Pallet.ClaimPrize` | pallets/airdrop/src/lib.rs:1477-1545 | tables, ledger and answer follow the machine for claiming; a refused release or transfer leaves everything as it was |
| `AirdropPallet.Pallet.MarkClaimed` | pallets/airdrop/src/lib.rs:1525-1535 | exactly the claimed winner leaves the table and the count goes up |
| `AirdropPallet.Pallet.EnableAsset` | pallets/airdrop/src/lib.rs:500-521 | tables, ledger and answer follow the machine for enabling an asset |
| `AirdropPallet.Pallet.DisableAsset` | pallets/airdrop/src/lib.rs:531-549 | tables, ledger and answer follow the machine for disabling an asset |
| `AirdropPallet.Pallet.OffchainWorker` | pallets/airdrop/src/lib.rs:415-464 | the early-breaking scan submits exactly one call per due event that has one, and each passes its own authorization |
| `AirdropPallet.Pallet.TranslateEvents` | pallets/airdrop/src/migration.rs:86-107 | the translate pass does to the tables what it does to the machine |
| `AirdropPallet.Pallet.OnRuntimeUpgrade` | pallets/airdrop/src/migration.rs:85-112 | the migration is the translate pass followed by cancelling exactly the events awaiting registrations |
| `AirdropMigration.CancelAllMigrates` | pallets/airdrop/src/migration.rs:109-112 | after any prefix of the cancellations the listed events are gone or clearing, the others only lost their name |
| `AirdropMigration.MigrationComplete` | pallets/airdrop/src/migration.rs:32-39 | afterwards no event awaits registrations, exactly the scheduled ones are gone, every survivor is renamed, and prizes are still backed |
| `AliasMaps.BindKeepsInverse` | pallets/alias-accounts/src/lib.rs:454-492 | binding an alias, swapping out a previous holder included, keeps the maps inverse |
| `AliasMaps.SweptKeepsInverse` | pallets/alias-accounts/src/lib.rs:589-697 | each sweep keeps the maps inverse for any batch |
| `AliasMaps.StepKeepsInverse` | pallets/alias-accounts/src/lib.rs:399-697 | every call keeps both maps inverse bijections, stamps on mapped accounts and one reference per mapping |
| `AliasMaps.AlwaysInverse` | pallets/alias-accounts/src/lib.rs:399-697 | so every state of every run has them |
| `AliasCalls.VerifiesIff` | pallets/alias-accounts/src/lib.rs:947-970 | a proof is accepted exactly for a personhood collection, a valid revision and a verified membership |
| `AliasCalls.WindowIs` | pallets/alias-accounts/src/lib.rs:437-442 | a proof is in time exactly within the window after the moment it names |
| `AliasCalls.SetAcceptedIff` | pallets/alias-accounts/src/lib.rs:425-501 | setting is accepted exactly with fee, burn, proof and window in order and an account free to take the alias; it stores the proven collection, ring, revision, context and alias, not stale, and only a previous holder loses |
| `AliasCalls.ReproveAcceptedIff` | pallets/alias-accounts/src/lib.rs:512-568 | re-proving is accepted exactly for the same alias on another ring or a later revision, and changes ring and revision only |
| `AliasCalls.UnsetAcceptedIff` | pallets/alias-accounts/src/lib.rs:399-409 | unsetting is accepted exactly for a mapped account and frees it, its alias and nothing else |
| `AliasCalls.ActionIs` | pallets/alias-accounts/src/lib.rs:777-791 | report, clear and retire apply exactly to stale unstamped, valid stamped, and stale mappings stamped a retention ago |
| `AliasCalls.StampIs` | pallets/alias-accounts/src/lib.rs:605-611 | a stamp is the newest root's time, capped by the clock, and the clock if no root is known |
| `AliasCalls.SweepDoes` | pallets/alias-accounts/src/lib.rs:589-697 | an accepted sweep stamps, removes or unstamps exactly its batch, which then no longer awaits it |
| `AliasCalls.EveryMappingWasProven` | pallets/alias-accounts/src/lib.rs:425-568 | in every state of every run each mapping was proven by its account, with exactly its collection, ring, revision, context and alias, by a call of the run |
| `AliasRetention.StepOnStamp` | pallets/alias-accounts/src/lib.rs:589-618 | a stamp present after a step was kept with its mapping, or was set by an accepted report in that step |
| `AliasRetention.StampHasReport` | pallets/alias-accounts/src/lib.rs:595-618 | every stamp goes back to one report, with stamp and mapping unchanged since |
| `AliasRetention.RetiredOnlyAfterRetention` | pallets/alias-accounts/src/lib.rs:636-656 | a retirement needs such a report, the retention elapsed since its stamp (since the report if no root was known) and an invalid revision now |
| `AliasRetention.RemovalCauses` | pallets/alias-accounts/src/lib.rs:399-656 | a mapping goes only by its account, by a new holder proving its alias, or by a retirement |
| `AliasSweep.SweptKeepsOthers` | pallets/alias-accounts/src/lib.rs:777-791 | a sweep leaves the sweep state of accounts outside its batch as it was |
| `AliasSweep.SweptCommute` | pallets/alias-accounts/src/lib.rs:589-697 | sweeps of different kinds commute on disjoint batches |
| `AliasSweep.OtherBatchStaysAuthorized` | pallets/alias-accounts/src/lib.rs:804-826 | an accepted sweep leaves batches of other kinds accepted, and they are disjoint from it |
| `AliasSweep.TwoSweepsCommute` | pallets/alias-accounts/src/lib.rs:804-826 | two accepted sweeps give the same maps and answers in either order |
| `AliasSweep.SweepsInAnyOrder` | pallets/alias-accounts/src/lib.rs:853-907 | the three batches of one snapshot go in any order: each stays accepted, and the final maps are the same |
| `AliasSweep.ChosenStops` | pallets/alias-accounts/src/lib.rs:872-881 | the early stop loses nothing |
| `AliasSweep.ChosenCounts` | pallets/alias-accounts/src/lib.rs:872-881 | a batch holds distinct accounts of its state, as many as there are up to the limit |
| `AliasSweep.BatchAccepted` | pallets/alias-accounts/src/lib.rs:883-905 | a sorted batch is empty iff no mapping is in its state, else accepted by the gate and as large as it can be |
| `AliasPallet.SweptExtends` | pallets/alias-accounts/src/lib.rs:589-697 | sweeping one more account is sweeping the set with it |
| `AliasPallet.Pallet.constructor` | pallets/alias-accounts/src/lib.rs:389-391 | empty maps are inverse |
| `AliasPallet.Pallet.UnsetAliasAccount` | pallets/alias-accounts/src/lib.rs:399-409 | the stored maps follow the specification and stay inverse |
| `AliasPallet.Pallet.SetAliasAccount` | pallets/alias-accounts/src/lib.rs:425-501 | stored maps and answer follow the specification for binding, with every refusal in its order |
| `AliasPallet.Pallet.ReproveAliasAccount` | pallets/alias-accounts/src/lib.rs:512-568 | stored maps and answer follow the specification for re-proving |
| `AliasPallet.Pallet.SweepAccount` | pallets/alias-accounts/src/lib.rs:589-697 | what one sweep does to one account |
| `AliasPallet.Pallet.SweepBatch` | pallets/alias-accounts/src/lib.rs:589-697 | the gated loop over a batch does what the set-at-once specification does |
| `AliasPallet.Pallet.FillBatches` | pallets/alias-accounts/src/lib.rs:868-881 | the loop with its early stop fills each batch with the first accounts of its state up to the limit |
| `AliasPallet.Pallet.SweepStaleAliases` | pallets/alias-accounts/src/lib.rs:853-907 | a batch exists for exactly the kinds with candidates, passes its own gate, and has size min(limit, candidates) |
| `PaidTokens.StepSpendSafe` | pallets/coinage/src/paid_tkn_manager.rs:204-357 | every step keeps erased records confined to retired periods, and every record in a live or queued period, on any clock |
| `PaidTokens.RunSpendSafe` | pallets/coinage/src/paid_tkn_manager.rs:204-357 | so does every run |
| `PaidTokens.NeverAcceptedTwice` | pallets/coinage/src/paid_tkn_manager.rs:266-322 | on every run with any clock no token is accepted twice, although its record is erased in the end |
| `PaidTokens.ErasedOnlyAfterExpiry` | pallets/coinage/src/paid_tkn_manager.rs:204-259 | on runs below 2^32 seconds records are erased only of periods whose tokens already expired |
| `PaidAcceptance.PeriodContains` | pallets/coinage/src/paid_tkn_manager.rs:44-47 | a second falls into the period whose stretch contains it |
| `PaidAcceptance.ExpiryIs` | pallets/coinage/src/paid_tkn_manager.rs:50-54 | a period expires the delay after its end, up to the last 32-bit second; the last period at the delay alone |
| `PaidAcceptance.ConsumeAcceptedIff` | pallets/coinage/src/paid_tkn_manager.rs:266-322 | a token is accepted exactly if its ring is of a live collection, unexpired, proven and unspent; it is recorded and nothing else changes |
| `PaidAcceptance.AcceptedIffConsumedInTime` | pallets/coinage/src/paid_tkn_manager.rs:280-284 | on every run the accepted tokens are exactly those consumed by such a call before expiry |
| `PaidAcceptance.PollCreates` | pallets/coinage/src/paid_tkn_manager.rs:59-83 | a poll makes sure of the current period's collection unless it was deleted or the service refuses |
| `PaidAcceptance.AddAcceptedIff` | pallets/coinage/src/paid_tkn_manager.rs:91-117 | a key joins exactly if new and proven and its period has or gets a collection |
| `PaidAcceptance.CleaningAcceptedIff` | pallets/coinage/src/paid_tkn_manager.rs:134-194 | cleaning is accepted exactly for the next ring of an expired live period and frees exactly its keys |
| `PaidAcceptance.DeletionAcceptedIff` | pallets/coinage/src/paid_tkn_manager.rs:204-259 | deletion is accepted exactly for an expired live period without rings to clean, and queues it iff it has records |
| `PaidAcceptance.DustProgress` | pallets/coinage/src/paid_tkn_manager.rs:343-357 | dusting erases records of the oldest queued period only, unqueues it exactly with its last record, and leaves less to dust |
| `PaidLifecycle.CurrentPeriodIsLive` | pallets/coinage/src/paid_tkn_manager.rs:44-54 | the current period is unexpired at every second but the last of the 32-bit clock |
| `PaidLifecycle.MembersJoinLivePeriods` | pallets/coinage/src/paid_tkn_manager.rs:91-117 | a member is registered and queued for the current period, which is unexpired at every second but that one |
| `PaidLifecycle.LastSecondJoinsExpired` | pallets/coinage/src/paid_tkn_manager.rs:50-54 | at it, a member joins a period already expired |
| `PaidLifecycle.CreatedAtMostOnce` | support/src/traits/reality.rs:695-715 | on every run with any clock each period's collection is created at most once, and is live or retired ever after |
| `PaidLifecycle.RetiredPeriodsAreClosed` | pallets/members/src/lib.rs:2963-2980 | once a period's collection was deleted, every poll and every new member in it is refused for good and changes nothing |
| `PaidLifecycle.LiveUntilLockedOut` | pallets/coinage/src/paid_tkn_manager.rs:44-54 | the current period is unexpired at exactly the seconds before its lock-out, for any period length, zero included |
| `PaidLifecycle.NeverLockedOutIff` | pallets/coinage/src/paid_tkn_manager.rs:44-76 | no step falls into a deleted period iff the clock stays below that second |
| `PaidLifecycle.CleanedPlaced` | pallets/coinage/src/paid_tkn_manager.rs:176-194 | cleaning a ring deregisters its keys and leaves every other key in its place |
| `PaidLifecycle.AlwaysPlaced` | pallets/coinage/src/paid_tkn_manager.rs:91-194 | in every state of every run each registered key is pending or in one uncleaned ring of its live period, or lost to cleaning |
| `PaidLifecycle.DeletionLeavesOnlyLost` | pallets/coinage/src/paid_tkn_manager.rs:204-259 | on every run the keys that outlive their period's collection are exactly those pending at its deletion and those lost before, so none iff nobody was left behind |
| `PaidLifecycle.LostForever` | pallets/coinage/src/paid_tkn_manager.rs:91-98 | a key left behind stays registered and is refused in every later state |
| `PaidLifecycle.PendingKeyIsStranded` | pallets/coinage/src/paid_tkn_manager.rs:204-259 | an accepted run in which a key still pending outlives its period's collection |
| `PaidLifecycle.LateKeyIsStranded` | pallets/coinage/src/paid_tkn_manager.rs:176-194 | an accepted run in which a key onboarded into a ring already cleaned does |
| `PaidLifecycle.OrderlyRunLosesNobody` | pallets/coinage/src/paid_tkn_manager.rs:127-131 | if members reach their rings in time, no key is ever lost |
| `PaidLifecycle.OrderlyRunPlaces` | pallets/coinage/src/paid_tkn_manager.rs:127-131 | then every registered key is pending or in one uncleaned ring of its live period |
| `PaidLifecycle.DeletedPeriodsAreEmpty` | pallets/coinage/src/paid_tkn_manager.rs:204-259 | and every accepted deletion leaves no member of its period, and happens after expiry |
| `PaidLifecycle.RingsCleanedInOrder` | pallets/coinage/src/paid_tkn_manager.rs:134-194 | over every run, the accepted cleanings of a period since its last deletion are rings 0, 1, 2, ..., each once, and none beyond its rings |
| `PaidLifecycle.DeletedAfterEveryRing` | pallets/coinage/src/paid_tkn_manager.rs:204-226 | at an accepted deletion they are all the rings the collection has |
| `PaidTokenManager.Manager.constructor` | pallets/coinage/src/paid_tkn_manager.rs:30-42 | empty storage stands for the initial state |
| `PaidTokenManager.Manager.EnsureCollectionExists` | pallets/coinage/src/paid_tkn_manager.rs:59-76 | storage and answer follow the specification, refusing the identifier of a deleted collection |
| `PaidTokenManager.Manager.AddMemberKey` | pallets/coinage/src/paid_tkn_manager.rs:91-117 | storage and answer follow the specification for adding a member |
| `PaidTokenManager.Manager.OnboardMember` | pallets/coinage/src/paid_tkn_manager.rs:127-131 | the member service's queue and rings follow the specification when a member is onboarded |
| `PaidTokenManager.Manager.EnsureCanCleanRing` | pallets/coinage/src/paid_tkn_manager.rs:134-169 | the check on ring totals accepts exactly what the specification does |
| `PaidTokenManager.Manager.CleanRingMembers` | pallets/coinage/src/paid_tkn_manager.rs:134-194 | storage and answer follow the specification for cleaning a ring behind its check |
| `PaidTokenManager.RemoveAll` | pallets/coinage/src/paid_tkn_manager.rs:184-186 | the loop removes exactly the ring's keys |
| `PaidTokenManager.Manager.EnsureCanDeleteCollection` | pallets/coinage/src/paid_tkn_manager.rs:204-233 | the check on the next ring's total accepts exactly what the specification does |
| `PaidTokenManager.Manager.DeleteExpiredCollection` | pallets/coinage/src/paid_tkn_manager.rs:204-259 | storage and answer follow the specification for deletion; the identifier is retired, and the period queued for dusting iff its row of records is not empty |
| `PaidTokenManager.RowDrained` | pallets/coinage/src/paid_tkn_manager.rs:343-357 | removing records from a period's row is removing them from all records, and empties the row iff it removes all of them |
| `PaidTokenManager.Manager.ConsumeToken` | pallets/coinage/src/paid_tkn_manager.rs:266-322 | storage and answer follow the specification for validating and consuming a token |
| `PaidTokenManager.Manager.CleanDustRecords` | pallets/coinage/src/paid_tkn_manager.rs:327-357 | storage and answer follow the specification for dusting the first queued period |
| `CoinLocks.FailureRestoresCoin` | pallets/coinage/src/extension.rs:760-834 | the coin leaves storage before dispatch, and a failed dispatch leaves all coins as they were before, touching only that coin's lock |
| `CoinLocks.LockLasts` | pallets/coinage/src/extension.rs:210-219 | the lock of the k-th consecutive failure ends exactly 2^k base periods later, or at the end of the clock, whatever saturates on the way |
| `CoinLocks.CoinRefusedIff` | pallets/coinage/src/extension.rs:402-408 | over every run a coin is refused as locked exactly until that time after the latest failure since its last success |
| `CoinLocks.SpendAcceptedIff` | pallets/coinage/src/extension.rs:402-410 | spending is accepted exactly for a present, unlocked coin past the checks |
| `CoinLocks.OutputAcceptedIff` | pallets/coinage/src/extension.rs:638-649 | paying from an alias is accepted exactly with the next retry counter while it is neither unloaded nor locked; failure locks it for exactly 2^counter base periods |
| `CoinLocks.AliasLockTells` | pallets/coinage/src/extension.rs:844-851 | over every run a locked alias was locked by a failed payment, for exactly that time |
| `CoinLocks.UnloadAcceptedIff` | pallets/coinage/src/recycler_manager.rs:711-724 | unloading is accepted exactly for an alias neither unloaded nor still locked |
| `CoinLocks.UnloadedForever` | pallets/coinage/src/recycler_manager.rs:711-724 | an unloaded alias stays unloaded and is refused in every later state |
| `CoinLocks.AlwaysBacked` | pallets/coinage/src/extension.rs:402-408 | in every run each failure of a streak waited for the lock of the one before |
| `CoinLocks.FailuresSpreadOut` | pallets/coinage/src/extension.rs:196-219 | any n consecutive failures of a coin without a success between them span at least base * (2^(n-1) - 1) seconds, later ones in a streak correspondingly longer, up to saturation |
| `CoinLocks.LockTellsStreak` | pallets/coinage/src/extension.rs:825-833 | over every run a coin is locked iff a spend of it failed since its last success, and the lock is that of the latest failure with the number before it as retries |
| `CoinLocks.AlwaysInOrder` | pallets/coinage/src/extension.rs:638-649 | with a positive base period the counters of an alias are admitted in order from zero and the last one locks it for good |
| `CoinLocks.CountersOnceIff` | pallets/coinage/src/extension.rs:638-649 | each retry counter is admitted at most once below the maximal clock iff the base lock period is positive |
| `CoinExtension.Extension.PrepareCoin` | pallets/coinage/src/extension.rs:760-766 | the coin leaves storage and is handed on |
| `CoinExtension.Extension.PostDispatch` | pallets/coinage/src/extension.rs:816-851 | failure restores the coin and locks it longer, or locks the alias; success clears the coin's lock |
| `CoinExtension.Extension.RunCoin` | pallets/coinage/src/extension.rs:397-410 | validate, take, dispatch and post-dispatch together do what the specification says |
| `CoinExtension.Extension.RunOutput` | pallets/coinage/src/extension.rs:638-649 | state and answer follow the specification for a transaction paid from an alias's output |
| `Chunks.MaskIsModulusIff` | pallets/chunks-manager/src/lib.rs:374-379 | masking with n - 1 is the remainder by n for every index iff n is a power of two |
| `Chunks.LocationIsModular` | pallets/chunks-manager/src/lib.rs:370-383 | with power-of-two page sizes the masked page is the modular one |
| `Chunks.ReadIs` | pallets/chunks-manager/src/lib.rs:388-397 | a chunk reads as what its modular page holds at its offset, and is missing exactly if page or offset is |
| `Chunks.SamePage` | pallets/chunks-manager/src/lib.rs:370-383 | indices of one page-size stretch are neighbours on one page, for any page size |
| `Chunks.StretchReads` | pallets/chunks-manager/src/lib.rs:420-431 | one slice of a page is the single reads of its indices, or the last of them fails |
| `Chunks.StoredReadsBack` | pallets/chunks-manager/src/lib.rs:388-397 | a stored list reads back at every index the ring addresses |
| `Chunks.RoundTripIffFits` | pallets/chunks-manager/src/lib.rs:313-325 | storing then reading is the identity for all lists of a length iff the ring can address it |
| `Chunks.CapacityIsRing` | pallets/chunks-manager/src/lib.rs:371-376 | what the ring addresses is its size, or one page if it is smaller |
| `Chunks.AddedIff` | pallets/chunks-manager/src/lib.rs:336-349 | a page is added exactly if absent, published and decodable within the page size |
| `Chunks.PublishedIs` | pallets/chunks-manager/src/lib.rs:358-361 | publishing names each listed page's hash under its number and leaves the rest |
| `Chunks.PagesStay` | pallets/chunks-manager/src/lib.rs:341-343 | a stored page never changes in any run of uploads and hash publications |
| `Chunks.ReadsStay` | pallets/chunks-manager/src/lib.rs:388-397 | a chunk once readable reads the same forever |
| `Chunks.PagesWerePublished` | pallets/chunks-manager/src/lib.rs:336-349 | every stored page decodes bytes whose hash was published when they were accepted |
| `Chunks.Store.constructor` | pallets/chunks-manager/src/lib.rs:189-194 | an empty store with a positive page size is valid |
| `Chunks.Store.AddChunks` | pallets/chunks-manager/src/lib.rs:214-242 | a page is added iff absent, published and decodable within the page size; nothing else changes |
| `Chunks.Store.SetChunkPageHashes` | pallets/chunks-manager/src/lib.rs:358-361 | the loop publishes every listed hash and keeps the others |
| `Chunks.Store.GetChunks` | pallets/chunks-manager/src/lib.rs:403-437 | the paged range read returns exactly the single reads, and fails iff some index is missing or the range is empty |
| `Chunks.Store.AddAllChunks` | pallets/chunks-manager/src/lib.rs:313-325 | every page-size slice is stored under its number, in as many pages as needed, and nothing else changes |
| `BigEndian.RoundTrip` | support/src/lib.rs:59-79 | decoding an encoded key gives the key and the rest of the input, for any width |
| `BigEndian.BytesRoundTrip` | support/src/lib.rs:203-223 | encoding a decoded key gives its bytes |
| `BigEndian.LexIsNumeric` | support/src/lib.rs:52-55 | same-width byte strings compare lexicographically as the numbers they denote |
| `BigEndian.EncodingPreservesOrder` | support/src/lib.rs:128-151 | encoded keys are in byte order iff the numbers are in numeric order |
| `BigEndian.DoubleKeysInOrder` | support/src/credit_trees.rs:122-127 | keys of a double map iterate by the first key, then by the second |
| `ExpirySweep.DueIs` | support/src/credit_trees.rs:131-133 | an entry is due exactly once its time to live has passed since its timestamp, or at the end of the clock |
| `ExpirySweep.VerdictIs` | support/src/credit_trees.rs:198-222 | a sweep is stale, valid or for the future by how the timestamp it names compares to the oldest filed and its deadline |
| `ExpirySweep.DueIsPrefix` | support/src/credit_trees.rs:153-158 | the due entries are a prefix of the iteration |
| `ExpirySweep.SweptDue` | support/src/credit_trees.rs:159-177 | a sweep leaves due exactly the entries past the oldest `limit` |
| `ExpirySweep.OldestFirst` | support/src/credit_trees.rs:153-158 | only due entries go, and every one that goes is older than every one that stays |
| `ExpirySweep.SweepsUntilEmpty` | support/src/credit_trees.rs:153-158 | repeated sweeps at a fixed time empty the due set after exactly ceil(due / limit) calls |
| `ExpirySweep.AuthorizedIffDue` | support/src/credit_trees.rs:198-222 | a local sweep is authorized iff it names the oldest timestamp and something is due |
| `ExpirySweep.AuthorizedMakesProgress` | support/src/credit_trees.rs:198-222 | every authorized sweep with a positive limit removes the oldest entry |
| `ExpirySweep.CollectDue` | support/src/credit_trees.rs:164-167 | the early-stopping scan collects what filtering, sorting and truncating would |
| `ExpirySweep.ExpiryMap.DrainDueExpiries` | support/src/credit_trees.rs:159-177 | exactly the min(limit, due) oldest due entries go, and their keys come back in order |
| `Contexts.ParsesBackIffNoDot` | support/src/context.rs:77-97 | the preimage gives back name, network and suffix iff the name holds no dot, whatever the network is |
| `Contexts.ParseSound` | support/src/context.rs:73-76 | whatever parses is the preimage of what it parses to |
| `Contexts.DottedNamesCollide` | support/src/context.rs:69-71 | two products of two networks share their bytes if a dotted name were allowed |
| `Contexts.PreimageInjective` | support/src/context.rs:77-97 | for DNS-label names the preimage determines all three parts |
| `Contexts.AllocationsDistinct` | support/src/context.rs:133-188 | the `Index` suffixes, the signing suffix and the four personhood families are pairwise disjoint and each injective |
| `Contexts.ContextsDistinct` | support/src/context.rs:99-112 | one preimage serves one product on one network for one allocation |
| `Contexts.KnownPrefixes` | support/src/context.rs:28-28 | the prefixes are the texts named by the specification |
| `Contexts.KnownPreimage` | support/src/context.rs:238-247 | the preimage of a known product on a known network |
| `Contexts.KnownIndex` | support/src/context.rs:193-204 | the bytes of a known index: little endian, then the marker |
| `Contexts.KnownSigning` | support/src/context.rs:99-112 | the signing suffix is its prefix and zeros |
| `Contexts.KnownLayout` | support/src/context.rs:151-187 | where each personhood family keeps its family, period and tail |
| `Contexts.BuildSuffixBytes` | support/src/context.rs:46-58 | the filled buffer is the suffix's 32 bytes |
| `Contexts.BuildSigningSuffix` | support/src/context.rs:105-112 | the filled buffer is the signing suffix |
| `Contexts.RawU32U8` | support/src/context.rs:171-178 | the filled buffer is the family, value, byte tail and padding |
| `Contexts.RawU32U32` | support/src/context.rs:180-187 | the filled buffer is the family, both values and padding |
| `Contexts.BuildAllocation` | support/src/context.rs:152-169 | the bytes built for an allocation belong to no other |
| `Contexts.BuildProductContext` | support/src/context.rs:77-97 | the appended bytes are the preimage and parse back for a DNS-label name |
| `Labels.SplitDotUnique` | support/src/labels.rs:51-60 | a lite-person label has one dot |
| `Labels.IsLitePersonLabel` | support/src/labels.rs:42-73 | the single-dot scan accepts exactly the labels that split into a DNS stem and enough digits |
| `Labels.DnsLabelIs` | support/src/labels.rs:84-94 | on texts a DNS label is lower-case letters, digits and inner hyphens |
| `Labels.LiteSplitIs` | support/src/labels.rs:36-41 | on texts a lite-person label is a DNS label, a dot and at least two digits |

## Left out

- Hash functions, VRF and ring proofs, signatures and curve points: answers of the environment; claims about contexts are about preimages.
- The fungibles library: a ledger of free and held balances whose operations may refuse; existential deposits, preservation modes and per-account reasons other than the airdrop's are not modelled.
- Origins, weights, events, logging, transaction tags, priorities and longevity: they do not touch the modelled state.
- Identifiers, slots and aliases are natural numbers; their widths matter only in `BigEndian` and `Contexts`. Counters and clocks that saturate or wrap are modelled with their width.
- The three ways of deriving an airdrop slot (alias proof, account VRF, caller-supplied): the model starts at `register_slot_in`, which all three reach; the product-name context is used only by the proof check.
- `clear_prefix` removes any entries that are there, chosen by the environment; its cursor is none iff none is left. Progress takes it that an included clean-up call removes some number of entries or all, and counts calls by that number.
- AirdropTicks.TicksFinishEveryEvent: takes it that the calls of a tick are included before the next tick, because submission and inclusion belong to the transaction pool; `WorkerFinishesEveryEvent` counts inclusions alone.
- AirdropOrigins.OnlyRegistrantsArePaid: traces by event identifier, so a registration under an earlier event with a reused identifier also counts.
- PaidLifecycle.OrderlyRunPlaces: assumes, as pallets/coinage/src/paid_tkn_manager.rs:130-131 does, that members reach a ring before their period expires and that none is pending at deletion; `DeletionLeavesOnlyLost` needs neither.
- In the paid-token model a revision can be valid only for an existing ring of an existing collection; proofs, revisions and the rest of the member service are not part of this model.
- CoinLocks.CountersOnceIff: alias states are never erased in the model; recycler clean-up erases them only with the ring whose proofs they guard.
- Bodies of coin calls (split, transfer, unload, offboard), free and paid unload token arms of the extension, recycler rings, instances and deposits: the dispatched call is an oracle that succeeds with any effect on coins or rolls back.
- `personhood_info` lookups, asset fee amounts and the burn itself in alias accounts: single reads, or an oracle's refusal.
- `signing_payload`, `is_person_label`, runtime parameters, dotNS gateway migration, weight budgets and the remaining pallets (game, members, score, resources): not part of this model.
