# Lifecycle and arithmetic of the Subspace SDK, verified in Dafny

This project models the parts of the SDK (farmer, node, domains, shared utilities) whose
correctness does not follow from reading one function at a time, and proves what the code arranges
for. `dafny verify dfyconfig.toml` checks all of it.

## What is modelled

| module | subject |
|---|---|
| `Destructors` | `DestructorSet`: three vectors and a vector of order tags that behave as one LIFO stack, with the two ways of consuming it |
| `FarmsDriver` | the farm driver's loop over a bounded result channel, and the drain of that channel in `Farmer::close` |
| `FarmerLifecycle` | any history of farmers on one node: `Config::build` with all its points of failure, `close`, drop, driver thread, sector events, the two slots shared with the node |
| `FarmerClose`, `FarmerDrop` | why `close` comes to an end; when a dropped farmer's handlers can panic |
| `FarmerTasks`, `FarmerDriver` | what becomes of the background tasks and of the driver thread |
| `FarmerScenarios` | what can happen: every number of farms, point of failure and answer of `close` |
| `PieceIndexing` | the piece index: start-up loop, replot handler, lookup |
| `PlottingProgress` | the plotting-progress counter shared by any number of subscribers |
| `DomainProtocol`, `DomainHistory` | domain start-up and shutdown: builder and closer, bootstrapper task, runner task; what a run's history says about its state |
| `NodeShutdown` | `Node::close`: the domain's protocol composed with the task-manager task |
| `Ss58`, `SectorSizing`, `SegmentHeaders`, `Vesting` | the reward-address parser, the sector count, segment-header queries, token grants |

Code that updates objects is modelled by classes and methods, each proved against a specification
function. Concurrent code is modelled as a step system: a state, a datatype of steps, a predicate
`Enabled` and a function `Apply`. A step is one turn of one party between two awaits, and a theorem
about all runs is a theorem about all interleavings. The teardown of a farmer and of a domain
consumes the last entry of the registrations, one at a time; over a whole run that is the teardown
which `Destructors` proves of the destructor set (`FarmerLifecycle.TeardownIsTheSets`,
`DomainProtocol.TeardownIsTheSets`). The only assumption about scheduling is in
`FarmerClose.CloseTerminates`: that handler calls do not starve the closer for ever.

Where two futures are selected, the step systems allow either one that can complete, so the theorems
do not depend on which is polled first. The farm driver is the exception, because its loop does: an
exhausted stream of farms is ready at once, and hides the drop signal.

## Where the code and its comments differ

- The farm driver's comment says that a failed `try_send` means a closed receiver. It also fails on
  a full channel, and that is how the loop ends once all farms are finished
  (`FarmsDriver.NoOutcomeIsLost`).
- The handler's `expect` ("Initial value was populated before") holds for a farmer that is closed
  (`FarmerLifecycle.HandlerFindsTheIndex`). A farmer that is merely dropped discards the driver's
  cleanup instead of joining the driver, and can clear the slot under a handler call. That can
  happen exactly if a farm is unfinished when the farmer is dropped
  (`FarmerDrop.GivenUpFarmerCanPanicIff`).
- `Node::is_closed` reports the `already_ran` flag, which no set that still exists has set
  (`Destructors.HistoryIsLifo`).
- `current_sector` is documented as the current number of sectors. It counts the items that progress
  streams have taken (`PlottingProgress.EmissionsPartitionTheInterval`).
- The address parser takes two-byte forms of idents below 64, which the SS58 standard (sections
  "Address type" and "Checksum types") writes with one byte (`Ss58.CanonicalIff`).
- The sector count assumes a cache percentage of at most 100, which its type does not guarantee; the
  subtraction overflows exactly above that (`SectorSizing.OverflowsIffAbove100`).

## Model

| member | source | states |
|---|---|---|
| `Destructors.VectorsDetermineStack` | utils/src/lib.rs:389-402 | the three vectors and the order tags together determine the registration sequence |
| `Destructors.Teardown` | utils/src/lib.rs:420-441 | teardown is the registration sequence in exact reverse, one action for each entry |
| `Destructors.TeardownRound` | utils/src/lib.rs:425-441 | each round consumes the newest entry and goes on with the entries below it |
| `Destructors.TeardownConsumesEachOnce` | utils/src/lib.rs:528-548 | every entry is consumed as often as it was registered, no more and no less |
| `Destructors.TeardownConsumesInReverse` | utils/src/lib.rs:420-441 | exact reverse, once each; no future is awaited by a drop or discarded by `async_drop` |
| `Destructors.GivingUpIsLifo` | utils/src/lib.rs:514-551 | a set that has not run is consumed once and in reverse by `async_drop` with its implicit drop, by a refused `async_drop`, and by a plain drop |
| `Destructors.HistoryIsLifo` | utils/src/lib.rs:445-551 | the same for any history of registrations on either kind of set; asynchronous entries are refused exactly where disabled; the set never reports that it already ran |
| `Destructors.DestructorSet.New` | utils/src/lib.rs:447-457 | an empty set with asynchronous destructors allowed |
| `Destructors.DestructorSet.NewWithoutAsync` | utils/src/lib.rs:465-475 | an empty set with asynchronous destructors not allowed |
| `Destructors.DestructorSet.AddSyncDestructor` | utils/src/lib.rs:478-485 | pushes onto the stack, or is refused after a run |
| `Destructors.DestructorSet.AddAsyncDestructor` | utils/src/lib.rs:488-501 | pushes onto the stack, or is refused after a run or where disabled |
| `Destructors.DestructorSet.AddItemsToDrop` | utils/src/lib.rs:504-511 | pushes onto the stack, or is refused after a run |
| `Destructors.DestructorSet.ConsumeAll` | utils/src/lib.rs:419-441 | the loop over the tags consumes the whole stack in reverse; none of its `expect`s can fail |
| `Destructors.DestructorSet.Drop` | utils/src/lib.rs:404-443 | nothing after a run, otherwise the reverse teardown with futures discarded |
| `Destructors.DestructorSet.RunDestructors` | utils/src/lib.rs:514-550 | runs and awaits everything in reverse and sets the flag, or refuses and leaves the set as it was |
| `Destructors.DestructorSet.AsyncDrop` | utils/src/lib.rs:514-551 | with the drop at its end, consumes every entry exactly once whether it runs or refuses |
| `FarmsDriver.RunFarmsDriver` | farmer/src/lib.rs:653-687 | the loop ends whatever the stream and the signal do, and sends what its rounds report |
| `FarmsDriver.NoOutcomeIsLost` | farmer/src/lib.rs:642-687 | with at most 256 farms every outcome taken is queued with its id or its error, in completion order, ahead of the cancellation or of the end-of-stream markers |
| `FarmsDriver.AllQueuedIffAtMost256` | farmer/src/lib.rs:313-320 | the check against more than 256 farms is what keeps outcomes from being lost: with more, one is |
| `FarmsDriver.ClosedReceiverEndsDriver` | farmer/src/lib.rs:671-674 | a closed receiver ends the driver with its next message at the latest |
| `FarmsDriver.DrainResults` | farmer/src/lib.rs:1100-1112 | the drain stops at the first error, and succeeds exactly when there is none |
| `FarmsDriver.FirstErrorIsEarliest` | farmer/src/lib.rs:1102-1103 | that error is the earliest in the queue |
| `FarmsDriver.CloseReportsEarliestFailure` | farmer/src/lib.rs:1098-1113 | `close` returns the error of the farm that failed first, or success when no farm that ended has failed |
| `FarmerLifecycle.BuildKeepsRegistrations` | farmer/src/lib.rs:454-701 | the build registers its cleanups in the stated order, with or without failing |
| `FarmerLifecycle.BuildKeepsSlots` | farmer/src/lib.rs:559-616 | a slot is published and its clearing registered as the next step |
| `FarmerLifecycle.ConsumeKeepsRegistrations` | farmer/src/lib.rs:560-616 | the slots are emptied by exactly the cleanups registered for them |
| `FarmerLifecycle.DriverKeepsQueue` | farmer/src/lib.rs:653-687 | while the receiver exists the queue is every outcome so far and then markers, and a cancellation finds room |
| `FarmerLifecycle.StepKeepsInvariant` | farmer/src/lib.rs:371-716 | every step of builder, closer, driver, farms and handlers keeps the invariant |
| `FarmerLifecycle.SlotsFollowTheFarmer` | farmer/src/lib.rs:559-616 | both slots are empty whenever no farmer is there; a filled slot has its clearing registered; the index is never there without the cache |
| `FarmerLifecycle.HandlerFindsTheIndex` | farmer/src/lib.rs:348-368 | in every interleaving with `close` the handler finds the slot filled and a farm number below 256, so neither `expect` fails |
| `FarmerDrop.DroppingCanPanicIff` | farmer/src/lib.rs:600-697 | at every point of a drop, a handler can still find the slot empty exactly if a call is under way or an attached handler has an unfinished farm |
| `FarmerDrop.GivenUpFarmerCanPanicIff` | farmer/src/lib.rs:611-636 | a handler of a farmer that is dropped, or whose build fails or is abandoned at any point, can panic exactly if a farm is unfinished at that moment |
| `FarmerDrop.LiveFarmerCanPanicIff` | farmer/src/lib.rs:348-368 | over all that can become of a live farmer, a handler can panic exactly if a farm is unfinished |
| `FarmerDrop.DroppedFarmerCanPanic` | farmer/src/lib.rs:611-616 | the witness: a reachable farmer that is dropped and panics |
| `FarmerLifecycle.OutcomesAreTheFarms` | farmer/src/lib.rs:653-687 | over all runs the outcomes recorded are those of the farms that ended since the driver was spawned, in that order |
| `FarmerLifecycle.CloseAnswersEarliestFailure` | farmer/src/lib.rs:1098-1113 | over all runs, a close that comes to its end answers: with an error exactly if it is that of the farm that ended first with one, with success exactly if none did |
| `FarmerScenarios.EveryAnswerHappens` | farmer/src/lib.rs:1098-1113 | for any outcomes of up to 256 farms there is a run in which they are what the farms ended with and `close` answers for them |
| `FarmerScenarios.LiveFarmerCanClose` | farmer/src/lib.rs:1098-1113 | from any live farmer a close can go through to its answer without another farm ending |
| `FarmerScenarios.FarmerCanBeBuiltIff` | farmer/src/lib.rs:376-383 | a farmer can be built with so many farms exactly from 1 to 256 |
| `FarmerScenarios.BuildCanFailIff` | farmer/src/lib.rs:388-716 | a build can fail exactly at its errors and awaits, so never between filling a slot and registering the clearing |
| `FarmerTasks.CloseLeavesNothing` | farmer/src/lib.rs:433-697 | when `close` has answered, no worker runs, no handler is attached, no call is under way and both slots are empty |
| `FarmerTasks.WorkersAreSignalledInTime` | farmer/src/lib.rs:454-697 | no worker is asked to stop while the farmer lives, and every one that outlasts it has been asked |
| `FarmerTasks.TasksRunUntilTheyEnd` | farmer/src/lib.rs:433-607 | nothing but its own end stops a background task |
| `FarmerDriver.DriverStopsForAReason` | farmer/src/lib.rs:653-687 | the driver leaves its loop only when it was asked to, with the cancellation as its last message, or when all farms have ended and the channel is full of end markers |
| `FarmerDriver.AnotherFarmerCanFollow` | farmer/src/lib.rs:559-616 | a farmer that is gone leaves room for another one, if it was dropped once its driver has wound down, which no farm can prevent |
| `FarmerLifecycle.TeardownIsTheSets` | utils/src/lib.rs:420-441 | in any interleaving, close and drop of a farmer act on its registrations as the destructor set does: the actions by the end are the teardown of the whole |
| `FarmerLifecycle.LookupFollowsTheFarmer` | node/src/lib.rs:904-926 | in every state of a farmer's life the node's lookup answers exactly while the cache slot is filled: with the cached piece; on a miss, with a piece exactly if the index is there and some sector has the piece |
| `FarmerClose.CloseUsesUpWork` | farmer/src/lib.rs:600-697 | every step of a close other than handler calls uses up a finite supply of work |
| `FarmerClose.CloseIsBounded` | farmer/src/lib.rs:653-697 | a close takes a bounded number of steps other than handler calls, even if the driver never looks at its signal; once the handlers are detached the bound is on all steps |
| `FarmerClose.CloseIsNeverStuck` | farmer/src/lib.rs:454-697 | at every point of a close a step can be taken that needs neither a farm to end nor a sector to be plotted |
| `FarmerClose.CloseTerminates` | farmer/src/lib.rs:1098-1113 | every endless run in which handler calls do not starve the closer ends the close with its answer, whether or not farms end |
| `PieceIndexing.AddFarm` | farmer/src/lib.rs:322-336 | readable sectors are added, unreadable ones skipped |
| `PieceIndexing.CreateReadersAndPieces` | farmer/src/lib.rs:299-345 | succeeds exactly if every farm index fits a byte, and then has indexed all readable sectors |
| `PieceIndexing.StartUpAgrees` | farmer/src/lib.rs:313-340 | the start-up index agrees with the readable sectors as a map from farm and sector to pieces |
| `PieceIndexing.StartUpIndexIsExact` | farmer/src/lib.rs:313-340 | it has exactly the places of the pieces in readable sectors, each once |
| `PieceIndexing.HandlerOnSectorPlotted` | farmer/src/lib.rs:348-368 | under the lock, the reported old entries go and the new ones come |
| `PieceIndexing.ReplotAgreesIff` | farmer/src/lib.rs:363-366 | a replot keeps the agreement exactly when the reported old contents cover those indexed |
| `PieceIndexing.EventsKeepAgreement` | farmer/src/lib.rs:618-636 | the agreement survives any sequence of events with such reports |
| `PieceIndexing.ReadPiece` | farmer/src/lib.rs:281-287 | a place offered for a piece is one of the index, and there is none only if the index has none |
| `PieceIndexing.MissFindsPlottedPieces` | farmer/src/lib.rs:257-293 | a lookup that misses the cache reads a place exactly when some plotted sector holds the piece |
| `PlottingProgress.Farm.Subscribe` | farmer/src/lib.rs:1016-1048 | a new stream, already ended exactly if the counter equals the total |
| `PlottingProgress.SubscriptionIsOpenIff` | farmer/src/lib.rs:1017-1022 | after any history a subscription gets an empty stream, open exactly if the items taken so far do not add up to the total |
| `PlottingProgress.DeliveryTakesTheCounter` | farmer/src/lib.rs:1026-1039 | after any history an item for an open stream raises the counter by one and emits its value if that is below the total; other streams and ended ones are left alone |
| `PlottingProgress.EndedIff` | farmer/src/lib.rs:1017-1039 | a stream has ended exactly if it was subscribed when the counter equalled the total, or an item reached it when the counter was not below it |
| `PlottingProgress.SoleSubscriberGetsAll` | farmer/src/lib.rs:1014-1048 | a sole subscriber gets every value from the start to the total and then the end |
| `PlottingProgress.Farm.Deliver` | farmer/src/lib.rs:1026-1039 | one fetch-and-increment under the lock, emitted if below the total, otherwise the end of the stream |
| `PlottingProgress.DeliveredKeepsTimes` | farmer/src/lib.rs:1029-1039 | a delivery keeps the emissions to one for each value the counter has passed |
| `PlottingProgress.EmissionsPartitionTheInterval` | farmer/src/lib.rs:1016-1048 | over all interleavings, the emitted values are exactly those from the start to the counter or the total, each once; streams increase; the overshoot is at most one for each stream |
| `PlottingProgress.StreamsAreDisjoint` | farmer/src/lib.rs:1016-1048 | no two streams emit the same value |
| `DomainProtocol.NextRunner` | node/src/domains/builder.rs:254-442 | each turn brings the runner nearer to its end and leaves its signal alone |
| `DomainProtocol.StepKeepsInvariant` | node/src/domains/builder.rs:184-460 | every step of builder, closer, bootstrapper and runner keeps the invariant and takes nothing back |
| `DomainProtocol.RunKeepsInvariant` | node/src/domains/builder.rs:186-198 | in every interleaving progress is monotone although two tasks write it, and the RPC slot stays filled |
| `DomainProtocol.OneResult` | node/src/domains/domain.rs:38-48 | the runner sends exactly one message on all of its exits, never polls a completed drop receiver, and `close` fails exactly with the error sent; close and drop signal both tasks |
| `DomainProtocol.MessageTellsWhatHappened` | node/src/domains/builder.rs:254-442 | an end, an error or a cancellation is reported only in runs in which it happened |
| `DomainProtocol.FailureIsReported` | node/src/domains/builder.rs:281-442 | no failure the runner meets or is told of is swallowed: whatever else happens, it is the one message and what `close` fails with |
| `DomainHistory.HistoryDecides` | node/src/domains/builder.rs:196-442 | in every interleaving the runner follows its schedule and leaves it by one of its exits, with the report of that exit; the bootstrap message tells how the fetch ended; progress and RPC slot hold what was written last |
| `DomainHistory.ExitsHappen` | node/src/domains/builder.rs:255-442 | the table of exits and reports is exact: each is taken by some run, and none ends otherwise |
| `DomainHistory.FailedFetchIsReported` | node/src/domains/builder.rs:200-291 | after a failed fetch the runner never has data, and its error is the one message and the result of `close`, unless a drop signal ended the runner first |
| `DomainHistory.DataWasFetched` | node/src/domains/builder.rs:200-291 | data reaches the runner only in runs in which the fetch returned it |
| `DomainHistory.OpenDomainIsNotCancelled` | node/src/domains/builder.rs:254-442 | a domain that is neither closed nor dropped never reports a cancellation |
| `DomainHistory.OpenDomainCanBeGivenUp` | node/src/domains/domain.rs:38-48 | an open domain can be closed or dropped at any time, and a drop goes through at once, with both tasks signalled |
| `DomainProtocol.TeardownIsTheSets` | node/src/domains/domain.rs:38-48 | in any interleaving, close and drop of a domain act on its registrations as the destructor set does |
| `DomainProtocol.ProgressAndRpcAgree` | node/src/domains/builder.rs:377-398 | `Starting` implies a filled RPC slot, and before `PreparingToStart` it is empty |
| `DomainProtocol.BootCancellationOnlyAfterDrop` | node/src/domains/builder.rs:265-280 | the branch for a cancelled bootstrapper is unreachable when the domain is closed |
| `DomainProtocol.BootCancellationAfterDrop` | node/src/domains/builder.rs:219-232 | it is reachable when the domain is merely dropped |
| `DomainProtocol.StepDecreasesMeasure` | node/src/domains/builder.rs:238-453 | every step lowers the number of turns, cleanups and signals that are left |
| `DomainProtocol.CloseIsNeverStuck` | node/src/domains/builder.rs:400-453 | at every point of a close some step can be taken without help from network or domain |
| `DomainProtocol.CloseTerminates` | node/src/domains/domain.rs:38-48 | `close` is free of deadlock and terminates: runs are bounded, and one that cannot go on has closed the domain |
| `NodeShutdown.StepKeepsInvariant` | node/src/lib.rs:354-380 | the composed protocol keeps its invariant, the domain's included |
| `NodeShutdown.ManagerMessageTells` | node/src/lib.rs:354-373 | in every run the task sends one message when it ends: the failure as an error, the drop signal as a cancellation, any other end as a success |
| `NodeShutdown.NodeCloses` | node/src/lib.rs:756-769 | the node's cleanup starts only when the domain is down with both tasks; the task manager has sent its one result when it is read; a cancellation is sent only on a signal; the node's result is the domain's error or what the task manager sent |
| `NodeShutdown.NodeResultIff` | node/src/lib.rs:756-769 | what `close` answers in terms of what happened: the domain's error, else the failure with which the task manager ended, else success |
| `NodeShutdown.EveryManagerResultHappens` | node/src/lib.rs:354-373 | in whichever way the task ends by itself, the node can close with the result of that |
| `NodeShutdown.DomainTakesItsSteps` | node/src/lib.rs:756-769 | the domain's part of a run of the node is a run of the domain |
| `NodeShutdown.CloseIsNeverStuck` | node/src/lib.rs:756-769 | until the node is closed some guaranteed step can be taken |
| `NodeShutdown.NodeCloseTerminates` | node/src/lib.rs:756-769 | runs are bounded, and one that cannot go on has closed the node |
| `Ss58.PrefixRoundTrip` | utils/src/lib.rs:874-887 | decoding an encoded prefix gives its length and ident back, for all 14-bit idents |
| `Ss58.PrefixReencodes` | utils/src/lib.rs:874-887 | encoding a decoded prefix gives its bytes back |
| `Ss58.ParseAcceptsExactlyAddresses` | utils/src/lib.rs:869-910 | the parser accepts exactly prefix, 32-byte key and checksum under an unreserved ident, and answers with the key |
| `Ss58.ParseAcceptsIff` | utils/src/lib.rs:869-917 | acceptance in terms of the bytes alone: first byte, length, unreserved ident, and the first two bytes of the hash of "SS58PRE" and all before the checksum |
| `Ss58.PrefixLayout` | utils/src/lib.rs:874-888 | which bits of the one or two bytes make the ident |
| `Ss58.AddressIsAccepted` | utils/src/lib.rs:896-909 | parsing an encoded address gives its key |
| `Ss58.WellFormedInput` | utils/src/lib.rs:891-903 | input of the right form is refused for a reserved ident first, then for its checksum |
| `Ss58.MalformedInput` | utils/src/lib.rs:871-890 | other input is refused for its first byte or for its length |
| `Ss58.CanonicalIff` | utils/src/lib.rs:876-885 | accepted input is the standard's encoding exactly unless it is a two-byte form of an ident below 64 |
| `Ss58.SmallIdentsHaveTwoForms` | utils/src/lib.rs:874-885 | every address with such an ident is accepted in two forms |
| `SectorSizing.OverflowsIffAbove100` | farmer/src/lib.rs:974-976 | the computation stays within 64 bits exactly for percentages up to 100 |
| `SectorSizing.SectorsFillTheAllocation` | farmer/src/lib.rs:969-982 | sectors, cache share and fixed usage fit the allocation and leave less than a sector and 100 bytes; the count is the greatest that fits |
| `SectorSizing.CountIsMonotone` | farmer/src/lib.rs:973-982 | more space never gives fewer sectors, more cache never gives more |
| `SectorSizing.NothingFitsFixedUsage` | farmer/src/lib.rs:974-981 | no sector in an allocation that the fixed usage exhausts |
| `SegmentHeaders.CollectIsAllOrNothing` | node/src/lib.rs:890-901 | an answer exactly when every requested header is present, and then in order |
| `SegmentHeaders.LastHeadersCountDown` | node/src/lib.rs:870-887 | the last headers at max, max - 1, ..., as many as asked, allowed and there; an empty archive counts as segment 0 |
| `SegmentHeaders.GivenHeadersInOrder` | node/src/lib.rs:868-869 | given segments are answered in their order, all or nothing |
| `Vesting.GenesisGrants` | node/src/chain_spec.rs:92-122 | one balance and two schedules for each grant, and totals that differ by at most 36 base units for each |
| `Vesting.GrantIsAlmostFullyReleased` | node/src/chain_spec.rs:109-120 | a grant's two schedules never exceed the funded amount and fall short by at most 36 units, by none exactly when 48 divides it |
| `Vesting.ReleaseIsMonotone` | node/src/chain_spec.rs:109-120 | what is released never becomes less |
| `Vesting.NothingInFirstYear` | node/src/chain_spec.rs:110-111 | nothing is released in the first year |
| `Vesting.ReleaseFollowsTheExactShare` | node/src/chain_spec.rs:112-119 | after k further months the release is a quarter and k forty-eighths, each rounded down: the exact share of (12 + k)/48, short by at most 36 units |

## Left out

- `ReadersAndPieces`, the vesting pallet, Blake2b, Base58, the table of reserved idents and the segment-header store are not in the repository; they are parameters or the small explicit models that the modules describe.
- Farms themselves are not in the repository; what `FarmerLifecycle` takes of them is stated at its head: handlers are called only between the start of the driver and the end of the farm's future, a call under way keeps its farm from ending, and detaching a handler does not wait for a call.
- `configuration`, `prepare_for_start` and the background tasks of the farmer are taken to return once they are asked to; they cannot be cancelled, and close waits for them.
- Two farmers alive on one node: a farmer is built only when the driver of an earlier one, dropped instead of closed, has wound down.
- Panics inside tasks and cancelling `async_drop` part-way: with neither, a task's join cannot fail.
- A plain drop of a whole `Node`; the plain drop of a `Domain` and of a `Farmer` are modelled.
- The watch channel behind a progress stream: that it yields its first value at once and merges later ones is not modelled, each item yielded is one delivery.
- `Defer`: that a deferred closure is there when its drop runs it is a fact of one line; the closure is a payload here.
- The devnet chain specification turns grants into schedules by the same code as the Gemini one; month length and the base unit are parameters.
- `FarmerLifecycle` keeps of the two slots only whether they are filled; the contents are the subject of `PieceIndexing`, and `FarmerLifecycle.LookupFollowsTheFarmer` joins the two.
- RPC forwarding, libp2p and DSN construction, Substrate configuration, thread pools, builders and presets, telemetry: foreign calls or one-branch facts.
