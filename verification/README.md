# Verification of the call-merge service

This project models a service that reads call legs and links between them from a source
database, merges them into call records, and hands the finished records on. It proves,
for every run of the modelled system, what the service's design relies on. `dafny verify
dfyconfig.toml` checks everything; no file outside this directory is needed.

## The pipeline

Three actors share bounded queues. Two *readers* sweep a time-stamped table each, in
windows `(startTime, stopTime]`, and push the rows they find. A *container* joins them: it
opens a record for each originating leg, gives it the links with its id and the legs that
those links name, emits it once two watermarks have passed it, and throws away what came
too early for any record. A consumer takes the emitted records.

| file | content |
|---|---|
| `Rows.dfy` | legs, links, sequences of rows |
| `Readers.dfy` | the steps of a reader, its invariant, exactly-once reading |
| `MergeContainer.dfy` | what one pass of the container computes, as functions |
| `ContainerLaws.dfy` | what a pass keeps, with no assumption on the rows |
| `Pipeline.dfy` | the state machine of all actors, and its invariant over every interleaving |
| `SplitRuns.dfy` | runs in which a pass is no single step, and looks at the clock once for every record and leg |
| `Timing.dfy` | how old windows are when they are read and how wide they are chosen, that links wait until their calls are off line, and what is due when a pass lets it go |
| `Records.dfy` | each originating leg has its record, and no call has two |
| `LegInvariant.dfy` | where the terminating legs of a call are, whatever their order |
| `LinkCompleteness.dfy`, `LegCompleteness.dfy` | when an emitted record is complete |
| `FlowControl.dfy` | queue bounds and the pausing of readers |
| `Scenarios.dfy`, `Races.dfy`, `LostLegs.dfy` | reachable states in which things go wrong once an assumption is dropped |
| `ReaderLoops.dfy`, `MergeLoop.dfy` | the readers and the container as classes with the source's loops, proved against the functions |
| `PostProcess.dfy`, `MainLegs.dfy` | what becomes of an emitted record |
| `OnlineReplica.dfy` | the replica of calls on line, which holds the link reader back |

`M` is max_call_time and `R` is read_threshold_second. The theorems about runs assume
`0 < R <= M` and a positive queue size; that the settings do not change; and that rows
older than read_waiting_second no longer change. Reading, the bounds, the conservation of
links and of records and the flow control assume nothing else.

A pass reads the link reader's clock later than it empties the queues, and again for every
record and every waiting leg. In `SplitRuns.dfy` every other actor moves in between. The
theorems about records and their completeness are about such runs.

Completeness is a matter of one call. Leg ids are unique; beyond that nothing is assumed of
the rows of other calls. The links of the call start no earlier than a second before its
originating leg and at most `M` and a second after it (`LinksTimely`), which covers the
interval that the settings promise. Then its record holds all links if and only if none was
enqueued between the drain of the queues and the look at the clock
(`EmittedLinksAreComplete`). Without any assumption on times, it holds those links that its
pass had dequeued and no pass had dropped (`EmittedHoldsDequeued`).

For legs, `EmittedRecordIsComplete` says when a record is complete: if and only if every
terminating leg that its links name had been dequeued by the pass that emitted it. It
assumes further that no such leg starts before the originating one, that only one call
names it, and that no pass was disturbed by a link of the call as above (`LegRun`). A leg
may start as late as it likes. `EmittedRecordHasAllLegs` adds an order under which none is
late: no leg with a smaller or equal id is more than `M` newer than the originating one.
A link that names an originating leg never brings that leg into another record.

If all calls are timely, passes are single steps and ids follow start times, all records
are complete (`EmittedRecordsAreComplete`, `EmittedRecordsHaveAllLegs`).

Each assumption is needed. (What the states below say of their rows holds all the way there, as
`ReachedInTime` shows for timely calls.) `OverlapLosesLink` is a run with a link enqueued between the drain
and the look. In `TooEarlyIsLost` and `TooLateIsLost` a link is lost that is one second
outside the interval. In `DisorderLosesLeg` a leg comes too late, in `EarlyLegIsLost` it starts
a second before its call, in `SharedLegIsLost` two calls name it. `OrigLegIsNotHeld` has a
link that names an originating leg, and `OrigLegIsOverwritten` two legs with one id. In
`StallIsReachable` and `LinkStallIsReachable` the reader that is behind is the one that is
paused, and it stays so for ever. `FlowControl.AlwaysAhead` says which runs are free of
this; those in which no single pass moves a maximum by more than `4M` are among them.

The time before which records may leave is a 32-bit `int` in the source. The class keeps
that, and `MergeLoop.NothingLeavesAfter2038` shows the consequence.

## The other parts

| file | content |
|---|---|
| `Common.dfy` | what several parts share |
| `Base64.dfy`, `Base64Decoding.dfy` | the encoder with its overflowing accumulator is section 4 of RFC 4648; the decoder undoes it |
| `Calendar.dfy`, `Periods.dfy`, `DateText.dfy` | broken-down time as in section 4.16 of POSIX.1-2017 XBD, days and months in a time zone, stamps as text |
| `QueryReduce.dfy`, `QueryText.dfy` | a select over a list of values as a union of selects |
| `Puller.dfy` | incremental synchronisation of a table, in a transaction |
| `SpeedLimiter.dfy` | the bandwidth limiter on a ring of 128 points |
| `RingBuffer.dfy`, `ErrorHistory.dfy` | a ring of any capacity, and the errors a task remembers |
| `LogCoalescing.dfy` | messages that are published once in a while with their number |
| `Allocator.dfy` | a bump allocator |
| `CountersLoader.dfy` | a shared cache that is replaced or updated in place |

Where the code does something else than its comments or its callers expect, the code is
followed. The reducing law of `query_reduce_select` is documented for lists; "union" removes
duplicates, so the law is used on sets of rows. A stamp outside the years 1900 to 4900
is written as the first second of 1900, so that it does not read back. The pause of the speed
limiter is cut to whole nanoseconds, so that the bandwidth holds but for one of them. The
decoder accepts padding anywhere in the text, and erases more than it has if there is
too much. An update notification that changes a pair of ids is lost on the replica. Rows that come
back for ids that were not asked for can hide from the counter cache that others are missing.

## Model

| member | source | states |
|---|---|---|
| Readers.ExactlyOnce | src/service/ReadCallLeg.cpp:47-73 | outside a window being pushed, the rows ever enqueued are exactly the rows after the start and up to startTime, each once; inside one, the same holds for the rows up to startTime |
| Readers.SourceKeepsInv | src/service/ReadCallLegLink.cpp:71-75 | rows younger than the waiting time may come, go or change, and the clock may advance, without disturbing what was read |
| Readers.CheckKeepsInv | src/service/ReadCallLeg.cpp:56-60 | a window is only read when it has been closed for more than the waiting time |
| Readers.PushKeepsInv | src/service/ReadCallLeg.cpp:83-122 | enqueuing the next row of a window keeps the reader's invariant: no row twice, none skipped, none a full window older than one before |
| Readers.CloseKeepsInv | src/service/ReadCallLeg.cpp:66 | closing a window keeps the windows contiguous and disjoint |
| Readers.ExtendKeepsInv | src/service/ReadCallLegLink.cpp:83-86 | the next window is R or M wide |
| Readers.LateRow | src/service/ReadCallLegLink.cpp:62-88 | a row still to come is newer than everything read, less one window |
| Timing.RunKeepsPace | src/service/ReadCallLegLink.cpp:62-88 | in every run: a window is read only when its stop is R old and a newer row is read_waiting_second old, and the same holds of every window closed and every row sent; the first window is R wide, and a wider one has such a row behind it |
| Timing.WidthIsChosen | src/service/ReadCallLeg.cpp:68-71 | in every run: the next window is M wide if and only if a row more than M behind the last one is read_waiting_second old, and otherwise R |
| Timing.SentWasOffLine | src/service/ReadCallLegLink.cpp:122-151 | in every run, for every link sent: in two states before it was enqueued, the first no later than the second, its originating and its terminating id were empty or no call on line had them |
| ReaderLoops.ReadCallLeg.constructor | src/service/ReadCallLeg.cpp:41-45 | a reader begins with one window of the threshold's width after the start |
| ReaderLoops.ReadCallLeg.Pause | src/service/ReadCallLeg.cpp:21-24 | pausing changes the pause flag only |
| ReaderLoops.ReadCallLeg.Resume | src/service/ReadCallLeg.cpp:26-29 | resuming changes the pause flag only |
| ReaderLoops.ReadCallLeg.Poll | src/service/ReadCallLeg.cpp:51-60 | the reader goes on if and only if its stop time is set and R old, and a row later than the stop and at least read_waiting_second old is there |
| ReaderLoops.ReadCallLeg.Fetch | src/service/ReadCallLeg.cpp:77-81 | the query is made exactly when the reader is not paused |
| ReaderLoops.ReadCallLeg.Fill | src/service/ReadCallLeg.cpp:83-122 | the loop performs push steps only, as many as the room in the queue and the rows allow, and stops only at the end of either |
| ReaderLoops.ReadCallLeg.Advance | src/service/ReadCallLeg.cpp:66-71 | the next window begins at the stop and is M wide if a row more than M behind the stop is at least read_waiting_second old, and R wide if none is |
| ReaderLoops.ReadCallLegLink.constructor | src/service/ReadCallLegLink.cpp:56-60 | the link reader begins in the same way, waiting for no id |
| ReaderLoops.ReadCallLegLink.Ask | src/service/ReadCallLegLink.cpp:122-135 | the answer is whether the id in question, the originating one first and then the terminating one, is not empty and on line |
| ReaderLoops.ReadCallLegLink.Look | src/service/ReadCallLegLink.cpp:122-146 | a row passes a look at the replica if and only if its id in question is empty or no pair on line has it; the id reported as waited for is always one of the row at hand |
| ReaderLoops.ReadCallLegLink.Offer | src/service/ReadCallLegLink.cpp:148-151 | after both looks the row is enqueued exactly when there is room |
| ReaderLoops.ReadCallLegLink.Poll | src/service/ReadCallLegLink.cpp:66-75 | as for the leg reader |
| ReaderLoops.ReadCallLegLink.Fetch | src/service/ReadCallLegLink.cpp:92-97 | as for the leg reader |
| ReaderLoops.ReadCallLegLink.Advance | src/service/ReadCallLegLink.cpp:81-86 | as for the leg reader |
| ContainerLaws.Conservation | src/service/MergeContainer.cpp:123-194 | for any rows: every link that a pass dequeued, or that was there before, is afterwards in exactly one of the waiting groups, a live record, an emitted record and the dropped groups, as often as it came |
| ContainerLaws.PassOwnLinks | src/service/MergeContainer.cpp:149-157 | for any rows: a record only ever holds links with its own id |
| ContainerLaws.PassIsSharp | src/service/MergeContainer.cpp:169-194 | a pass emits exactly the swept records that both watermarks have passed and keeps the others, keeps exactly the waiting legs that are not stale, and keeps or drops each waiting group whole by the age of its first link |
| ContainerLaws.PassIsDue | src/service/MergeContainer.cpp:169-194 | the same in stamps: a record leaves, and a waiting leg is evicted, if and only if its start plus M is before the newest leg and before the clock as the pass sees it; a group is dropped if and only if the start of its first link plus M is before the newest leg |
| Timing.PassIsPunctual | src/service/MergeContainer.cpp:169-194 | in every run each pass lets go exactly the records for which some leg dequeued and the clock are more than M later, leaves no such leg waiting, and drops exactly the groups whose first link some leg dequeued is more than M later than |
| Timing.StepIsPunctual | src/service/MergeContainer.cpp:169-185 | the same for a pass that is one step, with the clock as it stands |
| ContainerLaws.PassMaxima | src/service/MergeContainer.cpp:114-132 | the two maxima are the maxima of all stamps dequeued so far |
| ContainerLaws.SweepCollects | src/service/MergeContainer.cpp:149-157 | with distinct ids each record takes the whole group that waits for it, and all other groups stay |
| ContainerLaws.SweepTakes | src/service/MergeContainer.cpp:149-166 | with distinct ids each record takes exactly the waiting legs that its links name and that no earlier record's links name, and the legs that no record's links name stay |
| ContainerLaws.OnlyClaimTakes | src/service/MergeContainer.cpp:159-166 | a record whose waiting legs no other record's links name takes all that its links name, whatever the other records share |
| MergeContainers.AttachLegsWaiting | src/service/MergeContainer.cpp:160-166 | attaching takes exactly the named legs out of the waiting map |
| MergeLoop.MergeContainer.constructor | src/service/MergeContainer.cpp:76-84 | the container and both readers begin at the start time |
| MergeLoop.MergeContainer.TakeLegs | src/service/MergeContainer.cpp:114-121 | the loop opens records and stores terminating legs as specified |
| MergeLoop.MergeContainer.TakeLinks | src/service/MergeContainer.cpp:123-132 | the loop groups links by originating id in order of arrival |
| MergeLoop.MergeContainer.PauseOrResume | src/service/MergeContainer.cpp:136-146 | both readers run if the maxima are at most 2M apart; otherwise a pause stays as it is, and if there is none the reader ahead is paused |
| MergeLoop.MergeContainer.Attach | src/service/MergeContainer.cpp:150-166 | a record takes its group and the legs that its links name, in place |
| MergeLoop.MergeContainer.SweepRecords | src/service/MergeContainer.cpp:149-177 | the loop that erases while it walks keeps and emits records in order, all with their links and legs; emitted are those that started before the save time and more than M before the clock, and none of these is kept |
| MergeLoop.MergeContainer.EvictLegs | src/service/MergeContainer.cpp:179-185 | erasing while walking removes exactly the legs that started before the save time and more than M before the clock |
| MergeLoop.MergeContainer.EvictLinks | src/service/MergeContainer.cpp:187-194 | erasing while walking removes exactly the groups whose first link is too old |
| MergeLoop.MergeContainer.RunOnce | src/service/MergeContainer.cpp:114-194 | one pass of the loops in place computes the pass function with a 32-bit save time, hence the pass of the state machine while the save time fits; then all that is emitted was due in stamps, and nothing that is left is; and the throttling |
| MergeLoop.NarrowKeeps | src/service/MergeContainer.cpp:134 | the narrowing of the save time is harmless exactly while it fits 32 bits |
| MergeLoop.NothingLeavesAfter2038 | src/service/MergeContainer.cpp:134-194 | once the save time has overflowed nothing is emitted and no link dropped |
| Pipeline.NextInv | src/service/MergeContainer.cpp:98-196 | every step of every actor keeps the invariant of the readers, queues, maxima and the conservation of links |
| Pipeline.RunInv | src/service/MergeContainer.cpp:98-196 | the invariant holds in every state of every run, whatever the rows |
| Pipeline.SourceIsFree | src/service/ReadCallLegLink.cpp:71-75 | rows younger than the waiting time may come, go or change at any moment, and so may the calls on line |
| Pipeline.MergeDrains | src/service/MergeContainer.cpp:105-106 | a pass empties both queues, because a bulk is as large as a queue |
| SplitRuns.SplitRunInv | src/service/MergeContainer.cpp:98-196 | the invariant also holds in every state of every run in which passes overlap with the readers, and see another clock for each record and each leg |
| SplitRuns.RunGrows | src/service/ReadCallLegLink.cpp:92-151 | in every such run what was dequeued, emitted or sent stays so, and what the link reader enqueues after a state is newer than its clock in that state |
| SplitRuns.StepsAreEvents | src/service/MergeContainer.cpp:105-169 | a run whose passes are single steps is one of these runs |
| Records.PassConservesRecords | src/service/MergeContainer.cpp:114-177 | for any rows: a pass opens a record for each originating leg it dequeued, and every record is afterwards live or emitted, with its id and start |
| Records.RecordsAreConserved | src/service/MergeContainer.cpp:114-177 | in every run, whatever the rows, each originating leg dequeued has its record, live or emitted, as often as it came |
| Records.NoCallTwice | src/service/MergeContainer.cpp:114-177 | in every run with unique leg ids no call has two records, live or emitted |
| LinkCompleteness.EmittedLinksAreComplete | src/service/MergeContainer.cpp:105-173 | in every run, for one call with timely links and any other rows: an emitted record holds every link of the source with its id, exactly once, if and only if none was enqueued between the drain of the queues and the look at the clock; that is certain if the clock was past the call at the drain |
| LinkCompleteness.EmittedRecordHasAllLinks | src/service/MergeContainer.cpp:149-173 | in every run that does not disturb a pass so, the emitted record of a call with timely links holds every link with its id, exactly once |
| LinkCompleteness.EmittedHoldsDequeued | src/service/MergeContainer.cpp:149-194 | in every run with unique leg ids, whatever the times: an emitted record holds a link with its id if and only if the pass that emitted it had dequeued the link and no pass had dropped it |
| LinkCompleteness.EmittedRecordsAreComplete | src/service/MergeContainer.cpp:149-194 | if all calls are timely and passes are single steps, every emitted record holds every link of the source with its id, exactly once |
| LinkCompleteness.DroppedForGood | src/service/MergeContainer.cpp:187-194 | for one call with timely links, in every run that disturbs no pass: stale-link eviction only drops its links if its originating leg lies before the start |
| LinkCompleteness.AwaitedIsFresh | src/service/MergeContainer.cpp:189-194 | whatever the rows: a link that starts at most a second before an originating leg that is still to come is not stale, because a window is at most M wide |
| LegCompleteness.EmittedRecordHasAllLegs | src/service/MergeContainer.cpp:159-185 | in every run that disturbs no pass, for one call whose legs are on time and any other rows: its emitted record holds its originating leg and every terminating leg that its links name, and nothing else |
| LegCompleteness.EmittedRecordsHaveAllLegs | src/service/MergeContainer.cpp:159-185 | if all calls are timely, passes are single steps and ids follow start times, that holds of every emitted record |
| LegInvariant.NamedLegIsKept | src/service/MergeContainer.cpp:179-185 | a terminating leg that a link of a timely call names, however late it starts, is evicted only after the record of that call is there and the link has been dequeued |
| LegInvariant.NamedLegsAreKept | src/service/MergeContainer.cpp:159-185 | in every run that disturbs no pass, for one timely call, whatever the order of legs and however late they start: a named leg that was dequeued waits, or the live record of its call has it, or that record has been emitted |
| LegCompleteness.EmittedRecordIsComplete | src/service/MergeContainer.cpp:159-177 | in every run that disturbs no pass up to the one at hand, for one timely call, whatever the order of legs and however late they start: its emitted record has all links, and is and stays complete in terminating legs if and only if the pass that emitted it had dequeued every one that its links name |
| LegCompleteness.NamedLegIsHeld | src/service/MergeContainer.cpp:115-117 | of the legs that its links name, a complete record holds exactly those that are not originating ones, and its own |
| LegCompleteness.LateLegFollows | src/service/ReadCallLeg.cpp:80-83 | a leg still to come is no older than any leg read, or its id is no smaller |
| FlowControl.QueuesAreBounded | src/service/MergeContainer.cpp:170-172 | in every run all three queues hold at most max_queue_size |
| FlowControl.NeverBothPaused | src/service/MergeContainer.cpp:136-146 | in every run the two readers are never both paused |
| FlowControl.PausedLegReader | src/service/ReadCallLeg.cpp:77-78 | while it stays paused the leg reader completes at most the window it was pushing |
| FlowControl.PausedLinkReader | src/service/ReadCallLegLink.cpp:92-93 | the same for the link reader |
| FlowControl.PassKeepsAhead | src/service/MergeContainer.cpp:136-146 | a pass leaves the right reader paused if and only if what is queued does not overtake the paused one by more than 2M |
| FlowControl.AlwaysAhead | src/service/MergeContainer.cpp:136-146 | in a run it is always the reader ahead that is paused if and only if every pass finds such queues |
| FlowControl.PausedReaderIsAhead | src/service/MergeContainer.cpp:136-146 | if no pass moves a maximum by more than 4M, the paused reader is the one ahead, in every state |
| FlowControl.StallIsPermanent | src/service/MergeContainer.cpp:136-146 | a leg reader that is paused while behind, with nothing in flight, never reads again |
| FlowControl.LinkStallIsPermanent | src/service/MergeContainer.cpp:136-146 | the same for the link reader |
| Races.OverlapLosesLink | src/service/MergeContainer.cpp:105-169 | a run in which a pass emits the record of a timely call without a link of the source that was enqueued between the drain and the look |
| Races.TooEarlyIsLost | src/service/MergeContainer.cpp:187-194 | a reachable state in which the only link of a call was lost because it starts two seconds before the originating leg |
| Races.TooLateIsLost | src/service/MergeContainer.cpp:169-173 | a reachable state in which the only link of a call was lost because it starts M and two seconds after the originating leg |
| LostLegs.DisorderLosesLeg | src/service/MergeContainer.cpp:169-173 | a reachable state in which an emitted record lacks a named leg, all assumptions on all calls but the order of legs being met |
| LostLegs.EarlyLegIsLost | src/service/MergeContainer.cpp:179-185 | the same, all being met but that the named leg starts a second before the originating one |
| LostLegs.SharedLegIsLost | src/service/MergeContainer.cpp:159-166 | the same, all being met but that another call names the leg too |
| LostLegs.OrigLegIsNotHeld | src/service/MergeContainer.cpp:114-117 | a reachable state in which an emitted record lacks a leg that its link names because that leg is an originating one |
| LostLegs.OrigLegIsOverwritten | src/service/MergeContainer.cpp:163 | a reachable state in which an emitted record has lost its originating leg to another leg with the same id, and has no main leg |
| Races.StallIsReachable | src/service/MergeContainer.cpp:136-141 | a reachable state in which the leg reader is paused for good while behind |
| Races.LinkStallIsReachable | src/service/MergeContainer.cpp:136-141 | a reachable state in which the link reader is paused for good while behind |
| PostProcess.PostProcess | src/service/MergeService.cpp:90-104 | walking the map while it grows ends with the originating leg of the greatest key, each leg listed as often as others are linked to it, an empty leg for every missing id, the listed legs by ascending start texts and the links by ascending ids |
| PostProcess.SortSorts | src/service/MergeService.cpp:103-104 | sorting by a weak order gives a sorted sequence |
| PostProcess.ComparatorsAreWeak | src/service/MergeService.cpp:25-37 | both comparators are weak orders |
| PostProcess.LessIsPrecedes | src/service/MergeService.cpp:28 | the order of texts is lexicographic: after a common prefix the shorter text ends or has the smaller character |
| MainLegs.PassKeepsOnlyOrig | src/service/MergeContainer.cpp:114-166 | for any rows: a pass keeps it that no record holds an originating leg under another id than its own |
| MainLegs.RunOnlyOrigs | src/service/MergeContainer.cpp:114-166 | in every run, split passes included and whatever the rows, no record, live or emitted, holds an originating leg under another id than its own |
| MainLegs.MainLegOf | src/service/MergeService.cpp:95-97 | the main leg is the originating leg if the record still has it, and is left unset exactly if not |
| MainLegs.EmittedHasMainLeg | src/service/MergeService.cpp:95-97 | in every run with unique leg ids, and nothing else assumed of the rows, each emitted record still has its originating leg, and that is the main one |
| MainLegs.LinkedCount | src/service/MergeService.cpp:99-100 | one leg is listed for each original leg that is linked to another |
| OnlineReplica.OnlineWatcher.Snapshot | src/service/MergeOnline.cpp:147-159 | the replica holds the rows of the snapshot |
| OnlineReplica.OnlineWatcher.Notify | src/service/MergeOnline.cpp:198-228 | the bag of pairs follows the notification; an update changes the first row with the pair only, a delete removes that row if there is one |
| OnlineReplica.OnlineWatcher.Watch | src/service/MergeOnline.cpp:147-228 | after a snapshot and any notifications the replica is their replay, and it is the table if these announce its changes and none updates a pair |
| OnlineReplica.OnlineWatcher.CheckUniqueIdOrig | src/service/MergeOnline.cpp:87-105 | the answer is whether the id is not empty and some pair has it |
| OnlineReplica.OnlineWatcher.CheckUniqueIdTerm | src/service/MergeOnline.cpp:107-125 | the same for the terminating id |
| OnlineReplica.MergeOnline.CheckUniqueIdOrig | src/service/MergeOnline.cpp:55-66 | the same over all watchers |
| OnlineReplica.MergeOnline.CheckUniqueIdTerm | src/service/MergeOnline.cpp:68-79 | the same over all watchers |
| OnlineReplica.ChangeIsFollowed | src/service/MergeOnline.cpp:203-228 | a right replica stays right after a change of the table if and only if the change is no update of a pair |
| OnlineReplica.ReplicaFollows | src/service/MergeOnline.cpp:147-228 | the replica is right at every moment if and only if no update touches a pair |
| Base64.Encode | src/common.cpp:303-320 | the accumulator loop, with a wrapping 32-bit value, is section 4 of RFC 4648 for every byte string |
| Base64.EncodedLength | src/common.cpp:319 | the text has 4 * ceil(n / 3) characters |
| Base64.WrapLow | src/common.cpp:308-310 | the wrapped accumulator still holds the last two bytes |
| Base64Decoding.EncodedStands | src/common.cpp:303-320 | in every group of every encoding the symbols stand, by table 1 of RFC 4648, for the six-bit pieces of its bytes, and padding takes the place of missing ones |
| Base64Decoding.DecodeUndoesEncode | src/common.cpp:279-301 | decoding gives back every byte string, also from a text without some or all of its padding |
| Base64Decoding.DecodeFails | src/common.cpp:279-301 | of the texts without white space, exactly which raise an error, and which make the decoder erase more than it has |
| Base64Decoding.FailsOutside | src/common.cpp:279-301 | a text without white space has a bad symbol if and only if a character other than the padding is outside table 1 |
| Calendar.GmTime | src/common.cpp:93-94 | every stamp has a normal broken-down time, which gives the stamp back |
| Calendar.IsPosix | src/common.cpp:202 | the stamp of a normal time is the formula of section 4.16 of POSIX.1-2017 XBD |
| Calendar.GmTimeUnique | src/common.cpp:202 | no other normal time does |
| Calendar.NextYear | src/common.cpp:202 | the formula of the standard grows by 366 days in leap years and by 365 in others |
| Calendar.MonthsAre | src/common.cpp:259-277 | the lengths of the twelve months, with the leap rule of the Gregorian calendar |
| Periods.GetDayTs | src/common.cpp:226-237 | clearing the time fields gives the local midnight at or before the stamp |
| Periods.GetDayEndTs | src/common.cpp:239-241 | the last second of that day |
| Periods.GetMonthTs | src/common.cpp:243-257 | overwriting the fields gives the first second of the local month |
| Periods.GetMonthEndTs | src/common.cpp:259-277 | with the carry from December, the second before the next local month |
| Periods.DaysTile | src/common.cpp:226-241 | for every offset: a stamp lies in its day, two stamps have the same day exactly if one lies in the other's, and days abut |
| Periods.MonthsTile | src/common.cpp:243-277 | the same for months, and each has its calendar length |
| Periods.DayBegins | src/common.cpp:226-241 | the day begins at the local midnight of its date and ends at 23:59:59 |
| Periods.MonthBegins | src/common.cpp:243-277 | the month begins at the local midnight of its first day and ends before that of the next month |
| DateText.StringTime | src/common.cpp:90-105 | the text written, with stamps outside the years 1900 to 4900 replaced |
| DateText.FormatIs | src/common.cpp:103 | the text has 19 characters: four digits of the year and two of each other field, with the separators between them |
| DateText.RoundTrip | src/common.cpp:90-204 | reading what was written gives the stamp back if and only if it lies in the years 1900 to 4900 |
| DateText.ScanFormat | src/common.cpp:191-204 | scanning a formatted time finds its six fields |
| DateText.ScanSigned | src/common.cpp:191-204 | a number is read with its sign |
| DateText.NoNumber | src/common.cpp:191-204 | a text that does not begin with a number is read as the Epoch |
| QueryReduce.RewriteKeepsMeaning | src/db/BDb.cpp:363-393 | for every table, every list of values with repetitions and every lawful reducing condition, the query gives what the reduced select over the list gives |
| QueryReduce.TopNIsLawful | src/db/BDb.h:68-78 | "order by key desc limit n" obeys the law on rows with distinct order keys |
| QueryReduce.TopNSorts | src/db/BDb.h:78 | that condition gives the n greatest rows in descending order |
| QueryText.SplitAny | src/common/split.cpp:5-46 | the two loops give the segments between commas that are not empty |
| QueryText.SplitValues | src/db/BDb.cpp:33-42 | trimming in place gives the trimmed segments, or an error if one is all space |
| QueryText.QueryReduceSelect | src/db/BDb.cpp:363-393 | the text built is that of the planned query, and errors come in the source's order |
| QueryText.TextAsksForList | src/db/BDb.cpp:371-393 | the text built for a list reads in one way only, as a reduced query whose answer, for every lawful reducing condition, is what the reduced select over the list gives |
| QueryText.ListIsRead | src/db/BDb.cpp:26-42 | a list in brackets, with any space around it and its values, is read as its values |
| QueryText.ListIsRefused | src/db/BDb.cpp:26-42 | exactly which texts are refused, and with which error |
| Pullers.Intersect | src/data/sync/Puller.cpp:18-26 | the joined condition holds exactly where both do, an empty one holding everywhere |
| Pullers.Transaction.Commit | src/db/BDbTransaction.cpp:25-28 | a commit publishes the work and closes the transaction, or does nothing and leaves it open |
| Pullers.Transaction.Destroy | src/db/BDbTransaction.cpp:12-18 | an open transaction is rolled back, a committed one is left alone |
| Pullers.Puller.IsFullPullRequired | src/data/sync/Puller.cpp:122-135 | everything is pulled exactly if there is no key or some id is 0 |
| Pullers.Puller.CreateUpdateQueries | src/data/sync/Puller.cpp:137-154 | the condition holds exactly of the filtered rows with the keys asked for, or of all filtered ones if there is no key or an id 0; what is emptied goes with it |
| Pullers.Puller.Copy | src/db/BDb.cpp:447-506 | exactly when a copy ends and when it is stopped; one that ends has transferred all selected rows and counted all bytes |
| Pullers.Puller.Transfer | src/data/sync/Puller.cpp:80-90 | whatever fails and wherever, the destination is the pulled one or the old one |
| Pullers.Puller.Pull | src/data/sync/Puller.cpp:62-116 | exactly when a pull succeeds, when it is stopped and when it is an error, a keyed pull of no ids among these; after a success the destination has the filtered source rows with the keys asked for, or all of them, and is otherwise as it was; after a failure the destination, the versions and the counters are unchanged, but for the error count, which does not count a stop |
| Pullers.Puller.Clear | src/data/sync/Puller.cpp:164-173 | no versions are left |
| Pullers.Puller.PullMirrors | src/data/sync/Puller.cpp:62-116 | a pull makes the destination a mirror if and only if it is full or the rows it leaves alone were right |
| Pullers.Puller.IncrementalIsFull | src/data/sync/Puller.cpp:137-154 | pulling the changed ids and pulling everything give the same destination, the filtered source |
| Pullers.Puller.PullsConverge | src/data/sync/Puller.cpp:62-116 | after any changes and any pulls, failed ones included, the destination is right about every key pulled since it last changed |
| SpeedLimiters.SpeedLimiter.OnProgressUpdated | src/db/SpeedLimiter.cpp:11-43 | after every call the ring holds the newest 128 points, in order and the least gap apart but for the last two, and the bytes between the first and the last fit the bandwidth but for a nanosecond; the pause is what is missing for that, cut to nanoseconds, and none if nothing is; a point replaces the last one exactly if that is less than the gap behind the one before |
| SpeedLimiters.SpeedLimiter.Store | src/db/SpeedLimiter.cpp:21-26 | replacing or appending in the ring is replacing or appending the last point of the sequence |
| SpeedLimiters.WrapFindsSlot | src/db/SpeedLimiter.cpp:45-51 | unsigned wrap-around and the mask find the slot behind the tail, also across zero |
| SpeedLimiters.SpeedLimiter.First | src/db/SpeedLimiter.cpp:45-47 | the oldest point in the ring |
| SpeedLimiters.SpeedLimiter.Penult | src/db/SpeedLimiter.cpp:49-51 | the point before the last |
| SpeedLimiters.SpeedLimiter.Last | src/db/SpeedLimiter.cpp:53-55 | the newest point |
| SpeedLimiters.RingIsEnough | src/db/SpeedLimiter.cpp:16-26 | the newest 128 points only depend on the newest 128 points before |
| SpeedLimiters.ExtendedKeeps | src/db/SpeedLimiter.cpp:16-26 | a new point keeps the points ordered, and all neighbours but the last two the least gap apart |
| SpeedLimiters.Nap | src/db/SpeedLimiter.cpp:38-42 | the time asked of nanosleep is less than a nanosecond short |
| RingBuffers.RingBuffer.Clear | src/systems/RingBuffer.h:29-33 | the ring is empty |
| RingBuffers.RingBuffer.Grow | src/systems/RingBuffer.h:35-41 | room at the back, at the cost of the oldest element when the ring is full |
| RingBuffers.RingBuffer.Push | src/systems/RingBuffer.h:43-46 | for every capacity: the contents are the last elements of the old contents and the new one |
| RingBuffers.RingBuffer.Pop | src/systems/RingBuffer.h:53-58 | the oldest element goes, if there is one |
| RingBuffers.RingBuffer.Front | src/systems/RingBuffer.h:26 | the oldest element |
| RingBuffers.RingBuffer.Back | src/systems/RingBuffer.h:27 | the newest element |
| RingBuffers.RingBuffer.CopyTo | src/systems/RingBuffer.h:60-71 | the loop copies the contents, oldest first |
| ErrorHistories.CyclicTask.SaveError | src/daemon/cyclic_task.cpp:161-179 | the ring is the end of the run-length encoding of the whole history, and the count that of all runs |
| ErrorHistories.CyclicTask.CurrentErrors | src/daemon/cyclic_task.cpp:181-189 | the last ten runs, newest first |
| ErrorHistories.RunsEncode | src/daemon/cyclic_task.cpp:161-179 | the runs say exactly what was reported, in order, with no empty run, no equal neighbours and the time of the last report |
| LogCoalescing.LogInstance.Loop | src/log/log_instance.cpp:70-101 | what every round publishes, stores and queues; it keeps the conservation of delayed messages, their spacing and the last messages; a flush gives the handlers all that was published |
| LogCoalescing.LogInstance.DelayMessage | src/log/log_instance.cpp:105-128 | a message is held exactly if it is delayed and not due, or clears the delays; for each text, delayed arrivals are the published multiplicities, those queued and those pending |
| LogCoalescing.ShownIs | src/log/log_instance.cpp:121 | a message that stands for several has their decimal number in front of its text, and no other has |
| LogCoalescing.LogInstance.CountMessage | src/log/log_instance.cpp:117-128 | if the text was last published longer ago than the message asks for, it is published with the number pending and itself, and otherwise counted; the level is the last one |
| LogCoalescing.LogInstance.ClearDelayMessages | src/log/log_instance.cpp:130-154 | exactly the texts last published over an hour ago are forgotten, and for exactly those of them with something pending a message with the number, the last time and the last level is queued |
| LogCoalescing.KnownAfter | src/log/log_instance.cpp:121-125 | publications of a text between clears are more than the delay apart |
| LogCoalescing.PendingQueued | src/log/log_instance.cpp:134-147 | clearing a text moves its pending number into one queued message |
| Allocators.Allocator.AllocateAligned | src/systems/Allocator.cpp:4-21 | all blocks ever handed out stay aligned, inside one extent and apart; a block comes if and only if it fits here or in some new extent, right behind the last one if it fits here |
| Allocators.Allocator.AllocateExtent | src/systems/Allocator.cpp:23-27 | a new extent keeps all blocks where they are |
| Allocators.OneExtentIsEnough | src/systems/Allocator.cpp:13-16 | one new extent is enough wherever the heap puts it if and only if alignment - 1 + size is at most 65536 |
| CountersLoaders.CountersLoader.Load | src/data/counters/CountersLoader.hpp:16-48 | the counter is replaced exactly if there was none, the numbers differ or an id is new, and then holds what it should; otherwise the rows are assigned in place; if the rows answer the ids, each once, both come to removing the ids and adding the rows, and a snapshot obtained earlier keeps its keys |
| CountersLoaders.CountersLoader.HaveNewRows | src/data/counters/CountersLoader.hpp:56-69 | whether some id is not known |
| CountersLoaders.InPlaceIsLoaded | src/data/counters/CountersLoader.hpp:42-47 | assigning in place is the whole load if and only if every known id asked for came back, and keeps the keys if and only if no unknown one came |
| CountersLoaders.InPlaceIsEnough | src/data/counters/CountersLoader.hpp:42-47 | both are so if the rows answer the ids, each once, in the same number, and all ids are known |
| CountersLoaders.AllCameBack | src/data/counters/CountersLoader.hpp:25 | as many distinct rows as ids means that every id came back |
| CountersLoaders.KeysAfterLoad | src/data/counters/CountersLoader.hpp:32-37 | the keys after a load |
| CountersLoaders.ValuesAfterLoad | src/data/counters/CountersLoader.hpp:32-37 | the value of a key is that of the last row with it, or the old one |

## Left out

- Pipeline.RunInv: a pass of the container is one step of this state machine, as in FlowControl; SplitRuns.SplitRunInv drops that.
- SplitRuns.SplitRunInv: the work of a pass is placed at the moment when it emptied the queues, and its `outbox` fills then; equal records of one pass see the same clock.
- Pipeline.NextInv: the state machine's save time is unbounded; MergeLoop.MergeContainer.RunOnce says when that agrees with the 32 bits of the source.
- MergeLoop.MergeContainer.RunOnce: the wait for room in the output queue is the state machine's `outbox`, which the class returns as `emitted`.
- ReaderLoops.ReadCallLegLink.Look: the loop around one look, which sleeps, is a sequence of calls; all watchers have their first snapshot, for which the source waits.
- Base64Decoding.DecodeUndoesEncode: texts with white space, which the library skips after the padding was counted, are not modelled; the encoder writes none.
- Base64Decoding.DecodeFails: texts with white space are excluded here too, although the source accepts them.
- DateText.RoundTrip: parseDateTime on a text with only some of the six fields uses fields that were never set; the model says so and no more.
- QueryReduce.RewriteKeepsMeaning: rows that are equal in all selected columns, which "union" would merge, are one row of the model.
- Pullers.Puller.Pull: reconnecting and repeating commands inside BDb::exec are not modelled; a command that fails has no effect, a COMMIT included.
- SpeedLimiters.SpeedLimiter.OnProgressUpdated: doubles are reals, the sleep is as long as asked for, and the byte count does not wrap around 64 bits.
- Allocators.Allocator.AllocateAligned: sizes near 2^64, for which the sum in the source would wrap, are not modelled.
- Payload columns of legs and links, and everything that is built from reports: field copying.
- Liveness: that a reader, a pass or a call eventually goes on. Sleeping is the absence of a step.
- Locks and the memory model: queues are first-in first-out sequences and their sizes exact.
- The network, PostgreSQL, JSON, the notification transport and the moment of LISTEN: a table is a set or a bag, a query a filter with an order.
- Times are whole seconds; two links with one id but different servers may come in either order.
- The web pages, settings, log files, daemon control, PullManager, DbPool and the commented-out SQL output: plumbing.
