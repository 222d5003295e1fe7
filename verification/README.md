# Verification of the event-sourcing core

A Dafny model of the parts of this library that carry its promises: no update is lost, no event
is lost, and views agree with the write side. Everything is checked by
`dafny verify dfyconfig.toml`; nothing here runs.

## What is modelled

* **The checkpoint committer** (`Committer`, `CommitterRuns`, `CommitterTimer`): completions in any
  order, a contiguous frontier, batches by count and by clock, stores that may fail at any call.
* **The catch-up subscription** (`CatchUp`): resume after the stored checkpoint, skip system events,
  store after each event, any number of runs ended in any way.
* **The write path** (`MemStore`, `StateLoading`, `Aggregates`, `CommandService`,
  `AggregateCommands`, `Serialisability`, `MixedClients`): the in-memory store with its version
  check and global positions, loading and folding, the functional and the aggregate command
  service, and many clients of either whose loads and appends interleave.
* **The booking sample** (`Booking`, `BookingRuns`, `ReadModel`, `GuestIndex`, `EndToEnd`,
  `Subscribed`): decisions, the streams they can produce, the two-map read model, and the combined
  statement from commands to views.
* **The middleware** (`Semaphore`, `Partitioning`, `Chain`): small step protocols over channels and
  goroutines, and the chaining loop.

A class is the code: its methods have the source's fields, branches and loops, and are proved to
have the effect of a function on the class's `View()`. The lemmas are about those functions, over
whole histories of calls. A store that accepts or refuses a write, a clock reading, a handler's
success and what a subscription receives are parameters of the operation concerned, so every
statement is for all of them.

## Where the code and its comments differ

* `core/subscription/committer.go:29` and `:35` speak of events; the code counts calls that move the
  frontier. `CommitterRuns.BatchBoundFailsOutOfOrder` gives histories with any number of events
  unstored, `CommitterRuns.BatchBoundExactly` the exact condition.
* `core/subscription/committer.go:36` promises a commit at least every interval. With stores that
  may fail this is not so: a position is unstored with no timer armed, and can become as old as one
  likes, exactly when, since the last good write, a write was refused by a timer firing or while no
  timer was armed (`CommitterTimer.TimedCommit`). `CommitterTimer.RefusedFiringLapses` and
  `CommitterTimer.IdleFiringThenRefusedReportLapses` reach both cases from a new committer.
* `core/subscription/committer.go:163` says that closing stops the timer. The flush that follows arms
  it again exactly when it stores something (`CommitterTimer.RearmedExactlyWhenStored`).
* `core/aggregate/aggregate.go:69` says that loading reconstructs the state. It folds on top of the
  state at hand, so this holds exactly where nothing was applied before:
  `Aggregates.LoadNeedsFreshAggregate`.
* `core/test/memstore/memstore.go:93-94` calls a start position an index. After a truncation the two
  differ and positions repeat: `MemStore.TruncationRepeatsPositions`, with the exact condition in
  `MemStore.TruncationKeepsIndexExactly`.

## Model

| member | source | states |
|---|---|---|
| Committer.CheckpointCommitter.constructor | core/subscription/committer.go:37-59 | a new committer has nothing pending, and its timer armed for one interval if there is one |
| Committer.CheckpointCommitter.AdvanceFrontier | core/subscription/committer.go:77-97 | the walking loop moves the frontier over the pending completions and tells whether it moved, without wrapping around at 64 bits |
| Committer.CheckpointCommitter.Commit | core/subscription/committer.go:70-124 | the loop, the two limits and the store call have the effect of one step; an error is returned exactly when an attempted store was refused |
| Committer.CheckpointCommitter.StoreUncommittedLocked | core/subscription/committer.go:128-154 | a refused store changes nothing in the committer; a good one moves the committed frontier, clears the count and re-arms the timer |
| Committer.CheckpointCommitter.Flush | core/subscription/committer.go:157-161 | a flush has the effect of one step |
| Committer.CheckpointCommitter.Close | core/subscription/committer.go:164-171 | closing disarms the timer and then flushes |
| Committer.CheckpointStore.StoreCheckpoint | core/subscription/checkpoint.go:15-18 | a store keeps the last position it accepted; no position and position 0 are different |
| Committer.WalkStopsAtGap | core/subscription/committer.go:84-97 | the walk neither invents nor forgets a completion and stops in front of a sequence that is not there |
| CommitterRuns.GapDetection | core/subscription/committer.go:61-97 | after any history, failures and repeats included, the frontier is the largest n with 1..n all reported, and the reported sequences are exactly those pending or behind it |
| CommitterRuns.RepeatedReportStays | core/subscription/committer.go:75-97 | a sequence reported again once the frontier has passed it stays pending for ever |
| CommitterRuns.NoDataLoss | core/subscription/committer.go:12-14 | the stored checkpoint is the position of a fully reported prefix, so every event not reported lies beyond it |
| CommitterRuns.RunKeepsPositionInv | core/subscription/committer.go:16-32 | the position fields always hold the position of the sequence field beside them, and the store what was committed last |
| CommitterRuns.FirstEventStoresZero | core/subscription/checkpoint.go:9-12 | a stream read from its beginning has its first event at position 0: once reported and flushed, the checkpoint is 0, which is not the same as none, and the statements on data loss cover it |
| CommitterRuns.CheckpointOnlyMovesForward | core/subscription/committer.go:128-147 | every write moves the checkpoint strictly forward, every other call leaves it |
| CommitterRuns.Confluence | core/subscription/committer.go:128-161 | histories reporting the same events agree on the checkpoint after one good flush, whatever the order, the limits, the clocks and the failed stores |
| CommitterRuns.FlushReachesFrontier | core/subscription/committer.go:156-161 | a good flush stores the position of the frontier and leaves nothing unstored |
| CommitterRuns.SecondFlushIsSilent | core/subscription/committer.go:128-131 | flushing again changes nothing and does not call the store |
| CommitterRuns.NoWriteBeforeALimit | core/subscription/committer.go:107-121 | any number of reports made before the interval since the last write is over, and fewer than what completes a batch, do not ask the store, whatever they advance; a negative number sets no limit, and only two zeros mean writing at once |
| CommitterRuns.AsksAtALimit | core/subscription/committer.go:107-123 | with a limit reached, or neither set, the next call to advance asks the store, and asks again with each advance after a refusal |
| CommitterRuns.ClockStartsAtLastWrite | core/subscription/committer.go:142-152 | after any history the clock of the interval stands at the last write, and a timer, if armed, at one interval after it; without an interval there is none |
| CommitterRuns.CloseFlushes | core/subscription/committer.go:163-171 | closing does what a flush does, to all but the timer |
| CommitterRuns.BatchAccounting | core/subscription/committer.go:104-147 | without failures the count is the number of calls since the last write that moved the frontier, below the batch size at every return, and at most the number of unstored events |
| CommitterRuns.InOrderCountsEvents | core/subscription/committer.go:84-105 | when completions arrive in order the count is the number of unstored events and nothing waits |
| CommitterRuns.InOrderBatchBoundsUnstored | core/subscription/committer.go:35 | in order and without failures fewer than a batch of events are unstored |
| CommitterRuns.BatchBoundExactly | core/subscription/committer.go:104-123 | after any call, fewer than a batch of events are unstored exactly when a condition on the state before it holds: the call does not fill the gap and there were fewer before, or the count or the clock is due, or the waiting completions it releases are few enough |
| CommitterRuns.BatchBoundFailsOutOfOrder | core/subscription/committer.go:29 | for every n there is a history of n reports, out of order, that leaves n events unstored though a batch is smaller |
| CommitterRuns.UnlimitedStoresAtOnce | core/subscription/committer.go:114-117 | with neither limit and a working store the checkpoint is always at the frontier |
| CommitterTimer.TimedCommit | core/subscription/committer.go:36-56 | in every run of reports, flushes and timer firings, writes refused at any of them: as long as, since the last good write, none was refused by a firing or while no timer was armed, an unstored advance has the timer armed within an interval of it, and its firing stores everything if the store lets it; otherwise, and only then, there is an unstored position without a timer, and the next instant can find it older than the interval; with no timer armed the next advance asks the store at once |
| CommitterTimer.WorkingStoreIsInTime | core/subscription/committer.go:36 | while no write is refused no position stays unstored for longer than the interval |
| CommitterTimer.LapsedRunWaits | core/subscription/committer.go:53-55 | once that has happened nothing is stored, nor the store asked, however long one waits and whatever is reported, until a report fills the gap at the frontier |
| CommitterTimer.RefusedFiringLapses | core/subscription/committer.go:53-55 | for every configuration: the first event is reported, the write of the first firing is refused, and the interval has lapsed |
| CommitterTimer.IdleFiringThenRefusedReportLapses | core/subscription/committer.go:110-112 | for every configuration: the timer fires with nothing to store, the write of the next report is refused, and the interval has lapsed without any refused firing |
| CommitterTimer.RearmedExactlyWhenStored | core/subscription/committer.go:147-171 | after any history a firing, and likewise closing, leaves the timer armed exactly when the event after the checkpoint had been reported and the store took the write; after closing that timer does nothing unless reports follow |
| CatchUp.CatchUpSubscription.Start | kurrentdb/catchup.go:51-187 | one run, for any script of receives, handler results and store results, has the effect of a start followed by those steps on checkpoint, deliveries and handler calls |
| CatchUp.CatchUpSubscription.ResumeIndex | kurrentdb/catchup.go:189-225 | a subscription from a checkpoint starts at the first event after it, from none at the first event |
| CatchUp.ScriptIsRun | kurrentdb/catchup.go:88-186 | a run of the code is part of a history of steps |
| CatchUp.ResumeSkipsDelivered | kurrentdb/catchup.go:197-201 | resuming from the nth non-system event skips exactly the first n of them |
| CatchUp.AtLeastOnce | kurrentdb/catchup.go:59-185 | over any number of runs the successful handler calls, adjacent repeats removed, are an initial part of the non-system events; the checkpoint is at its last event or the one before; each run numbers its calls 1, 2, 3 along consecutive non-system events; a run that has read everything has had everything handled |
| CatchUp.EveryRunStartsOver | kurrentdb/catchup.go:60-67 | without a checkpoint store each run calls the handler once for each non-system event from the first on |
| CatchUp.NonSystemExactly | kurrentdb/catchup.go:109-112 | the events handed over are exactly those whose type does not begin with a dollar sign |
| CatchUp.RunStartsExactly | kurrentdb/catchup.go:59-79 | a run begins exactly when the checkpoint could be loaded and the subscription opened, numbers its calls anew, and starts at the first event beyond the checkpoint, if a store is configured and holds one |
| CatchUp.RunEndsExactly | kurrentdb/catchup.go:88-185 | a run goes on exactly until it is dropped, the handler fails on an event that is no system event, or a configured store refuses a position; nothing received later plays a part |
| CatchUp.FailureEndsRun | kurrentdb/catchup.go:166-185 | with a store or without, over any number of runs, a failed call or a refused position is the last of its run |
| CatchUp.DeliveredIsHandled | kurrentdb/catchup.go:166-185 | over any number of runs what counts as delivered is what the handler succeeded on, and the checkpoint is the position of the last event that was handled and then stored |
| CatchUp.UndisturbedRunDeliversAll | kurrentdb/catchup.go:51-187 | after any history one run left undisturbed brings every event to the handler and the checkpoint to the last |
| CatchUp.UndisturbedRunCallsAll | kurrentdb/catchup.go:51-187 | without a store every run left undisturbed handles every event once, in order |
| Eventuous.StreamNameRoundTrip | core/eventuous.go:15-41 | a stream name can be taken apart into category and id exactly when the category has no dash |
| Eventuous.StreamNameInjective | core/eventuous.go:15-19 | within a category different ids have different streams |
| MemStore.Store.AppendEvents | core/test/memstore/memstore.go:37-91 | version check, append loop and result have the effect of the append function |
| MemStore.Store.CheckVersion | core/test/memstore/memstore.go:44-58 | the three-way switch on the expected version |
| MemStore.Store.ReadEvents | core/test/memstore/memstore.go:95-116 | the slice read, with no stream, a start beyond the end and an overlong count |
| MemStore.Store.ReadEventsBackwards | core/test/memstore/memstore.go:121-145 | the backward loop yields what the backward read function does |
| MemStore.Store.StreamExists | core/test/memstore/memstore.go:149-155 | a stream exists exactly when a read finds it |
| MemStore.Store.DeleteStream | core/test/memstore/memstore.go:159-182 | check and removal have the effect of the delete function |
| MemStore.Store.TruncateStream | core/test/memstore/memstore.go:186-216 | check and filter have the effect of the truncate function |
| MemStore.FilterInPlace | core/test/memstore/memstore.go:208-214 | the filter over the same backing array keeps exactly the events from the position on, in order |
| MemStore.AppendSucceedsExactly | core/test/memstore/memstore.go:44-90 | an append is accepted exactly when any version will do or expected + 1 is the length; then the payloads are at the end, otherwise nothing changed |
| MemStore.AppendTouchesOneStream | core/test/memstore/memstore.go:60-90 | no other stream changes, and the result reports the global position of the last event written |
| MemStore.AppendNumbers | core/test/memstore/memstore.go:61-78 | new events are numbered from the length of the stream and from the store's counter, truncated streams included; older events keep their numbers |
| MemStore.ReadMeans | core/test/memstore/memstore.go:93-116 | a forward read fails exactly on a stream without events, is empty from the end on, and otherwise yields what is there from the start on, up to the count |
| MemStore.RemovalSucceedsExactly | core/test/memstore/memstore.go:166-215 | deleting and truncating pass the same check, touch one stream, and fail without effect |
| MemStore.GlobalOrderAlways | core/test/memstore/memstore.go:73-76 | after any run of append, delete and truncate global positions increase along each stream and are shared by no two |
| MemStore.PositionIsIndex | core/test/memstore/memstore.go:72 | in a run without truncation an event's position is its index |
| MemStore.TruncationKeepsIndexExactly | core/test/memstore/memstore.go:207-214 | a truncation keeps positions equal to indices exactly when it removes nothing or everything |
| MemStore.TruncationRepeatsPositions | core/test/memstore/memstore.go:42-72 | append, truncate, append gives two events with the same position |
| MemStore.PagesConcatenate | core/test/memstore/memstore.go:93-116 | reading forward in pages of any size yields the rest of the stream, each event once |
| MemStore.BackwardIsReverse | core/test/memstore/memstore.go:118-145 | a backward read fails exactly on a stream without events, and otherwise is the reverse of the stream up to its start, cut to the count |
| MemStore.FullBackwardReadIsReverse | core/test/memstore/memstore.go:118-145 | a full backward read is the reverse of the stream |
| StateLoading.LoadState | core/store/state.go:25-74 | read, expectation branches and fold loop load what the loading function does |
| StateLoading.LoadMeansFold | core/store/state.go:14-34 | loading succeeds exactly when the stream is there as expected, yields the fold of what was read, and the stream's own version exactly when one read saw it all |
| Aggregates.Aggregate.Apply | core/aggregate/aggregate.go:62-67 | records the event and folds it |
| Aggregates.Aggregate.Load | core/aggregate/aggregate.go:69-80 | folds the events on top of the state at hand and takes over the version |
| Aggregates.LoadFoldsOnTop | core/aggregate/aggregate.go:69-80 | loading after events were applied keeps only the loaded events and no pending change, but the state of both |
| Aggregates.LoadNeedsFreshAggregate | core/aggregate/aggregate.go:69-80 | loading gives the fold of the loaded events, whatever the fold, exactly when nothing was applied before |
| Aggregates.Aggregate.ClearChanges | core/aggregate/aggregate.go:82-89 | moves the version past the pending changes and drops them |
| Aggregates.GuardsReadStream | core/aggregate/aggregate.go:91-109 | over any number of apply and store rounds the guard for new aggregates passes exactly when the stream holds no events, the one for existing exactly when it does; pending changes do not count |
| Aggregates.LoadAggregate | core/store/aggregate.go:15-42 | loads a fresh aggregate from a stream |
| Aggregates.StoreAggregate | core/store/aggregate.go:44-83 | appends the pending changes at the aggregate's version and clears them on success |
| Aggregates.RefusedStoreChangesNothing | core/store/aggregate.go:66-82 | a store is refused exactly when there are changes and the version is not the stream's; a refused one leaves stream and aggregate alone |
| Aggregates.AggregateReuse | core/store/aggregate.go:78-80 | over any number of apply and store rounds no store is refused, version and state match the stream, and stream and pending changes are the original stream followed by everything applied |
| Aggregates.OverlongStreamRefusesStores | core/store/state.go:33-34 | loaded from a stream longer than one read, an aggregate has every store of changes refused |
| CommandService.Service.Handle | core/command/service.go:64-128 | the pipeline with its early returns has the effect of handling a command whole |
| CommandService.AnswersExactly | core/command/service.go:55-128 | every answer the service can give: which error for which cause, with nothing written, and for an accepted command what is written, the state, the version and the global position told |
| CommandService.HandledOnWholeStream | core/command/service.go:75-127 | a reply with changes means the handler decided on the fold of the whole stream, and the events are now at its end |
| CommandService.NoChangesNoWrite | core/command/service.go:87-94 | a reply without changes leaves the store alone and shows state and version as read |
| CommandService.ErrorAfterWriteExactly | core/command/service.go:105-119 | an error comes after the events were written exactly when the append went through and an event's type is not registered |
| AggregateCommands.AggregateService.Handle | core/command/aggservice.go:68-140 | load, guard, act, store and result have the effect of handling a command with an aggregate |
| AggregateCommands.AggAnswersExactly | core/command/aggservice.go:57-140 | every answer the aggregate service can give, by what the stream holds and what the handler applies or fails with |
| AggregateCommands.AggHandledOnWholeStream | core/command/aggservice.go:82-139 | a reply with changes means the handler acted on the aggregate loaded from the whole stream, its events are now at the end, and the reply carries the fold and version of the new stream |
| AggregateCommands.ServicesAgree | core/command/aggservice.go:57-140 | set up alike, the two services succeed and fail together, leave the same store and reply the same, except for the error of a failed guard |
| AggregateCommands.DecisionsAgree | core/command/aggservice.go:76-108 | from the same content of a stream, however old, both services plan the same events at the same version on the same state, or reply the same; a failed guard they name differently |
| Serialisability.Serialisable | core/command/service.go:75-108 | every interleaving of loads, appends and foreign appends leaves the store and the replies of a serial run of whole commands, each where it took effect |
| Serialisability.EveryReplyPlaced | core/command/service.go:96-127 | every reply with changes names a contiguous batch of the final stream; its handler ran on the fold of exactly the events before it, and its state is the fold up to its end |
| Serialisability.RefusedExactlyWhenOvertaken | core/test/memstore/memstore.go:44-58 | in every run a client's append is refused, and answered as a conflict, exactly when its stream has been written to since it was read or could not be read whole |
| Serialisability.AcceptedMeansUnchanged | core/test/memstore/memstore.go:52-57 | on an append-only store an accepted version means the stream is still what was read |
| Serialisability.StaleAppendAcceptedExactly | core/test/memstore/memstore.go:44-58 | whatever happened in between, an append is accepted exactly when the stream is as long as what was read |
| Serialisability.DeleteAndRecreateGoesUnseen | core/test/memstore/memstore.go:159-182 | a stream deleted and written anew to the same length is taken for the one that was read |
| MixedClients.MixedSerialisable | core/command/aggservice.go:68-140 | for any two services: every interleaving of loads and store calls by clients of both, and of foreign appends, leaves the store and the replies of a serial run of whole commands, each by its service where it took effect |
| MixedClients.MixedRepliesPlaced | core/command/aggservice.go:103-139 | every reply with changes names a contiguous batch of the final stream; its handler ran on the aggregate loaded, or the state folded, from exactly the events before it, and its state is the fold up to its end |
| MixedClients.OvertakenInRuns | core/store/aggregate.go:66-76 | in every run a client of either service is refused, and answered as a conflict, exactly when its stream has been written to since it was read or could not be read whole |
| MixedClients.ChoiceOfServiceInvisible | core/command/aggservice.go:57-140 | with services set up alike, which one each command goes through makes no difference to the store, the refusals and the replies of an interleaved run, but for the errors of failed guards |
| Booking.FoldOnLanguage | samples/booking/domain/state.go:21-46 | along a booking's story outstanding is the price less all payments, paid means at least one payment and nothing outstanding, cancelled means the last event says so |
| Booking.FoldInAnyOrder | samples/booking/domain/state.go:21-46 | payments and cancellations in any order and number are kept account of: outstanding is the price less all payments, paid means some payment left nothing outstanding, cancelled means there was a cancellation |
| Booking.BookingStartsOver | samples/booking/domain/state.go:21-33 | whatever was folded before a booking is made does not show after it |
| Booking.BookingStreamNamed | samples/booking/domain/handlers.go:20-23 | a booking's stream is in the category Booking under the booking's id |
| Booking.WritesExactlyLanguage | samples/booking/domain/handlers.go:26-69 | an event continues a booking's story exactly when its command makes the service write it |
| Booking.RefusalsExactly | samples/booking/domain/handlers.go:40-69 | each command is refused exactly for the reason the stream shows |
| Booking.CommandsAnswered | samples/booking/main.go:50-66 | on a booking's story a refused command is answered with its reason and writes nothing; any other is answered with its one event, the booking as it now is, and the event's version and global position, and that event is all that is written |
| BookingRuns.ReachableStreamsAreBookings | samples/booking/main.go:50-66 | however commands interleave, every stream belongs to a booking and is a word of its language |
| BookingRuns.EveryCommandAnswered | samples/booking/main.go:50-66 | the same of every command after every interleaving of commands; a stream that can no longer be read whole refuses all of them |
| BookingRuns.ReachableExactly | samples/booking/main.go:50-66 | the streams the service can produce are exactly the words of the language, up to one event more than can be read at once |
| ReadModel.BookingReadModel.HandleEvent | samples/booking/readmodel/readmodel.go:58-113 | the dispatch on payloads, undecoded ones passed over, has the effect of the projection step |
| ReadModel.BookingReadModel.CancelSummary | samples/booking/readmodel/readmodel.go:101-108 | the search loop marks the first summary of the booking and nothing else |
| ReadModel.BookingReadModel.GetBooking | samples/booking/readmodel/readmodel.go:115-121 | of whatever events have been handled, a document is found exactly when the id was booked in them, and it shows the write-side fold of that id's events |
| ReadModel.BookingReadModel.GetGuestBookings | samples/booking/readmodel/readmodel.go:123-134 | of whatever events have been handled, the list names the guest's bookings in booking order |
| ReadModel.ProjectionRefinesFold | samples/booking/readmodel/readmodel.go:66-100 | for every log an id has a document exactly when it was booked, and it shows the write-side fold of that id's events alone |
| ReadModel.GuestListNames | samples/booking/readmodel/readmodel.go:78-85 | for every log a guest's list names that guest's bookings in booking order |
| ReadModel.CancellationMarksOne | samples/booking/readmodel/readmodel.go:93-110 | in whatever state, a cancellation marks the first summary of the booking on the list of the guest its document names, and no other on any list |
| GuestIndex.GuestListIsGuestBookings | samples/booking/readmodel/readmodel.go:67-110 | when ids are booked once, a guest's list is that guest's bookings, once each, each summary as its document has it, the cancelled flag included |
| GuestIndex.IndexAgreesExactly | samples/booking/readmodel/readmodel.go:67-110 | index and documents agree exactly when no id is booked twice |
| EndToEnd.RunsHaveGlobalOrder | core/test/memstore/memstore.go:60-80 | the events of an interleaved run in the order written are the log of the store in global order |
| EndToEnd.LogHoldsStream | samples/booking/domain/handlers.go:20-23 | a booking's part of the global log is its stream |
| EndToEnd.ViewsAgreeWithWriteSide | samples/booking/main.go:50-84 | for every interleaving of commands, feeding the log to the read model in global order gives for every id the view of the write-side fold of its stream, and an index that agrees |
| EndToEnd.EndToEnd | samples/booking/main.go:50-84 | the same of the log the run itself leaves |
| Subscribed.SubscribedViewsAgree | samples/booking/main.go:68-84 | at every moment of every subscription run the views show an initial part of the log: for every id the view of the write-side fold of an initial part of its stream, and an index that agrees; at the end of the source they show all of it |
| Subscribed.RedeliveryHarmlessExactly | samples/booking/readmodel/readmodel.go:66-110 | handing the read model an event twice in a row is harmless exactly when it is no new booking and no payment of a non-zero amount to a known booking |
| Semaphore.ConcurrencyBound | core/subscription/middleware.go:52-82 | the slots taken are those of workers that have not released, so at most the limit of handlers run whichever callers have left; a caller's answer is its own handler's |
| Semaphore.SlotsAreReleased | core/subscription/middleware.go:68-72 | a worker whose handler has returned can always send its reply and release its slot, with nobody waiting |
| Semaphore.BlockedOnlyWhenFull | core/subscription/middleware.go:61-66 | a caller is kept from starting exactly while the limit of slots is held |
| Semaphore.RepliesReachCallers | core/subscription/middleware.go:68-81 | in every reachable state a caller still waiting when its worker has replied can take the reply, which is its handler's result |
| Semaphore.AnswersAreOwn | core/subscription/middleware.go:68-78 | an answer is what the handler of that very call returned with earlier in the run |
| Semaphore.UndisturbedCall | core/subscription/middleware.go:59-82 | a call that finds a slot and is left undisturbed runs its handler, is answered with its result and leaves slots and other calls as they were |
| Semaphore.CallersCanLeave | core/subscription/middleware.go:61-81 | a caller can give up at any time, which takes and frees no slot and stops no handler |
| Partitioning.PerKeyOrder | core/subscription/middleware.go:91-163 | a key's accepted events are, in the order accepted and each once: those whose handler call has returned, at most one whose call is running, and those queued |
| Partitioning.HandledAtMostOnce | core/subscription/middleware.go:121-126 | no event's handler is called twice; only accepted events are handled, and only handled ones have a result |
| Partitioning.OneAtATimePerKey | core/subscription/middleware.go:121-126 | no two events with one key are in the inner handler together |
| Partitioning.AnswersAreOwn | core/subscription/middleware.go:145-161 | an answer is the result of the event's own handler call |
| Partitioning.WorkersNeverBlock | core/subscription/middleware.go:122-125 | a partition with work left can always go on; the reply never blocks its worker |
| Partitioning.RepliesReachCallers | core/subscription/middleware.go:122-162 | in every reachable state a caller still waiting when its handler has returned is answered with the result, if need be once its worker has sent it, which nothing prevents |
| Partitioning.ResultsAreReturned | core/subscription/middleware.go:121-125 | a result is what the handler returned with while its worker was handling that very event |
| Partitioning.PartitionIsRemainder | core/subscription/middleware.go:166-171 | a key's partition is the remainder of its hash, so keys are spread over all partitions |
| Partitioning.PartitionsRunTogether | core/subscription/middleware.go:117-127 | events whose keys have hashes with different remainders are in the handler at the same time |
| Partitioning.BlockedOnlyWhenFull | core/subscription/middleware.go:147-156 | a caller is kept from sending exactly while 64 events of its key's partition are queued, or after shutdown |
| Chain.ChainHandlers | core/subscription/middleware.go:20-25 | the loop wraps the handler from the last middleware to the first |
| Chain.FirstIsOutermost | core/subscription/middleware.go:16-19 | a chained call goes in through the middleware in order and comes out in reverse |

## Left out

- The KurrentDB client, its error matching and `kurrentdb/store.go`: foreign calls; the source of a subscription is an append-only log with increasing positions, read after the checkpoint.
- `kurrentdb/persistent.go` and `kurrentdb/options.go`: acknowledgements are kept by the server, and the options only set fields.
- Type names, JSON and reflection: an event type is registered or not, and a handler is found for a command or not.
- Tracing, logging middleware, the HTTP interface, event ids, metadata and creation times: they take no part in the properties.
- Floating point rounding: amounts are exact numbers; the agreement of views and write side does not depend on it.
- 64-bit wrap-around of global positions, of stream positions and of a subscription's sequence numbers: the numbers are unbounded.
- Committer.CheckpointCommitter.Commit: requires sequences below the largest 64-bit value, where the walk would wrap around.
- MemStore.Store.ReadEvents: requires start plus count to stay below 2^63, where the conversion to a signed index would overflow.
- CommitterTimer.TimedCommit: a critical section takes no time and an armed timer fires exactly at its deadline; the bound is off by the time a store call takes. It speaks of the time before closing.
- CatchUp.CatchUpSubscription.Start: ends of the process are modelled as the end of the script, and the source does not change the order or content of what it has.
- AggregateCommands.ServicesAgree: the aggregate handler is a function of the loaded aggregate that applies events and returns an error or none; handlers that load or clear the aggregate themselves are not covered.
- Subscribed.SubscribedViewsAgree: the views are those built from the calls of the current run; a read model kept across a restart of its subscription is given events again, for which see `Subscribed.RedeliveryHarmlessExactly`.
- Partitioning.PerKeyOrder: covers no send on a closed channel; after shutdown only what was accepted is worked off. The hash is any function of the key, which is given with the event, and there is at least one partition.
- Semaphore.ConcurrencyBound: a handler that panics is not modelled.
- Sharing of slices handed out by `Aggregate.Changes`, and the capacity of backing arrays: sequences are values.
- `Aggregate.CurrentVersion`, metadata helpers and the type map: they would only add easy members.
