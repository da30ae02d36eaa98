# Verification of the family assistant's protocols

This project models, in Dafny, the parts of the family assistant whose correctness rests on an
argument about whole runs rather than on one function, and proves what they promise.

- **Scheduled messages.** Schedules own delivery rows; workers claim rows under leases, reserve
  attempts, send inside a locking transaction and insert the next occurrence, while users edit,
  cancel and unsubscribe. `ScheduledMessages` holds the transactions, `DeliveryRepository` the
  repository that performs them on its tables, `DeliveryProtocol` the state machine. What holds over
  every run is in `DeliveryRuns`, `DeliveryAccepts` and `DeliveryCollisions`; `DeliverySteps` says of
  every operation, in the fields of the rows alone, when it goes through and what it writes, and on
  that rest `DeliveryLeases` (who may take a row), `DeliveryAttempts` (the counters count),
  `DeliveryContents` (which text is sent), `DeliveryEndings` (the final status tells what ended a
  schedule) and `DeliveryRefusals` (what an error means). `Recurrence` holds the calendar arithmetic
  over arbitrary UTC-offset histories.
- **Due indexes.** `SortedSets` is the Redis sorted set with batched writes. `MessageIndex` and
  `MessageDueIndex` are the version, in-flight and degraded protocol for deliveries.
  `MessageMutations` joins it to the delivery protocol, one transaction and its owed index writes per
  mutation; `MessageCoverage`, `MessageLapses` and `MessageRaces` say what the set is then worth.
  `ReminderIndex`, `ReminderCoverage`, `ReminderLapses`, `ReminderRaces` and `ReminderScheduling` are the
  dirty-version protocol for reminders, with the scheduler that falls back to the database.
- **Reminders.** `Reminders` holds the transactions, `ReminderRuns` and `ReminderSteps` what holds over
  every run, `ReminderRepository` the repository.
- **Feedings.** `FeedingDetails`, `FeedingReports`, `FeedingNotes`, `FeedingRows`, `FeedingSelection`,
  `FeedingChoices` and `ActivityRepository` hold the structured details, the report merge, the
  generated notes and the choice of the feeding that a report refers to.
- **Compact algorithms.** `LikeSearch`, `NonceWindow` and `MenuAccess`. `Options` and `Texts` hold
  what several modules share.

The database is a map from ids to rows and each transaction is one atomic step; identifiers are fresh
numbers; time is in nanoseconds; Redis and the sender may fail at any command. Code that updates
fields or tables in place is modelled by classes and loops, each proved equal to a specification
function; the main results are lemmas about these functions.

Where the code does not do what its documentation suggests, the model follows the code:

- The insert of the next occurrence does not reopen a cancelled row of the same instant, so after an
  edit away and back a dispatch aborts after the message was accepted, and the message is sent again
  (`DeliveryAccepts.EditedAwayAndBackIsAcceptedTwice`, `DeliveryAccepts.DispatchCommitsIff`); this
  cannot happen unless an edit moves a schedule back in time (`DeliveryCollisions`).
- The service prepares an edit from a schedule that it read before, and the repository does not look
  whether it has changed since. Two such edits may leave the schedule with the new text and its
  pending delivery with the old one, which is then sent (`DeliveryContents.RacingEditsKeepTheOldText`;
  the exact condition is `DeliveryContents.StaleEditIff`).
- In a zone whose civil date runs backwards the ceiling step can skip an occurrence
  (`Recurrence.BackwardDateSkipsAnInstant`, `Recurrence.NothingSkippedIff`).
- A status conflict on delivery removes the index entry even if another scheduler holds the reminder,
  and a reconciliation or a slow call may write back an old time (`ReminderRaces`). Exactly a takeover
  of a held claim, and a reschedule over an older value that is on its way, can do this
  (`ReminderLapses.TakeoverLapsesIff`, `ReminderLapses.RescheduleLapsesIff`); a lease that outlives
  every pass, and reschedules that wait for earlier calls and for a writing reconciliation, rule both
  out (`ReminderLapses.CarefulIsNeverMissed`).
- A claim takes a delivery out of the index, so the row of a dead worker is not counted until a
  reconciliation adds it again (`MessageCoverage.ExactIffFree`).
- An edit may reopen a row whose claim still owes its removal; the removal then hides a free row, and
  nothing flags it (`MessageRaces.ClaimThenEditHidesARow`). Exactly two mutations of one row that
  overlap with different index writes can do this (`MessageLapses.ConflictLapsesIff`).
- An update does not clear the claim of a reminder, so a pass that claimed it before may still mark it
  sent and its new time never fires (`ReminderRuns.RescheduleLostIff`).
- A leftover report that repeats the stored leftover returns stored details without validating them
  (`FeedingReports.JunkSurvives`, `FeedingReports.ReportYieldsValidIff`). Details that the service
  validated are never such (`FeedingReports.ValidHasNoJunk`, `FeedingRows.DetailsStayValid`).
- The parent walk of the in-memory menu resolution does not end on a cycle (`MenuAccess.HaltsIff`,
  `MenuAccess.OwnParentNeverHalts`), while the worklist does (`MenuAccess.GetUserMenus`).

`dafny verify dfyconfig.toml` checks the whole project.

## Model

| member | source | states |
|---|---|---|
| Recurrence.ClockFieldsInjective | internal/domain/scheduledmessage/recurrence.go:109-120 | Comparing two local clocks field by field is comparing the times since midnight |
| Recurrence.SamplingFindsOffset | internal/domain/scheduledmessage/recurrence.go:122-129 | The half-hour sampling of two days on either side meets the offset of every instant that shows the wall time, for every zone with offsets up to 47 h 30 min and regimes of at least 30 minutes |
| Recurrence.WallTimeMatches | internal/domain/scheduledmessage/recurrence.go:122-143 | The matches are exactly the instants with the requested local date and clock, none twice, in whatever order the offsets are visited, for zones within the bounds above |
| Recurrence.OccurrenceOnDate | internal/domain/scheduledmessage/recurrence.go:74-96 | What a date yields depends only on the set of its matching instants and on what has passed |
| Recurrence.SkipMeansPast | internal/domain/scheduledmessage/recurrence.go:74-96 | A date is skipped only if none of its matching instants is still to come |
| Recurrence.FirstStepIsCeiling | internal/domain/scheduledmessage/recurrence.go:37-44 | The shortcut starts at the least step whose date is not before the date of `after`, and never below zero |
| Recurrence.EventuallyDecides | internal/domain/scheduledmessage/recurrence.go:60-72 | For every bounded zone some step yields an instant or an error, so the unbounded loop ends |
| Recurrence.FirstFutureOccurrence | internal/domain/scheduledmessage/recurrence.go:60-72 | The loop ends at the first step, from the given one on, that is not skipped |
| Recurrence.NextOccurrence | internal/domain/scheduledmessage/recurrence.go:17-58 | The error cases, no occurrence exactly for a ONCE rule, and where dates do not run backwards an instant only if it is the earliest of the series after `after` |
| Recurrence.NextIsEarliest | internal/domain/scheduledmessage/recurrence.go:17-72 | The instant found is after `after`, on a step of the series, no later than any other instant of the series after `after`, and the only one that shows its wall time |
| Recurrence.StepsBeforeArePast | internal/domain/scheduledmessage/recurrence.go:37-72 | No instant after `after` lies on any step before the one found, also not on those that the shortcut never looks at |
| Recurrence.NextFoundIff | internal/domain/scheduledmessage/recurrence.go:17-96 | An instant is found exactly when it is to come, is alone on the date of a step, and every earlier step is settled |
| Recurrence.RegularSeriesSucceeds | internal/domain/scheduledmessage/recurrence.go:60-96 | Where every date shows the wall time exactly once the search never fails |
| Recurrence.FixedOffsetNext | internal/domain/scheduledmessage/recurrence.go:37-72 | With a fixed offset the result is the first multiple of the period after `after`, found in at most two iterations |
| Recurrence.NothingSkippedIff | internal/domain/scheduledmessage/recurrence.go:37-72 | The search passes over nothing that is still to come, for all rules, starts and times, exactly in the zones whose civil date never runs backwards |
| Recurrence.BackwardDateSkipsAnInstant | internal/domain/scheduledmessage/recurrence.go:37-72 | In a zone whose date runs backwards the shortcut can jump over an instant that is still to come |
| DeliveryRepository.Repository.Create | internal/repositories/scheduledmessage/repository.go:47-96 | The schedule and its first delivery are written with the defaults, or nothing is when the first occurrence is not at the start |
| DeliveryRepository.Repository.ReplacePendingOccurrence | internal/repositories/scheduledmessage/repository.go:194-259 | A conflict leaves everything as it was; otherwise the one pending row of the schedule is at the new instant with the content of the new delivery, without lease or failure and with the attempts it had before, every other pending row is cancelled, and the former pending rows are returned, each once |
| DeliveryRepository.Repository.UpdateActive | internal/repositories/scheduledmessage/repository.go:141-192 | An edit goes through exactly when schedule and space are active and the row at the new instant, if any, is pending or cancelled; it leaves one pending row, with the new content, and returns exactly the rows that were pending before it; otherwise nothing changes |
| DeliveryRepository.Repository.TransitionTerminal | internal/repositories/scheduledmessage/repository.go:261-303 | Cancelling or unsubscribing ends the schedule and cancels and returns exactly its pending rows |
| DeliveryRepository.Repository.SelectDue | internal/repositories/scheduledmessage/scheduler_repository.go:57-96 | The two selections pick, in order, pending rows of active schedules and spaces whose attempt has come and whose lease, if any, has expired; they leave behind nothing that is tried earlier, or at the same time for a schedule with a smaller id, and are full when anything of the kind is left and nothing was locked |
| DeliveryRepository.Repository.ClaimDelivery | internal/repositories/scheduledmessage/scheduler_repository.go:98-116 | A row gets a fresh token, in the row and in the caller's copy alike, exactly when it is pending, tried by now, without an unexpired lease, and its schedule and space are active; any other row is a conflict and stays |
| DeliveryRepository.Repository.ClaimDue | internal/repositories/scheduledmessage/scheduler_repository.go:57-116 | The batch claims what the selection picks, no row of a live worker among it, every returned copy equals its row, and all other rows stay |
| DeliveryRepository.BatchIsRun | internal/repositories/scheduledmessage/scheduler_repository.go:57-83 | A batch claim equals a run of single claims, so what holds of every run holds of it |
| DeliveryRepository.Repository.ReserveAttempt | internal/repositories/scheduledmessage/scheduler_repository.go:267-311 | The named counter grows by one in row and copy, and the other does not, exactly when the copy's very lease is on the row and unexpired and the maximum is not reached |
| DeliveryRepository.Repository.PersistGeneratedContent | internal/repositories/scheduledmessage/scheduler_repository.go:237-265 | The content is stored in row and copy exactly when the lease holds |
| DeliveryRepository.Repository.RecordRetry | internal/repositories/scheduledmessage/scheduler_repository.go:313-400 | Under the very lease of the copy the row is overwritten with the copy and given back; the schedule is rewritten only when asked for |
| DeliveryRepository.Repository.FinalizeOccurrence | internal/repositories/scheduledmessage/scheduler_repository.go:352-458 | The occurrence is finished and the next one inserted together, or neither when a lock fails or the instant is taken |
| DeliveryRepository.Repository.DispatchAndFinalize | internal/repositories/scheduledmessage/scheduler_repository.go:460-570 | The callback runs only behind the locks; what was accepted and what was committed are told apart; a commit marks the row SENT at the time of the send and ends the schedule as SENT exactly when there is no next row |
| DeliveryRuns.RunKeeps | internal/repositories/scheduledmessage/scheduler_repository.go:57-688 | Every run of users, workers and space changes keeps the whole invariant, and rows and schedules only evolve forwards |
| DeliveryRuns.OnePendingPerActiveSchedule | internal/repositories/scheduledmessage/repository.go:141-303 | In every reachable state an ACTIVE schedule has exactly one PENDING delivery, at its next_scheduled_at, and any other schedule has none and a null next time |
| DeliveryRuns.RowsOnlyEvolve | internal/repositories/scheduledmessage/scheduler_repository.go:275-311 | Between any two states of a run both counters only grow and stay within the maxima, SENT, SKIPPED and FAILED rows never change, and the schedule's status moves only as allowed |
| DeliveryRuns.FencedWritesFail | internal/repositories/scheduledmessage/scheduler_repository.go:371-400 | A worker whose token is no longer on its row writes nothing and sends nothing, whatever it tries |
| DeliveryRuns.FencedForever | internal/repositories/scheduledmessage/scheduler_repository.go:98-116 | A lost token never comes back: in every run that follows each write with it fails |
| DeliveryRuns.SupersededIsFenced | internal/repositories/scheduledmessage/repository.go:194-303 | An edit, a cancellation, an unsubscription, a retry, a finish, a dispatch or a new claim fences the worker that held the row |
| DeliveryRuns.RetryLosesNothing | internal/repositories/scheduledmessage/scheduler_repository.go:313-400 | While its token is on the row a worker's counters and content equal the row's, so the absolute overwrite of a retry loses no attempt |
| DeliveryAccepts.AcceptsOnlyWhenLive | internal/repositories/scheduledmessage/scheduler_repository.go:460-570 | A send is accepted only for a pending delivery of an active schedule in an active space under an unexpired lease, on a reserved attempt that was not used before |
| DeliveryAccepts.NoAcceptAfterTheEnd | internal/repositories/scheduledmessage/repository.go:261-303 | After a schedule has ended no run hands any of its messages to the sender |
| DeliveryAccepts.AcceptsBounded | internal/repositories/scheduledmessage/scheduler_repository.go:275-311 | Even when commits fail, a delivery is accepted at most as often as attempts were reserved, and never beyond the maximum |
| DeliveryAccepts.AcceptedAtMostOnce | internal/repositories/scheduledmessage/scheduler_repository.go:460-509 | If every accepted dispatch commits, a (schedule, instant) is accepted at most once over the whole run, through any edits that cancel and reopen it |
| DeliveryAccepts.DispatchCommitsIff | internal/repositories/scheduledmessage/scheduler_repository.go:449-509 | With a healthy database and a reply within the lease, an accepted dispatch fails to commit exactly when the schedule already has a row, of whatever status, at the next instant; EditedAwayAndBackIsAcceptedTwice and CollisionsNeedAnEditBack rest on it |
| DeliveryAccepts.EditedAwayAndBackIsAcceptedTwice | internal/repositories/scheduledmessage/scheduler_repository.go:449-509 | A run in which nothing fails by itself and a message is accepted twice: an edit away and back leaves a cancelled row at the next instant, so the insert aborts after the send |
| DeliveryCollisions.NextIsFree | internal/repositories/scheduledmessage/scheduler_repository.go:449-458 | While no row of an active schedule is later than its pending one, every later instant is free, so the insert of the next occurrence cannot collide |
| DeliveryCollisions.RunKeepsLatest | internal/repositories/scheduledmessage/repository.go:194-259 | Every run in which no edit moves a schedule back keeps the pending row of each active schedule its latest row |
| DeliveryCollisions.CollisionsNeedAnEditBack | internal/repositories/scheduledmessage/scheduler_repository.go:493-506 | As long as no edit moves a schedule back, an accepted send fails to commit only because the plan failed, the lease ran out or the database did |
| DeliveryCollisions.OnceUnlessEditedBack | internal/repositories/scheduledmessage/scheduler_repository.go:460-509 | With a reliable database and sender, a (schedule, instant) is accepted at most once in every run in which no edit moves a schedule back |
| SortedSets.SortedSet.ZAddBatched | internal/cache/redis_sorted_set.go:10-24 | Succeeds exactly when the batch size is positive and every batch is answered, and then all values are in; a failure has added a leading part |
| SortedSets.SortedSet.ZRemBatched | internal/cache/redis_sorted_set.go:26-42 | Succeeds exactly when the batch size is positive and every batch is answered, and then all ids are out; a failure has removed a leading part |
| SortedSets.Rebuilt | internal/services/scheduledmessage/scheduler.go:189-212 | Adding the pending rows and removing the listed ids that no row has leaves exactly the pending rows, whatever the set held |
| MessageIndex.RunKeeps | internal/cache/scheduledmessage/redis_index.go:45-158 | In every interleaving, as long as nothing disturbed the index since the version was read, the set is what the finished part of the rebuild makes of the listed one |
| MessageIndex.MarkClearsIff | internal/cache/scheduledmessage/redis_index.go:112-158 | MarkReconciled clears the degraded flag exactly when no mutation was running, began or ended and no read failed since ReconcileVersion returned the version |
| MessageIndex.ClearedIsExact | internal/cache/scheduledmessage/redis_index.go:118-126 | Whenever the flag is cleared the set holds exactly the rows that were read, each with its own score |
| MessageIndex.ClearedMirrors | internal/services/scheduledmessage/scheduler.go:184-215 | At that moment the set mirrors the pending rows of the database, unless a space changed its status in between |
| MessageIndex.MirrorsAnswers | internal/cache/scheduledmessage/redis_index.go:61-74 | Of a set that mirrors the rows HasDue is right to the millisecond, and never misses a due row |
| MessageMutations.MutationFollows | internal/services/scheduledmessage/scheduler.go:413-558 | Of every mutation of the service and the scheduler that commits, the index writes, in their order, say of each row what the transaction did: a row made free gets its time, a claimed, finished or cancelled one is removed, and one not mentioned is as before; only a dispatch that plans the next row leaves its own out |
| MessageCoverage.RunKeeps | internal/services/scheduledmessage/scheduler.go:122-215 | Every interleaving of mutations, each with its transaction and the index writes it owes, of failures, restarts and reconciliation steps keeps the index in step with the table of the delivery protocol |
| MessageCoverage.EntryIsExact | internal/cache/scheduledmessage/redis_index.go:45-126 | Over every run in which no two mutations of the row overlapped with different writes: whenever HasDue would answer and nothing is owed about the row, a free pending row has its own score, a leased, finished or cancelled one has no entry, apart from what the last clean reconciliation found asleep or leased |
| MessageCoverage.ExactIffFree | internal/services/scheduledmessage/scheduler.go:122-133 | So the entry of a pending row is exact if and only if the row is not leased; the row of a dead worker is not counted until a reconciliation lists it |
| MessageCoverage.NothingDueIsRight | internal/services/scheduledmessage/scheduler.go:163-172 | An answer of nothing due, whose flag was read before and whose count came after any number of other mutations, is right about every row that was free and settled when the flag was read and was not touched since |
| MessageLapses.ConflictLapsesIff | internal/services/scheduledmessage/service.go:271-285 | From every reachable state: a mutation that commits about a row can end in an entry other than the expected one, with no flag and no further overlap, exactly if HasDue may be asked at the commit and another mutation in flight still owes a write that leaves another entry of that row |
| MessageLapses.ClaimThenEditHides | internal/services/scheduledmessage/scheduler.go:122-133 | From every state in which a claim still owes its removal, an edit that reopens the row can end with the free row missing and no flag |
| MessageRaces.ClaimThenEditHidesARow | internal/services/scheduledmessage/service.go:271-285 | A run from the start, without any failure, in which that happens |
| MessageDueIndex.DueIndex.Upsert | internal/cache/scheduledmessage/redis_index.go:45-52 | One ZADD between beginning and ending a mutation; a missing answer degrades the index |
| MessageDueIndex.DueIndex.Remove | internal/cache/scheduledmessage/redis_index.go:54-59 | One ZREM between beginning and ending a mutation; a missing answer degrades the index |
| MessageDueIndex.DueIndex.HasDue | internal/cache/scheduledmessage/redis_index.go:61-74 | A degraded index never answers; an answer is that of the set; a failed count degrades |
| MessageDueIndex.DueIndex.UpsertMany | internal/cache/scheduledmessage/redis_index.go:85-99 | Rejects the whole list, writing nothing, if one row cannot be indexed; a failure dirties the index |
| MessageDueIndex.ReconcileIndex | internal/services/scheduledmessage/scheduler.go:184-215 | From any set and any batch size a successful rebuild without interference makes the set the pending rows, and the index stays degraded only while a mutation is in flight |
| ReminderRepository.Repository.ReplaceOnce | internal/repositories/reminder/repository.go:92-147 | A later pending reminder is kept and nothing written; a violation of the unique index rolls everything back; otherwise exactly the seen pending rows are cancelled and the seen earlier sent rows completed |
| ReminderRepository.Repository.CreateReplacing | internal/repositories/reminder/repository.go:60-90 | A conflict exactly when both attempts meet a violation, the second on whatever table others left meanwhile, and then this call has written nothing; otherwise the attempt that went through did what replaceOnce does |
| ReminderRepository.Repository.ClaimDueForNotification | internal/repositories/reminder/repository.go:157-192 | Claims the earliest free claimable rows and stamps rows and returned copies with the same time |
| ReminderRepository.Repository.MarkNotificationSent | internal/repositories/reminder/repository.go:205-223 | Succeeds exactly for the owner of the claim of a live pending reminder |
| ReminderRepository.Repository.ReleaseNotificationClaim | internal/repositories/reminder/repository.go:225-243 | Succeeds exactly for the owner of the claim of a live pending reminder |
| ReminderRepository.Repository.CompleteUnfinished | internal/repositories/reminder/repository.go:285-308 | Completes exactly a live pending or sent reminder of the space |
| ReminderRepository.Repository.UpdatePending | internal/repositories/reminder/repository.go:310-347 | Updates exactly a live pending reminder of the space, with at least one field |
| ReminderRepository.Repository.SoftDelete | internal/repositories/reminder/repository.go:349-367 | Deletes exactly a live reminder of the space, with whatever status the caller read before |
| ReminderRuns.RunKeeps | internal/repositories/reminder/repository.go:34-367 | In every run at most one live reminder is pending per space and key, none is marked sent twice, deleted rows are frozen and live ones only move forward |
| ReminderRuns.ForwardOnly | internal/repositories/reminder/repository.go:157-367 | Between any two states of a run a live reminder only moves PENDING to SENT to COMPLETED or PENDING to COMPLETED, a deleted one never changes, and each is marked at most once |
| ReminderRuns.TakeoverFences | internal/repositories/reminder/repository.go:157-192 | Taking over an expired claim stamps a strictly later time and shuts the old claim out |
| ReminderRuns.FencedForever | internal/repositories/reminder/repository.go:205-243 | In every run that follows a superseded worker can neither mark nor release |
| ReminderRuns.RescheduleLostIff | internal/repositories/reminder/repository.go:310-347 | Some run without another reschedule sends the reminder on a claim from before its new time, so that the new time never fires, exactly if the reminder carried such a claim when it was updated |
| ReminderRuns.SentEarly | internal/repositories/reminder/repository.go:205-223 | Such a mark sends the reminder while its time is still to come |
| ReminderRuns.LatestWins | internal/repositories/reminder/repository.go:60-147 | After any run of creations for one key, in any order of arrival and with any failed attempts, the one live pending reminder is the untouched row of the call with the latest time, the last of them on a tie |
| ReminderRuns.ReplacedOnce | internal/repositories/reminder/repository.go:112-121 | A replaced reminder stays cancelled as that call left it, and no other call of the run replaces it |
| ReminderRuns.InsertCompletesEarlier | internal/repositories/reminder/repository.go:122-130 | After an insert no sent reminder of the key that was due by then is open, except those that the query could not see |
| ReminderCoverage.RunKeeps | internal/services/reminder/scheduler.go:140-250 | Every interleaving of service calls, failing index writes, reconciliation steps and the deliveries of two processes keeps the index invariant |
| ReminderCoverage.NothingDueIsNeverWrong | internal/cache/reminder/redis_index.go:42-105 | When HasDue counts for a scheduler that is not degraded, every still pending reminder whose calls had returned is in the index unless its claim was taken over, and a due one makes the count positive unless a reschedule of it overlapped an older value and nothing has sharpened its entry since |
| ReminderCoverage.SettledIsCovered | internal/services/reminder/scheduler.go:195-250 | Between questions a reminder whose calls have returned, and whose claim was not taken over, has a right entry, or HasDue will refuse to answer, or the scheduler knows that the index is degraded |
| ReminderCoverage.ServeKeeps | internal/services/reminder/service.go:58-401 | Committing before writing the index keeps the invariant for every service call |
| ReminderCoverage.UnansweredKeeps | internal/cache/reminder/redis_index.go:42-58 | A write without an answer leaves the reminder unsettled until the dirty mark flags the index |
| ReminderCoverage.VersionKeeps | internal/cache/reminder/redis_index.go:72-80 | Storing the version after the listing and before the database is read keeps the invariant |
| ReminderLapses.UndisturbedIsNeverMissed | internal/cache/reminder/redis_index.go:60-70 | Over every run with failures and two schedulers, an answer of nothing due is right about each reminder that no step of the run rescheduled over an older value on its way and no claim took over |
| ReminderLapses.TakeoverNeedsExpiry | internal/repositories/reminder/repository.go:157-192 | A held claim can be taken over only once it is older than the lease, so a pass that ends within the lease is never overtaken |
| ReminderLapses.CarefulIsNeverMissed | internal/services/reminder/scheduler.go:140-185 | What callers can check beforehand suffices: reschedule a reminder only when its calls have returned and no reconciliation is writing, and let no pass outlive the lease |
| ReminderLapses.Reaches | internal/services/reminder/scheduler.go:140-250 | Every state of every run satisfies the invariant and the order of calls that the two exact results ask for |
| ReminderLapses.RescheduleLapsesIff | internal/services/reminder/scheduler.go:221-250 | From every reachable state, a reschedule of a clear reminder can end in a missing or too late entry that nothing flags, with no further disturbance, exactly if a call still owes an older value of it, or the rows read by a running reconciliation hold one and no dirty mark for it is owed |
| ReminderLapses.TakeoverLapsesIff | internal/services/reminder/scheduler.go:267-270 | From every reachable state in which the index answers, a claim by one scheduler can end in a lost entry that nothing flags exactly if the other scheduler still holds the reminder, whatever the configured lease |
| ReminderRaces.RescheduleCanBeMissed | internal/services/reminder/scheduler.go:221-250 | A run in which a rescheduled and due reminder is not counted, because a reconciliation writes back the time that it had read before |
| ReminderRaces.SecondSchedulerLosesAnEntry | internal/services/reminder/scheduler.go:267-270 | A run in which a pending and due reminder loses its entry after a takeover of its claim, and nothing flags it |
| ReminderScheduling.DueReminderIndex.HasDue | internal/cache/reminder/redis_index.go:60-70 | Answers exactly when the versions agree and the count succeeds, and then as the set does; a failed count dirties the index |
| ReminderScheduling.DueReminderIndex.AllIDs | internal/cache/reminder/redis_index.go:72-80 | Lists the whole set and takes the dirty version over, or dirties the index |
| ReminderScheduling.ReminderScheduler.ReconcileReminderIndex | internal/services/reminder/scheduler.go:221-250 | From any set and any batch size a successful reconciliation without interference leaves exactly the pending reminders and no flag |
| ReminderScheduling.ReminderScheduler.CheckDueSource | internal/services/reminder/scheduler.go:195-219 | When the database may be asked, a due reminder is not overlooked by an index that covers it, is flagged, is degraded or is missing; a healthy index decides alone |
| ReminderScheduling.ReminderScheduler.UseDatabaseFallback | internal/services/reminder/scheduler.go:187-193 | Allows the database at most once per fallback interval |
| ReminderScheduling.ReminderScheduler.RunTicks | internal/services/reminder/scheduler.go:140-219 | With ticks at least the fallback interval apart, every tick with a due reminder reaches the claim if the index covers the pending reminders or is missing, or is flagged or degraded when the tick begins, that is, was dirtied since the last tick or left so by it |
| ReminderScheduling.ReminderScheduler.DeliverClaimed | internal/services/reminder/scheduler.go:155-185 | Without interference a pass treats every claimed reminder by its own sending and no other reminder |
| ReminderScheduling.PassAt | internal/services/reminder/scheduler.go:252-276 | Each claimed reminder of a pass is sent, released or kept when its own turn comes |
| FeedingDetails.ApplyDetailsPatch | internal/domain/activity/details.go:93-106 | Key by key, a null removes, a value replaces, and every other key stays |
| FeedingDetails.DetailsPatchExpr | internal/repositories/activity/repository.go:223-241 | For all stored details the SQL expression merges exactly as the patch does |
| FeedingDetails.ArrayLiteralReads | internal/repositories/activity/repository.go:243-259 | PostgreSQL reads the array literal back as the very keys, whatever quotes and backslashes they hold |
| FeedingDetails.FeedingProblem | internal/domain/activity/kind_feeding.go:10-53 | No complaint exactly when every amount is in range, expired is at most leftover and leftover at most volume where present, and an expired feeding says how much |
| FeedingReports.ApplyFeedingReport | internal/domain/activity/feeding.go:132-191 | The edits of the copied details amount to the merge that is specified per key, with the same refusals |
| FeedingReports.ReportYieldsValidIff | internal/domain/activity/feeding.go:132-191 | A successful report yields valid details, unless it names no outcome, repeats the stored leftover, and the stored outcome or expired amount is junk that reads as absent; and then it never does |
| FeedingReports.JunkSurvives | internal/domain/activity/feeding.go:155-184 | An instance of that condition: an outcome that is no string survives an unchanged leftover report |
| FeedingReports.ValidHasNoJunk | internal/domain/activity/feeding.go:155-184 | Valid details hold no junk, so only details that were stored without validation can be such an input |
| FeedingReports.ReportHolds | internal/domain/activity/feeding.go:132-191 | After a successful report the details say what was reported |
| FeedingReports.ReportIsIdempotent | internal/domain/activity/feeding.go:132-191 | The same report at any later time succeeds and changes nothing |
| FeedingReports.OverwritesImpliesChanged | internal/domain/activity/feeding.go:249-263 | A report that overwrites has changed something, an unchanged report returns equal details, and a change that does not overwrite only adds values |
| FeedingNotes.NoteTellsShown | internal/domain/activity/feeding.go:204-240 | Valid details of the same subject have equal notes exactly if they agree in volume, in outcome and in the amount that belongs to the outcome: the note loses none of these and shows nothing else |
| FeedingNotes.NoteIsStable | internal/domain/activity/feeding.go:204-247 | A generated note is never empty, storing it does not trim it, and spaces around the subject do not matter |
| FeedingRows.PrepareDetailsUpdate | internal/services/activity/details.go:123-145 | The guards of the report keys, the validation of the merged details and the regenerated note, in this order; NoteFollowsDetails, NoteChangesIff, DetailsStayValid and UpdatesNeverReport say what this means over runs |
| FeedingRows.ApplyUpdate | internal/repositories/activity/repository.go:165-202 | An update writes what was given, trimmed, the time of the activity and the time of the update, and merges the details as the patch does; an empty update is refused |
| FeedingRows.CreatedIsGenerated | internal/services/activity/details.go:89-121 | A created feeding with a volume and no note of its own carries the generated note |
| FeedingRows.CreationKeepsDetails | internal/services/activity/feeding.go:24-110 | Splitting the report off and applying it gives back the details that were sent, plus the time of the report and, when finished, an expired amount of zero; and they are valid |
| FeedingRows.NoteFollowsDetails | internal/services/activity/feeding.go:51-84 | Over every run of note-less updates and reports a row that stays a feeding and had the generated note keeps the note of its present subject and details |
| FeedingRows.NoteChangesIff | internal/services/activity/feeding.go:51-84 | An update without note and subject, or a report, changes a generated note exactly if it changes the volume, the outcome or the amount that the note shows |
| FeedingRows.PersonsNoteStays | internal/repositories/activity/repository.go:294-299 | No note-less step of any run alters a note that is not the generated one of the stored row |
| FeedingRows.DetailsStayValid | internal/services/activity/details.go:123-145 | The details of a feeding stay valid over every run of updates and reports |
| FeedingRows.UpdatesNeverReport | internal/services/activity/feeding.go:54-73 | An update never changes a reported value, and a record that becomes a feeding has none |
| FeedingSelection.SelectFeeding | internal/domain/activity/feeding.go:94-126 | By id the first with that id, else the single match, else the ambiguous matches or the recent feedings, sorted as the source does |
| FeedingSelection.LockedSelectsTheSame | internal/repositories/activity/repository.go:317-351 | The locked candidates give the same chosen feeding or the same ambiguous list as all the live feedings of the space |
| FeedingSelection.NoneListIsFiveLatest | internal/domain/activity/feeding.go:74-92 | With distinct times the list offered when nothing matches is that of the five latest feedings not after the upper bound |
| ActivityRepository.Repository.UpdateLocked | internal/repositories/activity/repository.go:131-163 | A refused update writes nothing; an accepted one changes the one row as prepared |
| ActivityRepository.Repository.LockFeedingCandidates | internal/repositories/activity/repository.go:317-351 | Locks the feedings of the window and the five latest up to the bound, or the one with the id |
| ActivityRepository.Repository.ReportFeeding | internal/repositories/activity/repository.go:261-315 | Only the chosen row changes, it is the one that all live feedings would have given, and its note follows only if it was generated |
| LikeSearch.EscapedIsSubstring | internal/repositories/activity/repository.go:59-62 | An escaped text between percent signs matches exactly the texts that contain it |
| LikeSearch.SearchIsSubstring | internal/repositories/generic/generic.go:191-194 | With case folding on both sides the match is exactly that of the folded text as a contiguous part, also for texts of %, _ and backslashes |
| LikeSearch.SafeIsPlain | internal/repositories/generic/helper.go:122-178 | A column name that passes the filter consists of letters, digits, underscores and dots only |
| LikeSearch.BuildSearch | internal/repositories/generic/generic.go:178-197 | A row is selected exactly when the text is part of some column with a safe name, and every row when there is no such column; no other column reaches the query |
| NonceWindow.IdentityVerifier.ConsumeNonce | internal/handlers/mcp/identity_envelope.go:130-148 | The cache after each call is that of the whole history, and the answer is whether the history accepts the call |
| NonceWindow.AcceptedIff | internal/handlers/mcp/identity_envelope.go:130-148 | A call is accepted exactly when every earlier accepted call with its nonce was swept by it or by a call in between |
| NonceWindow.SlidingWindow | internal/handlers/mcp/identity_envelope.go:130-148 | With a clock that does not run backwards a nonce is refused exactly within the maximal age of its last accepted use |
| NonceWindow.IdentityVerifier.Verify | internal/handlers/mcp/identity_envelope.go:85-128 | Accepted exactly if authentic, in time at the first clock reading, and with a nonce that the history accepts at the second; otherwise the cache is untouched or only swept |
| NonceWindow.EnvelopeOnce | internal/handlers/mcp/identity_envelope.go:163-172 | An envelope accepted later after its issue than the delay between the two clock readings is never accepted again, because it gets too old before its nonce is forgotten |
| NonceWindow.OnceWhileValid | internal/handlers/mcp/identity_envelope.go:130-148 | A nonce that was accepted is not accepted again up to any instant before its maximal age is over, so an envelope that is invalid by then is accepted at most once |
| MenuAccess.GetUserMenus | internal/repositories/menu/menu.go:81-117 | The worklist ends on every parent graph, cyclic ones included, and yields the least set that contains the permitted menus and is closed under active parents, no menu twice |
| MenuAccess.ResolveAccessibleMenus | internal/services/shared/menu_access.go:12-52 | Where the walks end, exactly the same least closed set, no menu twice |
| MenuAccess.HaltsIff | internal/services/shared/menu_access.go:30-40 | The walk up the parents ends exactly when it never comes back to a menu |
| MenuAccess.OwnParentNeverHalts | internal/services/shared/menu_access.go:30-40 | On a menu that is its own parent the walk never ends |
| MenuAccess.BothGiveTheSame | internal/services/shared/menu_access.go:12-52 | Two lists with the access property, each row once, hold the same menus |
| MenuAccess.ResolveBothWays | internal/services/shared/menu_access.go:12-52 | On one list of menus the worklist, started from the permitted rows, and the walks, started from the names, return the same menus, equally many |
| DeliverySteps.ClaimTells | internal/repositories/scheduledmessage/scheduler_repository.go:57-116 | A claim changes exactly a pending row that is due, of an active schedule and space, and that no unexpired lease holds, and gives the row and the worker's copy a token that was never used |
| DeliverySteps.LoadTells | internal/repositories/scheduledmessage/scheduler_repository.go:118-181 | A worker whose lease lives gets the row and the schedule as they are; any other keeps its copies |
| DeliverySteps.ReserveTells | internal/repositories/scheduledmessage/scheduler_repository.go:267-311 | Exactly when the worker's row is live, all is active and an attempt is left, one attempt of that kind is counted in row and copy, and nothing else changes |
| DeliverySteps.PersistTells | internal/repositories/scheduledmessage/scheduler_repository.go:237-265 | Exactly when the worker's row is live and all is active, the content is stored in row and copy |
| DeliverySteps.RetryTells | internal/repositories/scheduledmessage/scheduler_repository.go:313-400 | The overwrite with a worker's copies only sets the next attempt and the failure and takes the lease off: counters, content and schedule stay as they are in the table |
| DeliverySteps.FinishTells | internal/repositories/scheduledmessage/scheduler_repository.go:352-458 | Exactly when the row is live, its schedule active and the next instant free, the row gets the final status and category; the schedule goes on with the next row or ends as FAILED or CANCELLED |
| DeliverySteps.DispatchTells | internal/repositories/scheduledmessage/scheduler_repository.go:460-688 | The sender is asked exactly for a live row on a reserved attempt; what it accepts is committed exactly if the lease still lives, the plan worked and the next instant is free, and then the row is SENT and the schedule goes on or ends as SENT |
| DeliverySteps.TerminateTells | internal/repositories/scheduledmessage/repository.go:261-303 | In an active space an active schedule ends as CANCELLED, or as UNSUBSCRIBED by the given member now, and exactly its pending rows are cancelled, with their leases |
| DeliverySteps.EditTells | internal/repositories/scheduledmessage/repository.go:141-259 | What an edit writes, field by field: the schedule's given fields and new instant, the reopened or new row, and the cancelled rows; nothing when it may not be made |
| DeliverySteps.CreateTells | internal/repositories/scheduledmessage/repository.go:47-96 | A creation of the service inserts an active schedule and its pending first row at the start, which carries the fixed text unless a snapshot is given |
| DeliverySteps.CreateDefaults | internal/repositories/scheduledmessage/repository.go:61-87 | For every draft the statuses and times default as they should, and only a pending first row of a FIXED schedule gets the schedule's text by default |
| DeliveryLeases.ClaimTakesIff | internal/repositories/scheduledmessage/scheduler_repository.go:57-116 | In every reachable state a claim changes a row if and only if it is pending, its attempt has come, it carries no lease or an expired one, and schedule and space are active; nothing else changes |
| DeliveryLeases.LostOnlyTo | internal/repositories/scheduledmessage/scheduler_repository.go:57-400 | Over every run a row that no longer carries a worker's lease lost it to an edit or an ending of its schedule, to the worker's own retry, finish or accepted dispatch within the lease, or to a claim not before the lease expired |
| DeliveryLeases.HolderKeepsItsRow | internal/repositories/scheduledmessage/scheduler_repository.go:98-116 | If every claim of the row comes before the lease expires and no user writes, a worker that has not given up keeps row and lease, its schedule stays active, and its writes go through while the space is active |
| DeliveryEndings.FinalStatusTells | internal/repositories/scheduledmessage/scheduler_repository.go:352-688 | In every reachable state the status tells how a schedule ended: SENT if and only if a committed dispatch without a next row did it, FAILED a final failure without one, CANCELLED a cancellation or a cancelled delivery, UNSUBSCRIBED the leaving of a member |
| DeliveryEndings.EndIsRecorded | internal/repositories/scheduledmessage/repository.go:261-303 | And the tables keep that record in every later state: the member and the time, the time of the send, the category of the failure, in the row of the last instant |
| DeliveryEndings.EndsOnce | internal/domain/scheduledmessage/model.go:108-122 | No schedule ends twice, in whatever status |
| DeliveryEndings.SentScheduleHasSentRow | internal/repositories/scheduledmessage/scheduler_repository.go:638-688 | A schedule that says SENT has a row that is SENT with its time, and the sender accepted a message for it |
| DeliveryContents.EditedRowTells | internal/repositories/scheduledmessage/repository.go:194-259 | After an edit the one pending row of the schedule is at the instant of the new delivery, to be tried then, with its content, no lease, failure or send, and the attempts of the row that was there or none |
| DeliveryContents.TextsAreCarried | internal/services/scheduledmessage/service.go:120-140 | Over every run in which the service hands the schedule's text to the rows it prepares, every pending delivery of a FIXED schedule carries the text that the schedule has now |
| DeliveryContents.TextIsLatestEdit | internal/repositories/scheduledmessage/repository.go:141-192 | In every reachable state the text of a schedule is that of its creation or of the last edit that went through and named one |
| DeliveryContents.LatestTextIsSent | internal/services/scheduledmessage/scheduler.go:257-278 | Under the same hand-over, what the sender accepts for a FIXED schedule is the text of the last edit, whatever copies workers loaded before |
| DeliveryContents.StaleEditIff | internal/services/scheduledmessage/service.go:249-272 | An edit prepared from a schedule read before hands its text over if and only if, where the text ends up fixed, mode and text of what was read give the same |
| DeliveryContents.EditCarriesIff | internal/repositories/scheduledmessage/repository.go:194-259 | And if it goes through, exactly that decides whether the pending delivery carries the schedule's text |
| DeliveryContents.RacingEditsKeepTheOldText | internal/services/scheduledmessage/service.go:249-272 | Two edits prepared from the same read, one of the text and one of the recurrence, both go through and leave the old text in the pending delivery |
| DeliveryAttempts.CountersCount | internal/repositories/scheduledmessage/scheduler_repository.go:267-311 | Over every run, through edits, retries and later claims, each counter of a delivery grows by exactly the number of its reservations that went through |
| DeliveryAttempts.NeverMoreThanTheMaximum | internal/repositories/scheduledmessage/scheduler_repository.go:267-311 | No delivery ever gets more generations or dispatches reserved than the maxima, nor is it accepted more often than dispatches were reserved |
| DeliveryAttempts.ReservesIff | internal/repositories/scheduledmessage/scheduler_repository.go:267-311 | In every reachable state a reservation goes through if and only if the row is pending under the worker's unexpired lease, schedule and space are active, and fewer than the maximum went through before |
| DeliveryRefusals.UserRefusals | internal/repositories/scheduledmessage/repository.go:47-303 | A creation, an edit and an ending answer a conflict exactly when they do not find what they ask for |
| DeliveryRefusals.ClaimRefusal | internal/repositories/scheduledmessage/scheduler_repository.go:98-116 | A claim of any other row is a lost claim |
| DeliveryRefusals.NoLeaseRefusal | internal/repositories/scheduledmessage/scheduler_repository.go:237-400 | A copy without a lease is refused as a lost claim by every write and changes nothing |
| DeliveryRefusals.ReserveRefusal | internal/repositories/scheduledmessage/scheduler_repository.go:267-311 | The limit is reported exactly when it is what refuses a live row, or when no attempt is allowed at all; otherwise the claim is lost |
| DeliveryRefusals.PersistAndRetryRefusal | internal/repositories/scheduledmessage/scheduler_repository.go:237-350 | Storing content and recording a retry are refused only because the claim is lost |
| DeliveryRefusals.FinishRefusal | internal/repositories/scheduledmessage/scheduler_repository.go:352-458 | A cancellation finds an invalid target exactly when the space is gone, a next row on an occupied instant is a database error, and all else that is refused is a lost claim |
| DeliveryRefusals.DispatchRefusal | internal/repositories/scheduledmessage/scheduler_repository.go:460-570 | A dispatch is told apart by its error: claim lost, target invalid, refused by the sender, or accepted without a commit |
| FeedingChoices.ChosenIff | internal/domain/activity/feeding.go:94-126 | Without an id a feeding is chosen if and only if it is the only one within twenty minutes of the given time or, without a time, the only one without an outcome and at most three hours before the message; with an id, the first with it |
| FeedingChoices.UndecidedIff | internal/domain/activity/feeding.go:83-126 | The answer is ambiguous if and only if two feedings are meant in that sense, and none is found if and only if none is |
| FeedingChoices.AmbiguousLists | internal/domain/activity/feeding.go:52-92 | The ambiguous list holds exactly the feedings that are meant, the earliest first, each with its volume and with `open` exactly if no outcome text is stored |
| FeedingChoices.NoneListDescribes | internal/domain/activity/feeding.go:57-81 | Every entry of the list that is offered when none is meant describes a stored feeding in the same way |
| ActivityRepository.ListedAreStored | internal/repositories/activity/repository.go:319-356 | The feedings that are looked at are exactly the activities of the space and of the feeding kind, as they are stored |
| ActivityRepository.WrittenIsMeant | internal/repositories/activity/repository.go:264-356 | A report changes at most a feeding of the space that the caller may change and that is meant: without id and time never one that has an outcome, or is more than three hours before the message |
| ActivityRepository.ReportAnswers | internal/repositories/activity/repository.go:264-317 | The answer tells what became of the table: changed exactly if said so, and then in the details; forbidden, refused and unchanged told apart |
| FeedingReports.ReportAcceptedIff | internal/domain/activity/feeding.go:132-191 | On valid details a report is accepted if and only if it says something, asks for an expired amount that its outcome allows, and the amounts are then in range with expired at most leftover and leftover at most volume |
| FeedingReports.ReportRefusals | internal/domain/activity/feeding.go:132-157 | Which field a refusal names for an empty report, an unknown outcome and a negative amount |
| FeedingReports.ReportStamps | internal/domain/activity/feeding.go:177-191 | The time of the report is stored exactly when the leftover or the outcome changes, and keys that no report touches stay |
| FeedingNotes.DrunkAndExpiredAddUp | internal/domain/activity/feeding.go:205-235 | The note names an amount drunk if and only if that amount and the expired one add up to the volume |
| FeedingRows.UpdateGoesIff | internal/services/activity/details.go:114-141 | An update goes through if and only if it writes something, the rules accept the merged details when kind or details are given, and a record that results in a feeding gets no reported key |
| FeedingRows.ReportWrites | internal/repositories/activity/repository.go:264-317 | An accepted report writes the merged details and, if they differ, the time of the change and the note that follows them; kind, subject and time stay |
| FeedingRows.CreatedIff | internal/services/activity/feeding.go:24-110 | A feeding is created if and only if the rules accept its details, which name no time of a report, it has a volume or else no report and a note of its own, and an expired amount comes with the outcome that it belongs to |
| FeedingRows.UpdateWrites | internal/repositories/activity/repository.go:165-202 | An update that goes through writes each field that is given, trimmed, and leaves the others |
| FeedingRows.TimeIsTheLastGiven | internal/repositories/activity/repository.go:165-202 | Over every run the time of a feeding is the last that an update gave it |
| FeedingRows.CreationKeepsTime | internal/repositories/activity/repository.go:29-50 | A created feeding has the time, the subject and the trimmed note that were sent |
| ReminderSteps.ApplyMakes | internal/repositories/reminder/repository.go:34-372 | What every call makes of the reminders, field by field, and when it goes through |
| ReminderSteps.AddAnswers | internal/repositories/reminder/repository.go:92-155 | A creation answers that a later reminder is kept, that an unseen one violates the index, that one was replaced, or that it is the only one, exactly in these cases |
| ReminderSteps.TextAndTimeAreTheLastGiven | internal/repositories/reminder/repository.go:310-347 | In every reachable state a reminder has the text and the time of its creation or of the last update that went through and named one |
| ReminderIndex.VersionCountsFailures | internal/cache/reminder/redis_index.go:42-105 | Over every run the dirty version is the number of failed index commands that were reported since the process started |
| ReminderIndex.DegradedUntilReconciled | internal/services/reminder/scheduler.go:194-252 | In every step the scheduler takes the index for degraded from the moment that a command, the query or the comparison of the versions fails until a reconciliation completes |
| Recurrence.NextFailsIff | internal/domain/scheduledmessage/recurrence.go:74-96 | The search fails exactly on the first step that is not settled: as nonexistent if no instant shows the wall time there, as ambiguous if more than one does |
| NonceWindow.ValidityWindow | internal/handlers/mcp/identity_envelope.go:165-176 | An envelope is in time exactly from thirty seconds before it was issued up to its maximal age |

## Left out

- Order of results: the order of returned delivery ids, of stale ids, of the final menu list and of the entries of a sorted set is not modelled.
- DeliveryRepository.Repository.SelectDue: takes the schedules and rows that other transactions hold locked as parameters; how SKIP LOCKED meets concurrent commits inside one statement is not modelled.
- MessageIndex.ClearedMirrors: excludes changes of a space's status, which alter what the query returns without a mutation of the index having begun; MessageCoverage.EntryIsExact covers them.
- DeliveryAccepts.AcceptedAtMostOnce: assumes that accepted dispatches commit; EditedAwayAndBackIsAcceptedTwice, DispatchCommitsIff and DeliveryCollisions say when they do not.
- ReminderCoverage.NothingDueIsNeverWrong: leaves out reminders whose claim was taken over, and the time of those whose reschedule overlapped an older value; RescheduleLapsesIff and TakeoverLapsesIff show that exactly these steps can cause a lapse, and UndisturbedIsNeverMissed covers every other run.
- ReminderCoverage.SettledIsCovered: leaves out the same reminders, for the same reason.
- ReminderCoverage.RunKeeps: the other process only claims, delivers and removes entries; service calls and reconciliations of a second process are not modelled. An unanswered index write there is flagged in that process alone, so that this one may count without the entry until its next reconciliation.
- ReminderLapses.RescheduleLapsesIff: the model lets a reconciliation step fall into a pass of the same scheduler, which the source's single loop does not; the runs given for the lapses end the pass first.
- ReminderScheduling.ReminderScheduler.ReconcileReminderIndex: one reconciliation without interference; ReminderIndex interleaves its steps with everything else.
- ReminderScheduling.ReminderScheduler.DeliverClaimed: one pass without interference; ReminderIndex interleaves its steps with everything else.
- MessageDueIndex.ReconcileIndex: one rebuild without interference; MessageIndex interleaves its steps with everything else.
- ReminderRuns.LatestWins: speaks of runs that only create reminders of the key; updates, completions and deletions in between change what is latest.
- Recurrence.NextIsEarliest: assumes that the civil date never runs backwards; NothingSkippedIff shows that this is needed.
- MenuAccess.ResolveAccessibleMenus: requires that the walks end, since in the source they do not end on a cycle (HaltsIff, OwnParentNeverHalts), and menus as GetActiveMenus lists them: active, not deleted, and no name twice, since the name column is unique.
- FeedingSelection.NoneListIsFiveLatest: assumes distinct times, since the database orders ties as it likes.
- The reminder delivery of one pass is modelled twice: as separate steps that interleave with everything else (ReminderIndex), and as one undisturbed pass over the claimed rows (ReminderScheduling).
- MessageCoverage.EntryIsExact: speaks of one process; a second one would flag its own failures in its own counters only. A failed index command and the degraded flag that follows it are one step.
- MessageLapses.ConflictLapsesIff: says when the entry can become wrong, that is missing, with another score, or left over; a left-over entry only makes the scheduler claim in vain.
- The version counters of both indexes are unbounded; the 64-bit wrap-around is not modelled. Redis failures are refused commands and lost replies.
- Durations and instants are unbounded nanoseconds; the saturation of long durations and the resolution of database timestamps are not modelled.
- Recurrence.WallTimeMatches: assumes offsets of at most 47 h 30 min and offset regimes of at least half an hour; with shorter regimes the half-hour sampling can miss one.
- The timezone database is any offset history within these bounds; loading a zone by name is a parameter.
- DeliveryRepository.Repository.UpdateActive: requires the unique index on (schedule, instant), which every transaction keeps.
- DeliveryContents.TextsAreCarried: assumes the hand-over; StaleEditIff and RacingEditsKeepTheOldText say when the service does not keep to it.
- DeliveryLeases.HolderKeepsItsRow: speaks of the times that the calls are given; the clocks of several machines are not modelled.
- Permission, membership and WhatsApp identifier checks of a dispatch are one boolean; sending, generating content, audit records and logging are nondeterministic or left out.
- Target, recipient, creator and channel columns of schedules, and the creator, assignee and delivery columns of reminders, do not take part in the protocols; the texts of a reminder are one field.
- The service checks of activities (permissions, normalised subjects, size and number bounds of details, rules of other kinds) are a parameter; JSON numbers are whole or not.
- Case folding works character by character; whitespace is the ASCII kind and two Latin-1 characters.
- Of the identity verifier the nonce cache and the age of the envelope are modelled; the parts, the message time and the signature are one boolean.
- A creation of a reminder is always asked for as PENDING, as the service does.
- HTTP and MCP handlers, schemas, mailers, storage, sessions, one-time passwords, location sync and configuration are not modelled.
