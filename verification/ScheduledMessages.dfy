/** Scheduled messages: rows, statuses and the transactions of the repository, each written as a
    function from one database state to the next. UUIDs come from one counter of fresh ids. */
module ScheduledMessages {
  import opened Options

  type Id = nat
  type Time = int
  type Text = string

  datatype ContentMode = Fixed | AI

  datatype Recurrence = Once | Daily | Weekly

  datatype ScheduleStatus = Active | ScheduleSent | ScheduleFailed | ScheduleCancelled | Unsubscribed

  datatype DeliveryStatus = Pending | Sent | Skipped | Failed | Cancelled

  datatype Schedule = Schedule(
    spaceId: Id, mode: ContentMode, content: Text, recurrence: Recurrence, timezone: Text,
    startAt: Time, nextScheduledAt: Option<Time>, status: ScheduleStatus,
    unsubscribedBy: Option<Id>, unsubscribedAt: Option<Time>, updatedAt: Time)

  datatype Delivery = Delivery(
    id: Id, scheduleId: Id, scheduledAt: Time, content: Option<Text>,
    generationAttempts: int, deliveryAttempts: int, nextAttemptAt: Option<Time>,
    leaseToken: Option<Id>, leaseUntil: Option<Time>, status: DeliveryStatus,
    failure: Option<Text>, sentAt: Option<Time>, updatedAt: Time)

  /** spaces holds the rows that are not deleted, and whether each is active. */
  datatype Db = Db(
    spaces: map<Id, bool>, schedules: map<Id, Schedule>, deliveries: map<Id, Delivery>, nextId: Id)

  datatype Error = Conflict | ClaimConflict | AttemptLimitReached | InvalidTarget | SendFailed | DatabaseError

  datatype Outcome = Done | Rejected(error: Error)

  datatype Tx = Tx(db: Db, outcome: Outcome)

  function Reject(db: Db, error: Error): Tx { Tx(db, Rejected(error)) }

  /** CanTransitionStatus */
  predicate CanTransition(from: ScheduleStatus, to: ScheduleStatus) {
    from == to || (from.Active? && !to.Active?)
  }

  // -------------------------------------------------------------- guards

  predicate SpaceActive(db: Db, spaceId: Id) { spaceId in db.spaces && db.spaces[spaceId] }

  predicate IsActive(db: Db, sid: Id) { sid in db.schedules && db.schedules[sid].status.Active? }

  /** The row that lockScheduleByID and lockSchedule may lock: active, in an active space. */
  predicate Open(db: Db, sid: Id) { IsActive(db, sid) && SpaceActive(db, db.schedules[sid].spaceId) }

  predicate IsPending(db: Db, id: Id) { id in db.deliveries && db.deliveries[id].status.Pending? }

  predicate PendingOf(db: Db, sid: Id, id: Id) { IsPending(db, id) && db.deliveries[id].scheduleId == sid }

  predicate Occupies(db: Db, sid: Id, at: Time, id: Id) {
    id in db.deliveries && db.deliveries[id].scheduleId == sid && db.deliveries[id].scheduledAt == at
  }

  /** The unique index on (schedule, instant) already has an entry. */
  ghost predicate Occupied(db: Db, sid: Id, at: Time) { exists id :: Occupies(db, sid, at, id) }

  predicate HasLease(d: Delivery) { d.leaseToken.Some? && d.leaseUntil.Some? }

  /** A pending row whose lease has this token and has not expired at `now`. */
  predicate Leased(db: Db, id: Id, token: Id, now: Time) {
    && IsPending(db, id)
    && db.deliveries[id].leaseToken == Some(token)
    && db.deliveries[id].leaseUntil.Some? && db.deliveries[id].leaseUntil.value > now
  }

  /** lockDelivery: the row still carries the very lease of the worker's copy. */
  predicate Holds(db: Db, copy: Delivery, now: Time)
    requires HasLease(copy)
  {
    && Leased(db, copy.id, copy.leaseToken.value, now)
    && db.deliveries[copy.id].scheduleId == copy.scheduleId
    && db.deliveries[copy.id].leaseUntil == copy.leaseUntil
  }

  predicate Due(db: Db, id: Id, now: Time) {
    && IsPending(db, id)
    && Open(db, db.deliveries[id].scheduleId)
    && db.deliveries[id].nextAttemptAt.Some? && db.deliveries[id].nextAttemptAt.value <= now
    && (db.deliveries[id].leaseUntil.None? || db.deliveries[id].leaseUntil.value <= now)
  }

  function PutRow(db: Db, d: Delivery): Db { db.(deliveries := db.deliveries[d.id := d]) }

  function PutSchedule(db: Db, sid: Id, s: Schedule): Db { db.(schedules := db.schedules[sid := s]) }

  // -------------------------------------------------------- user writes

  /** What the service hands to Create; fields it may leave to the defaults are optional. */
  datatype Draft = Draft(
    schedule: Schedule, status: Option<ScheduleStatus>, firstAt: Time,
    firstStatus: Option<DeliveryStatus>, firstAttempt: Option<Time>, snapshot: Option<Text>)

  /** A delivery that the caller prepares for an occurrence. */
  datatype NewDelivery = NewDelivery(scheduledAt: Time, content: Option<Text>)

  datatype UpdateFields = UpdateFields(
    mode: Option<ContentMode>, content: Option<Text>, recurrence: Option<Recurrence>,
    timezone: Option<Text>, startAt: Option<Time>)

  function Fresh(db: Db, sid: Id, next: NewDelivery, at: Time): Delivery {
    Delivery(db.nextId, sid, next.scheduledAt, next.content, 0, 0, Some(next.scheduledAt),
             None, None, Pending, None, None, at)
  }

  function DraftSchedule(d: Draft, now: Time): Schedule {
    d.schedule.(
      status := GetOr(d.status, Active),
      nextScheduledAt := if d.schedule.nextScheduledAt.Some? then d.schedule.nextScheduledAt
        else Some(d.schedule.startAt),
      updatedAt := now)
  }

  function DraftFirst(db: Db, d: Draft, sid: Id, now: Time): Delivery {
    var status := GetOr(d.firstStatus, Pending);
    var snapshot := if status.Pending? && d.schedule.mode.Fixed? && d.snapshot.None?
                    then Some(d.schedule.content) else d.snapshot;
    Delivery(sid + 1, sid, d.firstAt, snapshot, 0, 0, Some(GetOr(d.firstAttempt, d.firstAt)),
             None, None, status, None, None, now)
  }

  function CreateTx(db: Db, d: Draft, now: Time): Tx {
    if d.firstAt != d.schedule.startAt then Reject(db, Conflict)
    else
      var sid := db.nextId;
      Tx(PutRow(PutSchedule(db, sid, DraftSchedule(d, now)), DraftFirst(db, d, sid, now)).(nextId := sid + 2), Done)
  }

  predicate ReplacesOccurrence(f: UpdateFields) {
    f.mode.Some? || f.content.Some? || f.recurrence.Some? || f.timezone.Some? || f.startAt.Some?
  }

  function EditedSchedule(s: Schedule, f: UpdateFields, next: NewDelivery, at: Time): Schedule {
    s.(mode := GetOr(f.mode, s.mode), content := GetOr(f.content, s.content),
       recurrence := GetOr(f.recurrence, s.recurrence), timezone := GetOr(f.timezone, s.timezone),
       startAt := GetOr(f.startAt, s.startAt), nextScheduledAt := Some(next.scheduledAt), updatedAt := at)
  }

  function CancelledRow(d: Delivery, at: Time): Delivery {
    d.(status := Cancelled, leaseToken := None, leaseUntil := None, updatedAt := at)
  }

  function ReopenedRow(d: Delivery, next: NewDelivery, at: Time): Delivery {
    d.(content := next.content, nextAttemptAt := Some(d.scheduledAt), leaseToken := None, leaseUntil := None,
       status := Pending, failure := None, sentAt := None, updatedAt := at)
  }

  /** Every pending row of the schedule, except `kept`, is cancelled. */
  function CancelPending(db: Db, sid: Id, kept: Option<Id>, at: Time): Db {
    db.(deliveries := map id | id in db.deliveries ::
      if PendingOf(db, sid, id) && kept != Some(id) then CancelledRow(db.deliveries[id], at) else db.deliveries[id])
  }

  /** The row of an occurrence, if there is one. */
  ghost function RowAt(db: Db, sid: Id, at: Time): (r: Option<Id>)
    ensures r.None? <==> !Occupied(db, sid, at)
    ensures r.Some? ==> Occupies(db, sid, at, r.value)
  {
    if Occupied(db, sid, at) then (var id :| Occupies(db, sid, at, id); Some(id)) else None
  }

  predicate MayReopen(s: DeliveryStatus) { s.Pending? || s.Cancelled? }

  /** replacePendingOccurrence, once the conflict with a finished occurrence is excluded. */
  function Replaced(db: Db, sid: Id, existing: Option<Id>, next: NewDelivery, at: Time): Db
    requires existing.Some? ==> existing.value in db.deliveries
  {
    var cleared := CancelPending(db, sid, existing, at);
    if existing.Some? then
      cleared.(deliveries := cleared.deliveries[existing.value := ReopenedRow(db.deliveries[existing.value], next, at)])
    else PutRow(cleared, Fresh(db, sid, next, at)).(nextId := db.nextId + 1)
  }

  ghost function UpdateActiveTx(
    db: Db, spaceId: Id, sid: Id, f: UpdateFields, next: Option<NewDelivery>, at: Time): Tx
  {
    if next.None? || !Open(db, sid) || db.schedules[sid].spaceId != spaceId then
      Reject(db, Conflict)
    else
      var existing := RowAt(db, sid, next.value.scheduledAt);
      if existing.Some? && !MayReopen(db.deliveries[existing.value].status) then Reject(db, Conflict)
      else
        var replaced := Replaced(db, sid, existing, next.value, at);
        Tx(PutSchedule(replaced, sid, EditedSchedule(db.schedules[sid], f, next.value, at)), Done)
  }

  function TerminalSchedule(s: Schedule, status: ScheduleStatus, member: Option<Id>, at: Time): Schedule {
    s.(status := status, nextScheduledAt := None, updatedAt := at,
       unsubscribedBy := if member.Some? then member else s.unsubscribedBy,
       unsubscribedAt := if member.Some? then Some(at) else s.unsubscribedAt)
  }

  /** transitionTerminal; Cancel passes no member, Unsubscribe the member who leaves. */
  function TerminalTx(db: Db, spaceId: Id, sid: Id, member: Option<Id>, at: Time): Tx {
    if !Open(db, sid) || db.schedules[sid].spaceId != spaceId then Reject(db, Conflict)
    else
      var status := if member.Some? then Unsubscribed else ScheduleCancelled;
      Tx(PutSchedule(CancelPending(db, sid, None, at), sid, TerminalSchedule(db.schedules[sid], status, member, at)),
        Done)
  }

  // ------------------------------------------------------ worker writes

  function ClaimedRow(db: Db, id: Id, now: Time, until: Time): Delivery
    requires id in db.deliveries
  {
    db.deliveries[id].(leaseToken := Some(db.nextId), leaseUntil := Some(until), updatedAt := now)
  }

  /** claimDelivery: a fresh token for one due row. */
  function ClaimTx(db: Db, id: Id, now: Time, until: Time): Tx {
    if !Due(db, id, now) then Reject(db, ClaimConflict)
    else Tx(db.(deliveries := db.deliveries[id := ClaimedRow(db, id, now, until)], nextId := db.nextId + 1), Done)
  }

  datatype Counter = Generation | Dispatching

  function Attempts(d: Delivery, c: Counter): int {
    if c.Generation? then d.generationAttempts else d.deliveryAttempts
  }

  function Reserved(d: Delivery, c: Counter, at: Time): Delivery {
    if c.Generation? then d.(generationAttempts := d.generationAttempts + 1, updatedAt := at)
    else d.(deliveryAttempts := d.deliveryAttempts + 1, updatedAt := at)
  }

  function ReserveTx(db: Db, copy: Delivery, at: Time, max: int, c: Counter): Tx {
    if !HasLease(copy) then Reject(db, ClaimConflict)
    else if max <= 0 then Reject(db, AttemptLimitReached)
    else if !Open(db, copy.scheduleId) || !Holds(db, copy, at) then Reject(db, ClaimConflict)
    else if Attempts(db.deliveries[copy.id], c) >= max then Reject(db, AttemptLimitReached)
    else Tx(db.(deliveries := db.deliveries[copy.id := Reserved(db.deliveries[copy.id], c, at)]), Done)
  }

  function PersistTx(db: Db, copy: Delivery, content: Text, at: Time): Tx {
    if !HasLease(copy) || !Open(db, copy.scheduleId) || !Holds(db, copy, at) then Reject(db, ClaimConflict)
    else Tx(db.(deliveries :=
      db.deliveries[copy.id := db.deliveries[copy.id].(content := Some(content), updatedAt := at)]), Done)
  }

  function RetriedRow(row: Delivery, copy: Delivery): Delivery {
    row.(content := copy.content, generationAttempts := copy.generationAttempts,
         deliveryAttempts := copy.deliveryAttempts, nextAttemptAt := copy.nextAttemptAt,
         leaseToken := None, leaseUntil := None, status := copy.status,
         failure := copy.failure, updatedAt := copy.updatedAt)
  }

  function ScheduleFrom(locked: Schedule, schedule: Schedule): Schedule {
    locked.(status := schedule.status, nextScheduledAt := schedule.nextScheduledAt, updatedAt := schedule.updatedAt)
  }

  /** RecordRetry: the absolute overwrite of counters, content and next attempt. */
  function RetryTx(db: Db, copy: Delivery, schedule: Schedule): Tx {
    if !HasLease(copy) || !Open(db, copy.scheduleId) || !Holds(db, copy, copy.updatedAt) then Reject(db, ClaimConflict)
    else
      var locked := db.schedules[copy.scheduleId];
      var retried := db.(deliveries := db.deliveries[copy.id := RetriedRow(db.deliveries[copy.id], copy)]);
      if schedule.status != locked.status || schedule.nextScheduledAt.Some? then
        Tx(PutSchedule(retried, copy.scheduleId, ScheduleFrom(locked, schedule)), Done)
      else Tx(retried, Done)
  }

  function FinalRow(row: Delivery, copy: Delivery): Delivery {
    row.(status := copy.status, failure := copy.failure, sentAt := copy.sentAt, nextAttemptAt := copy.nextAttemptAt,
         leaseToken := None, leaseUntil := None, updatedAt := copy.updatedAt)
  }

  /** The schedule lock of FinalizeOccurrence: a cancellation also works in an inactive space. */
  function FinalLock(db: Db, copy: Delivery): Outcome
    requires HasLease(copy)
  {
    if copy.status.Cancelled? then
      if !Leased(db, copy.id, copy.leaseToken.value, copy.updatedAt)
        || db.deliveries[copy.id].scheduleId !in db.schedules then
        Rejected(ClaimConflict)
      else
        var spaceId := db.schedules[db.deliveries[copy.id].scheduleId].spaceId;
        if spaceId !in db.spaces then Rejected(InvalidTarget)
        else if !IsActive(db, copy.scheduleId) || db.schedules[copy.scheduleId].spaceId != spaceId then
          Rejected(ClaimConflict)
        else Done
    else if !Open(db, copy.scheduleId) then Rejected(ClaimConflict)
    else Done
  }

  ghost function FinalizeTx(db: Db, copy: Delivery, schedule: Schedule, next: Option<NewDelivery>): Tx {
    if !HasLease(copy) then Reject(db, ClaimConflict)
    else if FinalLock(db, copy) != Done then Tx(db, FinalLock(db, copy))
    else if !Holds(db, copy, copy.updatedAt) then Reject(db, ClaimConflict)
    else if next.Some? && Occupied(db, copy.scheduleId, next.value.scheduledAt) then Reject(db, DatabaseError)
    else
      var finished := db.(deliveries := db.deliveries[copy.id := FinalRow(db.deliveries[copy.id], copy)]);
      var inserted := if next.None? then finished
                      else PutRow(finished,
                        Fresh(db, copy.scheduleId, next.value, schedule.updatedAt)).(nextId := db.nextId + 1);
      Tx(PutSchedule(inserted, copy.scheduleId, ScheduleFrom(db.schedules[copy.scheduleId], schedule)), Done)
  }

  /** What the dispatch callback and the factory of the next occurrence answer. */
  datatype Plan = NoNext | NextRow(row: NewDelivery) | PlanError

  datatype Reply = Refused | Accepted(at: Time, plan: Plan)

  datatype Dispatched = Dispatched(db: Db, outcome: Outcome, accepted: bool)

  function SentRow(d: Delivery, at: Time): Delivery {
    d.(status := Sent, sentAt := Some(at), leaseToken := None, leaseUntil := None, nextAttemptAt := None,
      updatedAt := at)
  }

  /** The checks of DispatchAndFinalize before the callback runs. */
  function DispatchGuard(db: Db, id: Id, token: Id, now: Time, targetValid: bool): Outcome {
    if !Leased(db, id, token, now) || db.deliveries[id].scheduleId !in db.schedules then Rejected(ClaimConflict)
    else if !SpaceActive(db, db.schedules[db.deliveries[id].scheduleId].spaceId) then Rejected(InvalidTarget)
    else if !Open(db, db.deliveries[id].scheduleId) then Rejected(ClaimConflict)
    else if !targetValid then Rejected(InvalidTarget)
    else Done
  }

  /** Whether the transaction that follows an accepted send commits. */
  ghost predicate Commits(db: Db, id: Id, reply: Reply, commitOk: bool)
    requires id in db.deliveries
  {
    && reply.Accepted? && !reply.plan.PlanError? && commitOk
    && db.deliveries[id].leaseUntil.Some? && db.deliveries[id].leaseUntil.value > reply.at
    && (reply.plan.NextRow? ==> !Occupied(db, db.deliveries[id].scheduleId, reply.plan.row.scheduledAt))
  }

  function SentDb(db: Db, id: Id, at: Time, plan: Plan): Db
    requires id in db.deliveries && db.deliveries[id].scheduleId in db.schedules
  {
    var sid := db.deliveries[id].scheduleId;
    var sent := db.(deliveries := db.deliveries[id := SentRow(db.deliveries[id], at)]);
    match plan
    case NextRow(next) =>
      var inserted := PutRow(sent, Fresh(db, sid, next, at)).(nextId := db.nextId + 1);
      PutSchedule(inserted, sid, db.schedules[sid].(nextScheduledAt := Some(next.scheduledAt), updatedAt := at))
    case _ =>
      PutSchedule(sent, sid, db.schedules[sid].(status := ScheduleSent, nextScheduledAt := None, updatedAt := at))
  }

  /** DispatchAndFinalize: send inside the locking transaction, then finish the occurrence. */
  ghost function DispatchTx(
    db: Db, id: Id, token: Id, now: Time, targetValid: bool, reply: Reply, commitOk: bool): Dispatched
  {
    var guard := DispatchGuard(db, id, token, now, targetValid);
    if guard != Done then Dispatched(db, guard, false)
    else if reply.Refused? then Dispatched(db, Rejected(SendFailed), false)
    else if !Commits(db, id, reply, commitOk) then Dispatched(db, Rejected(DatabaseError), true)
    else Dispatched(SentDb(db, id, reply.at, reply.plan), Done, true)
  }
}
