/** What each step of the protocol makes of the rows, in the fields of the rows alone: when it goes
    through, and what it writes. The overwrites of whole copies come out as changes of a few fields,
    because a worker whose token is on its row has copies that agree with the row. */
module DeliverySteps {
  import opened Options
  import opened ScheduledMessages
  import opened DeliveryProtocol
  import opened DeliveryRuns

  /** The schedule has not ended and its space is there and active. */
  predicate Runs(db: Db, sid: Id) {
    && sid in db.schedules && db.schedules[sid].status == Active
    && db.schedules[sid].spaceId in db.spaces && db.spaces[db.schedules[sid].spaceId]
  }

  /** A pending row under the unexpired lease with this token. */
  predicate Live(d: Delivery, token: Id, now: Time) {
    d.status == Pending && d.leaseToken == Some(token) && d.leaseUntil.Some? && now < d.leaseUntil.value
  }

  /** The very lease of this copy, unexpired, on a pending row of the copy's schedule. */
  predicate UnderLeaseOf(d: Delivery, copy: Delivery, now: Time) {
    && d.scheduleId == copy.scheduleId && copy.leaseToken.Some? && d.leaseUntil == copy.leaseUntil
    && Live(d, copy.leaseToken.value, now)
  }

  /** Pending, its next attempt not in the future, no lease or an expired one, and all active. */
  predicate Claimable(db: Db, id: Id, now: Time) {
    && id in db.deliveries
    && db.deliveries[id].status == Pending
    && db.deliveries[id].nextAttemptAt.Some? && db.deliveries[id].nextAttemptAt.value <= now
    && (db.deliveries[id].leaseToken.None?
        || (db.deliveries[id].leaseUntil.Some? && db.deliveries[id].leaseUntil.value <= now))
    && Runs(db, db.deliveries[id].scheduleId)
  }

  predicate At(d: Delivery, sid: Id, at: Time) { d.scheduleId == sid && d.scheduledAt == at }

  /** No row of the schedule is at this instant, whatever its status. */
  ghost predicate NoRowAt(db: Db, sid: Id, at: Time) {
    forall id :: id in db.deliveries ==> !At(db.deliveries[id], sid, at)
  }

  /** A new pending row without lease, attempts or history. */
  function NewRow(id: Id, sid: Id, next: NewDelivery, at: Time): Delivery {
    Delivery(id, sid, next.scheduledAt, next.content, 0, 0, Some(next.scheduledAt), None, None, Pending, None, None, at)
  }

  /** The row is closed: no further attempt, no lease. */
  function EndedRow(
    d: Delivery, status: DeliveryStatus, failure: Option<Text>, sentAt: Option<Time>, at: Time): Delivery
  {
    d.(status := status, failure := failure, sentAt := sentAt, nextAttemptAt := None, leaseToken := None,
       leaseUntil := None, updatedAt := at)
  }

  // ------------------------------------------------------------ the rows

  /** The row that the worker of a token works on, in the table. */
  function RowOf(s: Sys, token: Id): Option<Delivery> {
    if token in s.workers && s.workers[token].copy.id in s.db.deliveries then
      Some(s.db.deliveries[s.workers[token].copy.id])
    else None
  }

  /** The worker's row is live and its schedule runs. */
  predicate AtWork(s: Sys, token: Id, now: Time) {
    RowOf(s, token).Some? && Live(RowOf(s, token).value, token, now) && Runs(s.db, RowOf(s, token).value.scheduleId)
  }

  function WithRow(s: Sys, d: Delivery): Db { s.db.(deliveries := s.db.deliveries[d.id := d]) }

  ghost predicate ClaimMakes(s: Sys, id: Id, now: Time, until: Time, s': Sys) {
    if Claimable(s.db, id, now) then
      && s'.db == s.db.(nextId := s.db.nextId + 1, deliveries := s.db.deliveries[
           id := s.db.deliveries[id].(leaseToken := Some(s.db.nextId), leaseUntil := Some(until), updatedAt := now)])
      && s'.workers == s.workers[s.db.nextId := Worker(s'.db.deliveries[id], None, None)]
      && s'.accepted == s.accepted
    else s' == s
  }

  lemma ClaimTells(limits: Limits, s: Sys, id: Id, now: Time, until: Time)
    requires Inv(limits, s)
    ensures ClaimMakes(s, id, now, until, Apply(limits, s, Claim(id, now, until)))
  {
    assert id in s.db.deliveries ==> RowWellFormed(s.db, id);
  }

  ghost predicate LoadMakes(s: Sys, token: Id, now: Time, s': Sys) {
    if RowOf(s, token).Some? && Live(RowOf(s, token).value, token, now) then
      var d := RowOf(s, token).value;
      && d.scheduleId in s.db.schedules
      && s' == s.(workers := s.workers[token :=
           s.workers[token].(copy := d, schedule := Some(s.db.schedules[d.scheduleId]))])
    else s' == s
  }

  lemma LoadTells(limits: Limits, s: Sys, token: Id, now: Time)
    requires Inv(limits, s)
    ensures LoadMakes(s, token, now, Apply(limits, s, Load(token, now)))
  {
    if token in s.workers {
      var w := s.workers[token];
      assert WorkerOk(s.db, token, w) && RowWellFormed(s.db, w.copy.id);
      var sid := s.db.deliveries[w.copy.id].scheduleId;
      assert ScheduleConsistent(s.db, sid);
      assert IsPending(s.db, w.copy.id) ==> PendingOf(s.db, sid, w.copy.id);
    }
  }

  /** What the invariant says of one worker and its row. */
  ghost predicate InStep(limits: Limits, s: Sys, token: Id) {
    && token in s.workers && WorkerOk(s.db, token, s.workers[token])
    && RowWellFormed(s.db, s.workers[token].copy.id)
    && 0 <= s.db.deliveries[s.workers[token].copy.id].generationAttempts <= limits.generation
    && 0 <= s.db.deliveries[s.workers[token].copy.id].deliveryAttempts <= limits.dispatching
    && ScheduleConsistent(s.db, s.workers[token].copy.scheduleId)
  }

  lemma WorkerInStep(limits: Limits, s: Sys, token: Id)
    requires Inv(limits, s) && token in s.workers
    ensures InStep(limits, s, token)
  {
    assert WorkerOk(s.db, token, s.workers[token]) && RowWellFormed(s.db, s.workers[token].copy.id);
  }

  predicate AttemptsLeft(limits: Limits, d: Delivery, c: Counter) {
    && (c == Generation ==> d.generationAttempts < limits.generation)
    && (c == Dispatching ==> d.deliveryAttempts < limits.dispatching)
  }

  lemma ReserveGoes(limits: Limits, s: Sys, token: Id, c: Counter, now: Time)
    requires InStep(limits, s, token)
    ensures RowOf(s, token).Some?
    ensures ReserveTx(s.db, s.workers[token].copy, now, Max(limits, c), c).outcome == Done <==>
      AtWork(s, token, now) && AttemptsLeft(limits, RowOf(s, token).value, c)
  {
  }

  function One(yes: bool): nat { if yes then 1 else 0 }

  /** The delivery with one more attempt of this kind. */
  function Counted(d: Delivery, c: Counter, at: Time): Delivery {
    d.(generationAttempts := d.generationAttempts + One(c == Generation),
       deliveryAttempts := d.deliveryAttempts + One(c == Dispatching), updatedAt := at)
  }

  lemma ReserveWrites(limits: Limits, s: Sys, token: Id, c: Counter, now: Time)
    requires InStep(limits, s, token) && RowOf(s, token).Some?
    requires AtWork(s, token, now) && AttemptsLeft(limits, RowOf(s, token).value, c)
    ensures
      var s', w := ReserveStep(limits, s, token, c, now), s.workers[token];
      && s'.db == WithRow(s, Counted(RowOf(s, token).value, c, now))
      && s'.workers == s.workers[token := Worker(Counted(w.copy, c, now), w.schedule,
           if c == Dispatching then Some(RowOf(s, token).value.deliveryAttempts + 1) else w.ticket)]
      && s'.accepted == s.accepted
  {
    ReserveGoes(limits, s, token, c, now);
  }

  /** One attempt is counted, in the row and in the copy, if there is one left. */
  ghost predicate ReserveMakes(limits: Limits, s: Sys, token: Id, c: Counter, now: Time, s': Sys) {
    if AtWork(s, token, now) && AttemptsLeft(limits, RowOf(s, token).value, c) then
      var d, w := RowOf(s, token).value, s.workers[token];
      && s'.db == WithRow(s, Counted(d, c, now))
      && s'.workers == s.workers[token := Worker(Counted(w.copy, c, now), w.schedule,
           if c == Dispatching then Some(d.deliveryAttempts + 1) else w.ticket)]
      && s'.accepted == s.accepted
    else s' == s
  }

  lemma ReserveTells(limits: Limits, s: Sys, token: Id, c: Counter, now: Time)
    requires Inv(limits, s)
    ensures ReserveMakes(limits, s, token, c, now, Apply(limits, s, Reserve(token, c, now)))
  {
    if token in s.workers {
      WorkerInStep(limits, s, token);
      ReserveGoes(limits, s, token, c, now);
      if AtWork(s, token, now) && AttemptsLeft(limits, RowOf(s, token).value, c) {
        ReserveWrites(limits, s, token, c, now);
      }
    }
  }

  lemma PersistGoes(limits: Limits, s: Sys, token: Id, content: Text, now: Time)
    requires InStep(limits, s, token)
    ensures PersistTx(s.db, s.workers[token].copy, content, now).outcome == Done <==> AtWork(s, token, now)
  {
  }

  ghost predicate PersistMakes(s: Sys, token: Id, content: Text, now: Time, s': Sys) {
    if AtWork(s, token, now) then
      && s'.db == WithRow(s, RowOf(s, token).value.(content := Some(content), updatedAt := now))
      && s'.workers == s.workers[token :=
           s.workers[token].(copy := s.workers[token].copy.(content := Some(content), updatedAt := now))]
      && s'.accepted == s.accepted
    else s' == s
  }

  lemma PersistTells(limits: Limits, s: Sys, token: Id, content: Text, now: Time)
    requires Inv(limits, s)
    ensures PersistMakes(s, token, content, now, Apply(limits, s, Persist(token, content, now)))
  {
    if token in s.workers {
      WorkerInStep(limits, s, token);
      PersistGoes(limits, s, token, content, now);
    }
  }

  lemma RetryGoes(limits: Limits, s: Sys, token: Id, nextAttempt: Time, category: Text, now: Time)
    requires InStep(limits, s, token) && s.workers[token].schedule.Some?
    ensures RowOf(s, token).Some?
    ensures
      var w := s.workers[token];
      var tx := RetryTx(s.db, RetryCopy(w, nextAttempt, category, now), w.schedule.value.(updatedAt := now));
      var d := RowOf(s, token).value;
      if AtWork(s, token, now) then
        tx.db == WithRow(s, d.(nextAttemptAt := Some(nextAttempt), leaseToken := None, leaseUntil := None,
                               failure := Some(category), updatedAt := now)).(
          schedules := s.db.schedules[d.scheduleId := s.db.schedules[d.scheduleId].(updatedAt := now)])
      else tx.db == s.db
  {
  }

  /** The row is given back for a later attempt; counters and content stay. */
  ghost predicate RetryMakes(s: Sys, token: Id, nextAttempt: Time, category: Text, now: Time, s': Sys) {
    if AtWork(s, token, now) && s.workers[token].schedule.Some? then
      var d := RowOf(s, token).value;
      && s'.db == WithRow(s, d.(nextAttemptAt := Some(nextAttempt), leaseToken := None, leaseUntil := None,
                                failure := Some(category), updatedAt := now)).(
           schedules := s.db.schedules[d.scheduleId := s.db.schedules[d.scheduleId].(updatedAt := now)])
      && s'.workers == s.workers - {token} && s'.accepted == s.accepted
    else s'.db == s.db && s'.accepted == s.accepted
  }

  lemma RetryTells(limits: Limits, s: Sys, token: Id, nextAttempt: Time, category: Text, now: Time)
    requires Inv(limits, s)
    ensures RetryMakes(s, token, nextAttempt, category, now, Apply(limits, s, Retry(token, nextAttempt, category, now)))
  {
    if token in s.workers && s.workers[token].schedule.Some? {
      WorkerInStep(limits, s, token);
      RetryGoes(limits, s, token, nextAttempt, category, now);
    }
  }

  // ------------------------------------------------- closing an occurrence

  /** Nothing at the next instant, if there is a next one. */
  ghost predicate FreeFor(db: Db, sid: Id, next: Option<NewDelivery>) {
    next.Some? ==> NoRowAt(db, sid, next.value.scheduledAt)
  }

  /** Row d is ended as `row` and schedule as given; the next occurrence, if any, is inserted. */
  function Closed(s: Sys, row: Delivery, next: Option<NewDelivery>, schedule: Schedule, at: Time): Db {
    var rows := s.db.deliveries[row.id := row];
    s.db.(schedules := s.db.schedules[row.scheduleId := schedule],
          deliveries := if next.None? then rows
            else rows[s.db.nextId := NewRow(s.db.nextId, row.scheduleId, next.value, at)],
          nextId := if next.None? then s.db.nextId else s.db.nextId + 1)
  }

  /** What becomes of a schedule whose occurrence is closed. */
  function After(schedule: Schedule, next: Option<NewDelivery>, status: ScheduleStatus, at: Time): Schedule {
    schedule.(status := if next.Some? then Active else status,
              nextScheduledAt := if next.Some? then Some(next.value.scheduledAt) else None, updatedAt := at)
  }

  lemma FinishGoes(limits: Limits, s: Sys, token: Id, status: DeliveryStatus, next: Option<NewDelivery>,
      category: Text, now: Time)
    requires InStep(limits, s, token) && s.workers[token].schedule.Some?
    requires Allowed(Finish(token, status, next, category, now))
    ensures
      var w := s.workers[token];
      var tx := FinalizeTx(s.db, FinishCopy(w, status, category, now),
        FinishSchedule(w.schedule.value, status, next, now), next);
      tx.outcome == Done <==> Finishes(s, token, status, next, now)
  {
    var sid := s.workers[token].copy.scheduleId;
    assert IsPending(s.db, s.workers[token].copy.id) ==> PendingOf(s.db, sid, s.workers[token].copy.id);
    if next.Some? {
      assert Occupied(s.db, sid, next.value.scheduledAt) <==> !NoRowAt(s.db, sid, next.value.scheduledAt) by {
        assert forall id :: Occupies(s.db, sid, next.value.scheduledAt, id) <==>
          id in s.db.deliveries && At(s.db.deliveries[id], sid, next.value.scheduledAt);
      }
    }
  }

  /** A finish goes through; a cancellation needs the space to be there, not to be active. */
  ghost predicate Finishes(s: Sys, token: Id, status: DeliveryStatus, next: Option<NewDelivery>, now: Time) {
    && RowOf(s, token).Some? && s.workers[token].schedule.Some?
    && var d := RowOf(s, token).value;
       && Live(d, token, now) && FreeFor(s.db, d.scheduleId, next)
       && (status != Cancelled ==> Runs(s.db, d.scheduleId))
       && d.scheduleId in s.db.schedules && s.db.schedules[d.scheduleId].status == Active
       && s.db.schedules[d.scheduleId].spaceId in s.db.spaces
  }

  function FinalStatus(status: DeliveryStatus): ScheduleStatus {
    if status == Cancelled then ScheduleCancelled else ScheduleFailed
  }

  lemma FinishWrites(limits: Limits, s: Sys, token: Id, status: DeliveryStatus, next: Option<NewDelivery>,
      category: Text, now: Time)
    requires InStep(limits, s, token) && s.workers[token].schedule.Some?
    requires Allowed(Finish(token, status, next, category, now)) && Finishes(s, token, status, next, now)
    ensures
      var w := s.workers[token];
      var tx := FinalizeTx(s.db, FinishCopy(w, status, category, now),
        FinishSchedule(w.schedule.value, status, next, now), next);
      var d := RowOf(s, token).value;
      tx.db == Closed(s, EndedRow(d, status, Some(category), None, now), next,
        After(s.db.schedules[d.scheduleId], next, FinalStatus(status), now), now)
  {
    FinishGoes(limits, s, token, status, next, category, now);
  }

  ghost predicate FinishMakes(
    s: Sys, token: Id, status: DeliveryStatus, next: Option<NewDelivery>, category: Text, now: Time, s': Sys)
  {
    && s'.accepted == s.accepted
    && if Finishes(s, token, status, next, now) then
         var d := RowOf(s, token).value;
         && d.scheduleId in s.db.schedules
         && s'.db == Closed(s, EndedRow(d, status, Some(category), None, now), next,
              After(s.db.schedules[d.scheduleId], next, FinalStatus(status), now), now)
       else s'.db == s.db
  }

  lemma FinishTells(limits: Limits, s: Sys, token: Id, status: DeliveryStatus, next: Option<NewDelivery>,
      category: Text, now: Time)
    requires Inv(limits, s) && Allowed(Finish(token, status, next, category, now))
    ensures FinishMakes(s, token, status, next, category, now,
      Apply(limits, s, Finish(token, status, next, category, now)))
  {
    if token in s.workers && s.workers[token].schedule.Some? {
      WorkerInStep(limits, s, token);
      FinishGoes(limits, s, token, status, next, category, now);
      if Finishes(s, token, status, next, now) {
        FinishWrites(limits, s, token, status, next, category, now);
      }
    }
  }

  /** The sender is asked. */
  predicate Asks(s: Sys, token: Id, now: Time, targetValid: bool) {
    AtWork(s, token, now) && s.workers[token].ticket.Some? && targetValid
  }

  function NextOf(reply: Reply): Option<NewDelivery> {
    if reply.Accepted? && reply.plan.NextRow? then Some(reply.plan.row) else None
  }

  /** An accepted send is committed: the lease still lives at its time and the next instant is free. */
  ghost predicate SendCommits(d: Delivery, db: Db, reply: Reply, commitOk: bool) {
    && reply.Accepted? && reply.plan != PlanError && commitOk
    && d.leaseUntil.Some? && reply.at < d.leaseUntil.value
    && FreeFor(db, d.scheduleId, NextOf(reply))
  }

  lemma DispatchGoes(limits: Limits, s: Sys, token: Id, now: Time, targetValid: bool, reply: Reply, commitOk: bool)
    requires InStep(limits, s, token) && s.workers[token].ticket.Some?
    ensures RowOf(s, token).Some?
    ensures
      var tx := DispatchTx(s.db, s.workers[token].copy.id, token, now, targetValid, reply, commitOk);
      && (tx.accepted <==> Asks(s, token, now, targetValid) && reply.Accepted?)
      && (tx.outcome == Done <==>
           Asks(s, token, now, targetValid) && SendCommits(RowOf(s, token).value, s.db, reply, commitOk))
  {
    var sid := s.workers[token].copy.scheduleId;
    if NextOf(reply).Some? {
      var at := NextOf(reply).value.scheduledAt;
      assert Occupied(s.db, sid, at) <==> !NoRowAt(s.db, sid, at) by {
        assert forall id :: Occupies(s.db, sid, at, id) <==> id in s.db.deliveries && At(s.db.deliveries[id], sid, at);
      }
    }
  }

  lemma DispatchWrites(limits: Limits, s: Sys, token: Id, now: Time, targetValid: bool, reply: Reply, commitOk: bool)
    requires InStep(limits, s, token) && s.workers[token].ticket.Some?
    requires RowOf(s, token).Some?
    requires Asks(s, token, now, targetValid) && SendCommits(RowOf(s, token).value, s.db, reply, commitOk)
    ensures
      var tx := DispatchTx(s.db, s.workers[token].copy.id, token, now, targetValid, reply, commitOk);
      var d := RowOf(s, token).value;
      tx.db == Closed(s, EndedRow(d, Sent, d.failure, Some(reply.at), reply.at), NextOf(reply),
        After(s.db.schedules[d.scheduleId], NextOf(reply), ScheduleSent, reply.at), reply.at)
  {
    DispatchGoes(limits, s, token, now, targetValid, reply, commitOk);
  }

  ghost predicate DispatchMakes(
    s: Sys, token: Id, now: Time, targetValid: bool, reply: Reply, commitOk: bool, s': Sys)
  {
    && s'.accepted == s.accepted
         + (if Asks(s, token, now, targetValid) && reply.Accepted? then
              {(s.workers[token].copy.id, s.workers[token].ticket.value)} else {})
    && s'.workers == (if token in s.workers then s.workers[token := s.workers[token].(ticket := None)] else s.workers)
    && if Asks(s, token, now, targetValid) && SendCommits(RowOf(s, token).value, s.db, reply, commitOk) then
         var d := RowOf(s, token).value;
         s'.db == Closed(s, EndedRow(d, Sent, d.failure, Some(reply.at), reply.at), NextOf(reply),
           After(s.db.schedules[d.scheduleId], NextOf(reply), ScheduleSent, reply.at), reply.at)
       else s'.db == s.db
  }

  lemma DispatchTells(limits: Limits, s: Sys, token: Id, now: Time, targetValid: bool, reply: Reply, commitOk: bool)
    requires Inv(limits, s)
    ensures DispatchMakes(s, token, now, targetValid, reply, commitOk,
      Apply(limits, s, Dispatch(token, now, targetValid, reply, commitOk)))
  {
    if token in s.workers && s.workers[token].ticket.Some? {
      WorkerInStep(limits, s, token);
      DispatchGoes(limits, s, token, now, targetValid, reply, commitOk);
      if Asks(s, token, now, targetValid) && SendCommits(RowOf(s, token).value, s.db, reply, commitOk) {
        DispatchWrites(limits, s, token, now, targetValid, reply, commitOk);
      }
    }
  }

  // ------------------------------------------------------------ user writes

  /** A pending row of the schedule is cancelled, with its lease; any other row stays. */
  function CalledOff(d: Delivery, sid: Id, at: Time): Delivery {
    if d.scheduleId == sid && d.status == Pending then
      d.(status := Cancelled, leaseToken := None, leaseUntil := None, updatedAt := at)
    else d
  }

  /** Unsubscribed by the member who leaves, or cancelled. */
  function TerminatedBy(schedule: Schedule, member: Option<Id>, at: Time): Schedule {
    if member.Some? then
      schedule.(status := Unsubscribed, nextScheduledAt := None, updatedAt := at,
                unsubscribedBy := member, unsubscribedAt := Some(at))
    else schedule.(status := ScheduleCancelled, nextScheduledAt := None, updatedAt := at)
  }

  ghost predicate TerminateMakes(s: Sys, spaceId: Id, sid: Id, member: Option<Id>, now: Time, s': Sys) {
    && s'.workers == s.workers && s'.accepted == s.accepted
    && if Runs(s.db, sid) && s.db.schedules[sid].spaceId == spaceId then
         && s'.db.spaces == s.db.spaces && s'.db.nextId == s.db.nextId
         && s'.db.deliveries.Keys == s.db.deliveries.Keys
         && (forall id :: id in s.db.deliveries ==> s'.db.deliveries[id] == CalledOff(s.db.deliveries[id], sid, now))
         && s'.db.schedules == s.db.schedules[sid := TerminatedBy(s.db.schedules[sid], member, now)]
       else s'.db == s.db
  }

  lemma TerminateTells(limits: Limits, s: Sys, spaceId: Id, sid: Id, member: Option<Id>, now: Time)
    ensures TerminateMakes(s, spaceId, sid, member, now, Apply(limits, s, Terminate(spaceId, sid, member, now)))
  {
  }

  /** The rows of the schedule at this instant may be opened again. */
  ghost predicate MayOpen(db: Db, sid: Id, at: Time) {
    forall id :: id in db.deliveries && At(db.deliveries[id], sid, at) ==>
      db.deliveries[id].status == Pending || db.deliveries[id].status == Cancelled
  }

  function Reopened(d: Delivery, sid: Id, next: NewDelivery, at: Time): Delivery {
    if d.scheduleId == sid && d.scheduledAt == next.scheduledAt then
      d.(content := next.content, nextAttemptAt := Some(next.scheduledAt), leaseToken := None, leaseUntil := None,
         status := Pending, failure := None, sentAt := None, updatedAt := at)
    else CalledOff(d, sid, at)
  }

  ghost predicate MayEdit(db: Db, spaceId: Id, sid: Id, next: Option<NewDelivery>) {
    && next.Some? && Runs(db, sid) && db.schedules[sid].spaceId == spaceId
    && MayOpen(db, sid, next.value.scheduledAt)
  }

  lemma EditGoes(db: Db, spaceId: Id, sid: Id, f: UpdateFields, next: Option<NewDelivery>, now: Time)
    requires OccurrencesUnique(db)
    ensures UpdateActiveTx(db, spaceId, sid, f, next, now).outcome == Done <==> MayEdit(db, spaceId, sid, next)
    ensures next.Some? ==> (RowAt(db, sid, next.value.scheduledAt).None? <==> NoRowAt(db, sid, next.value.scheduledAt))
  {
    if next.Some? {
      var at := next.value.scheduledAt;
      assert forall id :: Occupies(db, sid, at, id) <==> id in db.deliveries && At(db.deliveries[id], sid, at);
      var r := RowAt(db, sid, at);
      assert r.None? <==> NoRowAt(db, sid, at);
      assert r.Some? ==> forall id :: Occupies(db, sid, at, id) ==> id == r.value;
    }
  }

  lemma EditRow(db: Db, spaceId: Id, sid: Id, f: UpdateFields, next: Option<NewDelivery>, now: Time, id: Id)
    requires OccurrencesUnique(db) && db.nextId !in db.deliveries && id in db.deliveries
    requires MayEdit(db, spaceId, sid, next)
    ensures var db' := UpdateActiveTx(db, spaceId, sid, f, next, now).db;
      id in db'.deliveries && db'.deliveries[id] == Reopened(db.deliveries[id], sid, next.value, now)
  {
    EditGoes(db, spaceId, sid, f, next, now);
    var at := next.value.scheduledAt;
    var r := RowAt(db, sid, at);
    assert At(db.deliveries[id], sid, at) ==> Occupies(db, sid, at, id);
    assert r.Some? ==> Occupies(db, sid, at, r.value);
  }

  lemma EditRest(db: Db, spaceId: Id, sid: Id, f: UpdateFields, next: Option<NewDelivery>, now: Time)
    requires OccurrencesUnique(db) && db.nextId !in db.deliveries && MayEdit(db, spaceId, sid, next)
    ensures
      var db' := UpdateActiveTx(db, spaceId, sid, f, next, now).db;
      var isNew := NoRowAt(db, sid, next.value.scheduledAt);
      && db'.spaces == db.spaces && db'.nextId == db.nextId + One(isNew)
      && db'.deliveries.Keys == db.deliveries.Keys + (if isNew then {db.nextId} else {})
      && (isNew ==> db'.deliveries[db.nextId] == NewRow(db.nextId, sid, next.value, now))
      && db'.schedules == db.schedules[sid := EditedTo(db.schedules[sid], f, next.value, now)]
  {
    EditGoes(db, spaceId, sid, f, next, now);
  }

  /** The given fields replace those of the schedule; its next time is that of the next delivery. */
  function EditedTo(schedule: Schedule, f: UpdateFields, next: NewDelivery, at: Time): Schedule {
    Schedule(schedule.spaceId, if f.mode.Some? then f.mode.value else schedule.mode,
      if f.content.Some? then f.content.value else schedule.content,
      if f.recurrence.Some? then f.recurrence.value else schedule.recurrence,
      if f.timezone.Some? then f.timezone.value else schedule.timezone,
      if f.startAt.Some? then f.startAt.value else schedule.startAt,
      Some(next.scheduledAt), schedule.status, schedule.unsubscribedBy, schedule.unsubscribedAt, at)
  }

  /** The edit leaves one pending row of the schedule, at the instant of `next` and with its content:
      the row that was there, with its counters, or a new one. */
  ghost predicate EditMakes(
    s: Sys, spaceId: Id, sid: Id, f: UpdateFields, next: Option<NewDelivery>, now: Time, s': Sys)
  {
    && s'.workers == s.workers && s'.accepted == s.accepted
    && if MayEdit(s.db, spaceId, sid, next) then
         var isNew := NoRowAt(s.db, sid, next.value.scheduledAt);
         && s'.db.spaces == s.db.spaces && s'.db.nextId == s.db.nextId + One(isNew)
         && s'.db.deliveries.Keys == s.db.deliveries.Keys + (if isNew then {s.db.nextId} else {})
         && (forall id :: id in s.db.deliveries ==>
               s'.db.deliveries[id] == Reopened(s.db.deliveries[id], sid, next.value, now))
         && (isNew ==> s'.db.deliveries[s.db.nextId] == NewRow(s.db.nextId, sid, next.value, now))
         && s'.db.schedules == s.db.schedules[sid := EditedTo(s.db.schedules[sid], f, next.value, now)]
       else s'.db == s.db
  }

  lemma EditTells(limits: Limits, s: Sys, spaceId: Id, sid: Id, f: UpdateFields, next: Option<NewDelivery>, now: Time)
    requires Inv(limits, s)
    ensures EditMakes(s, spaceId, sid, f, next, now, Apply(limits, s, Edit(spaceId, sid, f, next, now)))
  {
    assert s.db.nextId in s.db.deliveries ==> RowWellFormed(s.db, s.db.nextId);
    EditGoes(s.db, spaceId, sid, f, next, now);
    if MayEdit(s.db, spaceId, sid, next) {
      EditRest(s.db, spaceId, sid, f, next, now);
      forall id | id in s.db.deliveries
        ensures Apply(limits, s, Edit(spaceId, sid, f, next, now)).db.deliveries[id]
             == Reopened(s.db.deliveries[id], sid, next.value, now)
      {
        EditRow(s.db, spaceId, sid, f, next, now, id);
      }
    }
  }

  /** A creation inserts an active schedule and its first pending row, which by default is tried at
      its instant and, if the text is fixed, carries the text of the schedule. */
  ghost predicate CreateMakes(s: Sys, d: Draft, now: Time, s': Sys) {
    && s'.workers == s.workers && s'.accepted == s.accepted
    && if d.firstAt == d.schedule.startAt then
         var sid := s.db.nextId;
         && s'.db.spaces == s.db.spaces && s'.db.nextId == sid + 2
         && s'.db.schedules == s.db.schedules[sid :=
              d.schedule.(status := Active, nextScheduledAt := Some(d.schedule.startAt), updatedAt := now)]
         && s'.db.deliveries == s.db.deliveries[sid + 1 :=
              NewRow(sid + 1, sid, NewDelivery(d.schedule.startAt,
                if d.snapshot.Some? then d.snapshot
                else if d.schedule.mode == Fixed then Some(d.schedule.content) else None), now).(
                nextAttemptAt := if d.firstAttempt.Some? then d.firstAttempt else Some(d.schedule.startAt))]
       else s'.db == s.db
  }

  lemma CreateTells(limits: Limits, s: Sys, d: Draft, now: Time)
    requires Inv(limits, s) && Allowed(Create(d, now))
    ensures CreateMakes(s, d, now, Apply(limits, s, Create(d, now)))
  {
  }

  /** The defaults of any creation: statuses as given, or active and pending; and only the row of a
      pending first delivery with a fixed text gets that text unless a snapshot is given. */
  lemma CreateDefaults(db: Db, d: Draft, now: Time)
    requires d.firstAt == d.schedule.startAt
    ensures var db', sid := CreateTx(db, d, now).db, db.nextId;
      && sid in db'.schedules && sid + 1 in db'.deliveries
      && var schedule, row := db'.schedules[sid], db'.deliveries[sid + 1];
         && schedule.status == (if d.status.Some? then d.status.value else Active)
         && schedule.nextScheduledAt ==
              Some(if d.schedule.nextScheduledAt.Some? then d.schedule.nextScheduledAt.value else d.schedule.startAt)
         && row.status == (if d.firstStatus.Some? then d.firstStatus.value else Pending)
         && (row.content == None <==> d.snapshot == None && (row.status != Pending || d.schedule.mode == AI))
         && (row.content.Some? ==>
               row.content.value == if d.snapshot.Some? then d.snapshot.value else d.schedule.content)
  {
  }

  // --------------------------------------------------------- any operation

  ghost predicate Makes(limits: Limits, s: Sys, op: Op, s': Sys) {
    match op
    case SetSpace(spaceId, active) =>
      s' == s.(db := s.db.(spaces := if active == None then s.db.spaces - {spaceId}
                                     else s.db.spaces[spaceId := active.value]))
    case Create(draft, now) => CreateMakes(s, draft, now, s')
    case Edit(spaceId, sid, fields, next, now) => EditMakes(s, spaceId, sid, fields, next, now, s')
    case Terminate(spaceId, sid, member, now) => TerminateMakes(s, spaceId, sid, member, now, s')
    case Claim(id, now, until) => ClaimMakes(s, id, now, until, s')
    case Load(token, now) => LoadMakes(s, token, now, s')
    case Reserve(token, c, now) => ReserveMakes(limits, s, token, c, now, s')
    case Persist(token, content, now) => PersistMakes(s, token, content, now, s')
    case Retry(token, nextAttempt, category, now) => RetryMakes(s, token, nextAttempt, category, now, s')
    case Finish(token, status, next, category, now) => FinishMakes(s, token, status, next, category, now, s')
    case Dispatch(token, now, targetValid, reply, commitOk) =>
      DispatchMakes(s, token, now, targetValid, reply, commitOk, s')
    case Leave(token) => s' == s.(workers := s.workers - {token})
  }

  lemma ApplyMakes(limits: Limits, s: Sys, op: Op)
    requires Inv(limits, s) && Allowed(op)
    ensures Makes(limits, s, op, Apply(limits, s, op))
  {
    match op {
      case SetSpace(_, _) =>
      case Create(draft, now) => CreateTells(limits, s, draft, now);
      case Edit(spaceId, sid, fields, next, now) => EditTells(limits, s, spaceId, sid, fields, next, now);
      case Terminate(spaceId, sid, member, now) => TerminateTells(limits, s, spaceId, sid, member, now);
      case Claim(id, now, until) => ClaimTells(limits, s, id, now, until);
      case Load(token, now) => LoadTells(limits, s, token, now);
      case Reserve(token, c, now) => ReserveTells(limits, s, token, c, now);
      case Persist(token, content, now) => PersistTells(limits, s, token, content, now);
      case Retry(token, nextAttempt, category, now) => RetryTells(limits, s, token, nextAttempt, category, now);
      case Finish(token, status, next, category, now) => FinishTells(limits, s, token, status, next, category, now);
      case Dispatch(token, now, targetValid, reply, commitOk) =>
        DispatchTells(limits, s, token, now, targetValid, reply, commitOk);
      case Leave(_) =>
    }
  }

  // ------------------------------------------- one row, under any operation

  /** What an operation may make of a row: nothing, or exactly this. */
  ghost predicate RowStep(s: Sys, op: Op, d: Delivery, d': Delivery) {
    d' == d || (match op
      case Edit(spaceId, sid, _, next, now) =>
        MayEdit(s.db, spaceId, sid, next) && d' == Reopened(d, sid, next.value, now)
      case Terminate(_, sid, _, now) => d' == CalledOff(d, sid, now)
      case Claim(id, now, until) =>
        && d.id == id && d.status == Pending && d.nextAttemptAt.Some? && d.nextAttemptAt.value <= now
        && (d.leaseToken.None? || (d.leaseUntil.Some? && d.leaseUntil.value <= now))
        && d' == d.(leaseToken := Some(s.db.nextId), leaseUntil := Some(until), updatedAt := now)
      case Reserve(t, c, now) => Live(d, t, now) && d' == Counted(d, c, now)
      case Persist(t, content, now) => Live(d, t, now) && d' == d.(content := Some(content), updatedAt := now)
      case Retry(t, nextAttempt, category, now) =>
        && Live(d, t, now)
        && d' == d.(nextAttemptAt := Some(nextAttempt), leaseToken := None, leaseUntil := None,
                    failure := Some(category), updatedAt := now)
      case Finish(t, status, _, category, now) =>
        Live(d, t, now) && d' == EndedRow(d, status, Some(category), None, now)
      case Dispatch(t, now, _, reply, _) =>
        && Live(d, t, now) && reply.Accepted? && d.leaseUntil.Some? && reply.at < d.leaseUntil.value
        && d' == EndedRow(d, Sent, d.failure, Some(reply.at), reply.at)
      case _ => false)
  }

  /** Rows are kept under their ids, below the next one; workers work on rows of known schedules. */
  ghost predicate Keyed(s: Sys) {
    && (forall id :: id in s.db.deliveries ==> s.db.deliveries[id].id == id < s.db.nextId)
    && (forall k :: k in s.workers ==>
          && RowOf(s, k).Some? && RowOf(s, k).value.id == s.workers[k].copy.id
          && RowOf(s, k).value.scheduleId in s.db.schedules)
  }

  lemma InvKeyed(limits: Limits, s: Sys)
    requires Inv(limits, s)
    ensures Keyed(s)
  {
    assert forall id :: id in s.db.deliveries ==> RowWellFormed(s.db, id);
    assert forall k :: k in s.workers ==> WorkerOk(s.db, k, s.workers[k]);
  }

  lemma RowMade(limits: Limits, s: Sys, op: Op, s': Sys, id: Id)
    requires Keyed(s) && Makes(limits, s, op, s') && id in s.db.deliveries
    ensures id in s'.db.deliveries && RowStep(s, op, s.db.deliveries[id], s'.db.deliveries[id])
  {
  }

  lemma RowAfter(limits: Limits, s: Sys, op: Op, id: Id)
    requires Inv(limits, s) && Allowed(op) && id in s.db.deliveries
    ensures var db' := Apply(limits, s, op).db;
      id in db'.deliveries && RowStep(s, op, s.db.deliveries[id], db'.deliveries[id])
  {
    InvKeyed(limits, s);
    ApplyMakes(limits, s, op);
    RowMade(limits, s, op, Apply(limits, s, op), id);
  }

  /** Where a new row comes from. */
  ghost predicate RowFrom(s: Sys, op: Op, d: Delivery) {
    match op
    case Create(draft, now) =>
      && d.scheduleId == s.db.nextId && d.generationAttempts == 0 == d.deliveryAttempts && d.leaseToken.None?
      && d.content == if draft.snapshot.Some? then draft.snapshot
                      else if draft.schedule.mode == Fixed then Some(draft.schedule.content) else None
    case Edit(spaceId, sid, _, next, now) =>
      MayEdit(s.db, spaceId, sid, next) && d == NewRow(s.db.nextId, sid, next.value, now)
    case Finish(token, _, next, _, now) => next.Some? && Follows(s, token, now, next.value, now, d)
    case Dispatch(token, now, _, reply, _) =>
      NextOf(reply).Some? && Follows(s, token, now, NextOf(reply).value, reply.at, d)
    case _ => false
  }

  /** d is the new row of the occurrence that follows the live row of this worker. */
  ghost predicate Follows(s: Sys, token: Id, now: Time, next: NewDelivery, at: Time, d: Delivery) {
    && RowOf(s, token).Some? && Live(RowOf(s, token).value, token, now)
    && d == NewRow(s.db.nextId, RowOf(s, token).value.scheduleId, next, at)
  }

  lemma NewRowMade(limits: Limits, s: Sys, op: Op, s': Sys, id: Id)
    requires Keyed(s) && Makes(limits, s, op, s') && id !in s.db.deliveries && id in s'.db.deliveries
    ensures RowFrom(s, op, s'.db.deliveries[id])
  {
  }

  lemma NewRowFrom(limits: Limits, s: Sys, op: Op, id: Id)
    requires Inv(limits, s) && Allowed(op) && id !in s.db.deliveries && id in Apply(limits, s, op).db.deliveries
    ensures RowFrom(s, op, Apply(limits, s, op).db.deliveries[id])
  {
    InvKeyed(limits, s);
    ApplyMakes(limits, s, op);
    NewRowMade(limits, s, op, Apply(limits, s, op), id);
  }

  // -------------------------------------- one schedule, under any operation

  /** What an operation may make of a schedule: nothing, or exactly this. */
  ghost predicate ScheduleStep(s: Sys, op: Op, sid: Id, x: Schedule, x': Schedule) {
    x' == x || (x.status == Active && match op
      case Edit(spaceId, edited, f, next, now) =>
        edited == sid && MayEdit(s.db, spaceId, sid, next) && x' == EditedTo(x, f, next.value, now)
      case Terminate(_, ended, member, now) => ended == sid && x' == TerminatedBy(x, member, now)
      case Retry(token, _, _, now) =>
        RowOf(s, token).Some? && RowOf(s, token).value.scheduleId == sid && x' == x.(updatedAt := now)
      case Finish(token, status, next, _, now) =>
        && RowOf(s, token).Some? && RowOf(s, token).value.scheduleId == sid && Live(RowOf(s, token).value, token, now)
        && x' == After(x, next, FinalStatus(status), now)
      case Dispatch(token, now, targetValid, reply, commitOk) =>
        && RowOf(s, token).Some? && RowOf(s, token).value.scheduleId == sid
        && Asks(s, token, now, targetValid) && SendCommits(RowOf(s, token).value, s.db, reply, commitOk)
        && x' == After(x, NextOf(reply), ScheduleSent, reply.at)
      case _ => false)
  }

  lemma ScheduleMade(limits: Limits, s: Sys, op: Op, s': Sys, sid: Id)
    requires Keyed(s) && Makes(limits, s, op, s') && sid in s.db.schedules && s.db.nextId !in s.db.schedules
    ensures sid in s'.db.schedules && ScheduleStep(s, op, sid, s.db.schedules[sid], s'.db.schedules[sid])
  {
  }
}
