/** Why a call is refused: the error tells the scheduler whether another worker has the row, the target
    is gone, the attempts are used up, the sender failed, or the outcome of the send is uncertain. */
module DeliveryRefusals {
  import opened Options
  import opened ScheduledMessages
  import opened DeliveryProtocol
  import opened DeliverySteps

  /** A user's write meets no conflict if and only if it finds what it asks for. */
  lemma UserRefusals(db: Db, d: Draft, spaceId: Id, sid: Id, f: UpdateFields, next: Option<NewDelivery>,
      member: Option<Id>, at: Time)
    requires OccurrencesUnique(db)
    ensures CreateTx(db, d, at).outcome == if d.firstAt == d.schedule.startAt then Done else Rejected(Conflict)
    ensures UpdateActiveTx(db, spaceId, sid, f, next, at).outcome ==
      if MayEdit(db, spaceId, sid, next) then Done else Rejected(Conflict)
    ensures TerminalTx(db, spaceId, sid, member, at).outcome ==
      if Runs(db, sid) && db.schedules[sid].spaceId == spaceId then Done else Rejected(Conflict)
  {
    EditGoes(db, spaceId, sid, f, next, at);
  }

  lemma ClaimRefusal(db: Db, id: Id, now: Time, until: Time)
    requires RowsOk(db)
    ensures ClaimTx(db, id, now, until).outcome == if Claimable(db, id, now) then Done else Rejected(ClaimConflict)
  {
    assert id in db.deliveries ==> RowWellFormed(db, id);
  }

  /** A copy without a lease can write nothing. */
  lemma NoLeaseRefusal(db: Db, copy: Delivery, content: Text, schedule: Schedule, next: Option<NewDelivery>, at: Time,
      max: int, c: Counter)
    requires copy.leaseToken == None || copy.leaseUntil == None
    ensures ReserveTx(db, copy, at, max, c) == Tx(db, Rejected(ClaimConflict)) == PersistTx(db, copy, content, at)
    ensures RetryTx(db, copy, schedule) == Tx(db, Rejected(ClaimConflict)) == FinalizeTx(db, copy, schedule, next)
  {
  }

  /** A reservation is refused because the attempts are used up, or else because the row is not the
      worker's any more. */
  lemma ReserveRefusal(limits: Limits, s: Sys, token: Id, c: Counter, now: Time)
    requires InStep(limits, s, token)
    ensures RowOf(s, token).Some?
    ensures ReserveTx(s.db, s.workers[token].copy, now, Max(limits, c), c).outcome ==
      if AtWork(s, token, now) && AttemptsLeft(limits, RowOf(s, token).value, c) then Done
      else if Max(limits, c) == 0 || AtWork(s, token, now) then Rejected(AttemptLimitReached)
      else Rejected(ClaimConflict)
  {
  }

  lemma PersistAndRetryRefusal(limits: Limits, s: Sys, token: Id, content: Text, nextAttempt: Time, category: Text,
      now: Time)
    requires InStep(limits, s, token) && s.workers[token].schedule.Some?
    ensures PersistTx(s.db, s.workers[token].copy, content, now).outcome ==
      if AtWork(s, token, now) then Done else Rejected(ClaimConflict)
    ensures var w := s.workers[token];
      RetryTx(s.db, RetryCopy(w, nextAttempt, category, now), w.schedule.value.(updatedAt := now)).outcome ==
        if AtWork(s, token, now) then Done else Rejected(ClaimConflict)
  {
  }

  /** The space of the worker's row is gone. */
  predicate SpaceGone(s: Sys, token: Id) {
    && RowOf(s, token).Some? && RowOf(s, token).value.scheduleId in s.db.schedules
    && s.db.schedules[RowOf(s, token).value.scheduleId].spaceId !in s.db.spaces
  }

  /** The worker's row is live, of an active schedule. */
  predicate Holding(s: Sys, token: Id, now: Time) {
    && RowOf(s, token).Some? && Live(RowOf(s, token).value, token, now)
    && RowOf(s, token).value.scheduleId in s.db.schedules
    && s.db.schedules[RowOf(s, token).value.scheduleId].status == Active
  }

  /** A cancellation finds an invalid target if and only if the space is gone; a next occurrence on an
      occupied instant is a database error; anything else that is refused is a lost claim. */
  lemma FinishRefusal(limits: Limits, s: Sys, token: Id, status: DeliveryStatus, next: Option<NewDelivery>,
      category: Text, now: Time)
    requires InStep(limits, s, token) && s.workers[token].schedule.Some?
    requires Allowed(Finish(token, status, next, category, now))
    ensures
      var w := s.workers[token];
      FinalizeTx(s.db, FinishCopy(w, status, category, now), FinishSchedule(w.schedule.value, status, next, now),
        next).outcome ==
      if Finishes(s, token, status, next, now) then Done
      else if Holding(s, token, now) && status == Cancelled && SpaceGone(s, token) then Rejected(InvalidTarget)
      else if AtWork(s, token, now) && status != Cancelled then Rejected(DatabaseError)
      else Rejected(ClaimConflict)
  {
    FinishGoes(limits, s, token, status, next, category, now);
    var sid := s.workers[token].copy.scheduleId;
    assert IsPending(s.db, s.workers[token].copy.id) ==> PendingOf(s.db, sid, s.workers[token].copy.id);
  }

  /** A dispatch loses its claim, finds its target invalid, is refused by the sender, or has been
      accepted in a transaction that does not commit. */
  lemma DispatchRefusal(limits: Limits, s: Sys, token: Id, now: Time, targetValid: bool, reply: Reply, commitOk: bool)
    requires InStep(limits, s, token) && s.workers[token].ticket.Some?
    ensures RowOf(s, token).Some?
    ensures DispatchTx(s.db, s.workers[token].copy.id, token, now, targetValid, reply, commitOk).outcome ==
      if !Holding(s, token, now) then Rejected(ClaimConflict)
      else if !AtWork(s, token, now) || !targetValid then Rejected(InvalidTarget)
      else if reply == Refused then Rejected(SendFailed)
      else if SendCommits(RowOf(s, token).value, s.db, reply, commitOk) then Done
      else Rejected(DatabaseError)
  {
    DispatchGoes(limits, s, token, now, targetValid, reply, commitOk);
    var sid := s.workers[token].copy.scheduleId;
    assert IsPending(s.db, s.workers[token].copy.id) ==> PendingOf(s.db, sid, s.workers[token].copy.id);
  }
}
