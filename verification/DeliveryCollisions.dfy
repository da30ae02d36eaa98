/** When the insert of a next occurrence can meet a row that is already there: only after an edit has
    moved a schedule back in time. */
module DeliveryCollisions {
  import opened Options
  import opened ScheduledMessages
  import opened DeliveryProtocol
  import opened DeliveryRuns
  import opened DeliveryAccepts

  /** No row of an active schedule is later than its pending one. */
  ghost predicate LatestPends(db: Db) {
    forall id :: id in db.deliveries && IsActive(db, db.deliveries[id].scheduleId) ==> NotAfterNext(db, id)
  }

  predicate NotAfterNext(db: Db, id: Id)
    requires id in db.deliveries && IsActive(db, db.deliveries[id].scheduleId)
  {
    var next := db.schedules[db.deliveries[id].scheduleId].nextScheduledAt;
    next.Some? && db.deliveries[id].scheduledAt <= next.value
  }

  predicate LaterThan(s: Sys, token: Id, next: NewDelivery) {
    token in s.workers && s.workers[token].copy.id in s.db.deliveries ==>
      next.scheduledAt > s.db.deliveries[s.workers[token].copy.id].scheduledAt
  }

  /** The step names no earlier instant: the next occurrence is after the present one, as a recurrence
      after the present instant is, and an edit does not move the schedule back. */
  predicate NeverBack(s: Sys, op: Op) {
    match op
    case Edit(_, sid, _, Some(next), _) =>
      IsActive(s.db, sid) && s.db.schedules[sid].nextScheduledAt.Some? ==>
        s.db.schedules[sid].nextScheduledAt.value <= next.scheduledAt
    case Finish(token, _, Some(next), _, _) => LaterThan(s, token, next)
    case Dispatch(token, _, _, Accepted(_, NextRow(next)), _) => LaterThan(s, token, next)
    case _ => true
  }

  ghost predicate NeverBackIn(limits: Limits, s: Sys, ops: seq<Op>) {
    forall i :: 0 <= i < |ops| ==> NeverBack(Run(limits, s, ops[..i]), ops[i])
  }

  // ------------------------------------------------------ how steps keep it

  /** No row appears, and what stays active keeps its next time. */
  lemma CarriesLatest(db: Db, db': Db)
    requires LatestPends(db)
    requires forall id :: id in db'.deliveries ==>
      id in db.deliveries && SameOccurrence(db'.deliveries[id], db.deliveries[id])
    requires forall sid :: IsActive(db', sid) ==>
      IsActive(db, sid) && db'.schedules[sid].nextScheduledAt == db.schedules[sid].nextScheduledAt
    ensures LatestPends(db')
  {
    forall id | id in db'.deliveries && IsActive(db', db'.deliveries[id].scheduleId) ensures NotAfterNext(db', id) {
      assert NotAfterNext(db, id);
    }
  }

  lemma InsertLatest(db: Db, db': Db, sid: Id, schedule: Schedule, row: Delivery)
    requires RowsOk(db) && LatestPends(db) && Inserts(db, db', sid, schedule, row)
    ensures LatestPends(db')
  {
    forall id | id in db'.deliveries && IsActive(db', db'.deliveries[id].scheduleId) ensures NotAfterNext(db', id) {
      if id in db.deliveries && id != row.id {
        assert RowWellFormed(db, id);
        assert NotAfterNext(db, id);
      }
    }
  }

  lemma EditLatest(db: Db, db': Db, sid: Id, schedule: Schedule, existing: Option<Id>, next: NewDelivery, now: Time)
    requires RowsOk(db) && LatestPends(db) && Edits(db, db', sid, schedule, existing, next, now)
    requires db.schedules[sid].nextScheduledAt.Some? ==> db.schedules[sid].nextScheduledAt.value <= next.scheduledAt
    ensures LatestPends(db')
  {
    EditTouches(db, db', sid, schedule, existing, next, now);
    forall id | id in db'.deliveries && IsActive(db', db'.deliveries[id].scheduleId) ensures NotAfterNext(db', id) {
      if id in db.deliveries { assert IsActive(db, db.deliveries[id].scheduleId) && NotAfterNext(db, id); }
    }
  }

  lemma CloseLatest(db: Db, db': Db, id: Id, row: Delivery, schedule: Schedule, next: Option<Delivery>)
    requires RowsOk(db) && SchedulesConsistent(db) && LatestPends(db) && Closes(db, db', id, row, schedule, next)
    requires next.Some? ==> next.value.scheduledAt > row.scheduledAt
    ensures LatestPends(db')
  {
    assert RowWellFormed(db, id) && ScheduleConsistent(db, row.scheduleId) && PendingOf(db, row.scheduleId, id);
    forall x | x in db'.deliveries && IsActive(db', db'.deliveries[x].scheduleId) ensures NotAfterNext(db', x) {
      if x in db.deliveries {
        assert RowWellFormed(db, x);
        assert NotAfterNext(db, x);
      }
    }
  }

  /** The instant after the pending one is free. */
  lemma NextIsFree(db: Db, id: Id, at: Time)
    requires RowsOk(db) && SchedulesConsistent(db) && LatestPends(db)
    requires IsPending(db, id) && IsActive(db, db.deliveries[id].scheduleId) && at > db.deliveries[id].scheduledAt
    ensures !Occupied(db, db.deliveries[id].scheduleId, at)
  {
    var sid := db.deliveries[id].scheduleId;
    assert ScheduleConsistent(db, sid) && PendingOf(db, sid, id);
    forall x ensures !Occupies(db, sid, at, x) {
      assert x in db.deliveries && db.deliveries[x].scheduleId == sid ==> NotAfterNext(db, x);
    }
  }

  lemma UserStepsKeep(limits: Limits, s: Sys, op: Op)
    requires Inv(limits, s) && Allowed(op) && LatestPends(s.db) && NeverBack(s, op)
    requires op.SetSpace? || op.Create? || op.Edit? || op.Terminate?
    ensures LatestPends(Apply(limits, s, op).db)
  {
    var db, db' := s.db, Apply(limits, s, op).db;
    match op
    case Create(d, now) =>
      if d.firstAt == d.schedule.startAt {
        InsertLatest(db, db', db.nextId, DraftSchedule(d, now), DraftFirst(db, d, db.nextId, now));
      }
    case Edit(spaceId, sid, f, next, now) =>
      if UpdateActiveTx(db, spaceId, sid, f, next, now).outcome == Done {
        assert db.nextId in db.deliveries ==> RowWellFormed(db, db.nextId);
        EditIsEdit(db, spaceId, sid, f, next.value, now);
        EditLatest(db, db', sid, db'.schedules[sid], RowAt(db, sid, next.value.scheduledAt), next.value, now);
      }
    case _ => CarriesLatest(db, db');
  }

  /** Touching one live row moves no instant. */
  lemma TouchLatest(limits: Limits, db: Db, db': Db, id: Id, row: Delivery, schedule: Schedule)
    requires LatestPends(db) && Touches(limits, db, db', id, row, schedule)
    ensures LatestPends(db')
  {
    forall x | x in db'.deliveries && IsActive(db', db'.deliveries[x].scheduleId) ensures NotAfterNext(db', x) {
      assert NotAfterNext(db, x);
    }
  }

  lemma ClaimKeepsLatest(limits: Limits, s: Sys, id: Id, now: Time, until: Time)
    requires Inv(limits, s) && LatestPends(s.db)
    ensures LatestPends(ClaimStep(s, id, now, until).db)
  {
    var tx := ClaimTx(s.db, id, now, until);
    if tx.outcome == Done {
      assert RowWellFormed(s.db, id);
      var row := ClaimedRow(s.db, id, now, until);
      TouchLatest(limits, s.db, tx.db, id, row, s.db.schedules[row.scheduleId]);
    }
  }

  lemma ReserveKeepsLatest(limits: Limits, s: Sys, token: Id, c: Counter, now: Time)
    requires Inv(limits, s) && LatestPends(s.db)
    ensures LatestPends(ReserveStep(limits, s, token, c, now).db)
  {
    if token in s.workers {
      var w, db := s.workers[token], s.db;
      assert WorkerOk(db, token, w);
      var tx := ReserveTx(db, w.copy, now, Max(limits, c), c);
      if tx.outcome == Done {
        ReserveTouches(limits, db, token, w, c, now);
        var row := db.deliveries[w.copy.id];
        TouchLatest(limits, db, tx.db, w.copy.id, Reserved(row, c, now), db.schedules[row.scheduleId]);
      }
    }
  }

  lemma PersistKeepsLatest(limits: Limits, s: Sys, token: Id, content: Text, now: Time)
    requires Inv(limits, s) && LatestPends(s.db)
    ensures LatestPends(PersistStep(s, token, content, now).db)
  {
    if token in s.workers && PersistTx(s.db, s.workers[token].copy, content, now).outcome == Done {
      var w := s.workers[token];
      var row := s.db.deliveries[w.copy.id];
      assert WorkerOk(s.db, token, w) && RowWellFormed(s.db, w.copy.id);
      TouchLatest(limits, s.db, PersistTx(s.db, w.copy, content, now).db, w.copy.id,
        row.(content := Some(content), updatedAt := now), s.db.schedules[row.scheduleId]);
    }
  }

  lemma RetryKeepsLatest(limits: Limits, s: Sys, token: Id, nextAttempt: Time, category: Text, now: Time)
    requires Inv(limits, s) && LatestPends(s.db)
    ensures LatestPends(RetryStep(s, token, nextAttempt, category, now).db)
  {
    if token in s.workers && s.workers[token].schedule.Some? {
      var w, db := s.workers[token], s.db;
      assert WorkerOk(db, token, w);
      var copy := RetryCopy(w, nextAttempt, category, now);
      var tx := RetryTx(db, copy, w.schedule.value.(updatedAt := now));
      if tx.outcome == Done {
        RetryTouches(limits, db, token, w, nextAttempt, category, now);
        TouchLatest(limits, db, tx.db, copy.id, RetriedRow(db.deliveries[copy.id], copy),
          tx.db.schedules[db.deliveries[copy.id].scheduleId]);
      }
    }
  }

  lemma FinishLatest(db: Db, token: Id, w: Worker, status: DeliveryStatus, next: Option<NewDelivery>, category: Text,
      now: Time)
    requires RowsOk(db) && SchedulesConsistent(db) && LatestPends(db) && WorkerOk(db, token, w) && w.schedule.Some?
    requires Allowed(Finish(token, status, next, category, now))
    requires next.Some? ==> next.value.scheduledAt > db.deliveries[w.copy.id].scheduledAt
    ensures LatestPends(FinalizeTx(db, FinishCopy(w, status, category, now),
      FinishSchedule(w.schedule.value, status, next, now), next).db)
  {
    var copy := FinishCopy(w, status, category, now);
    var tx := FinalizeTx(db, copy, FinishSchedule(w.schedule.value, status, next, now), next);
    if tx.outcome == Done {
      FinishCloses(db, token, w, status, next, category, now);
      var inserted := if next.Some? then Some(Fresh(db, copy.scheduleId, next.value, now)) else None;
      CloseLatest(db, tx.db, copy.id, FinalRow(db.deliveries[copy.id], copy),
        tx.db.schedules[db.deliveries[copy.id].scheduleId], inserted);
    }
  }

  lemma FinishKeepsLatest(limits: Limits, s: Sys, op: Op)
    requires Inv(limits, s) && Allowed(op) && LatestPends(s.db) && NeverBack(s, op) && op.Finish?
    ensures LatestPends(Apply(limits, s, op).db)
  {
    if op.token in s.workers && s.workers[op.token].schedule.Some? {
      assert WorkerOk(s.db, op.token, s.workers[op.token]);
      FinishLatest(s.db, op.token, s.workers[op.token], op.status, op.next, op.category, op.now);
    }
  }

  lemma DispatchLatest(db: Db, id: Id, token: Id, now: Time, targetValid: bool, reply: Reply, commitOk: bool)
    requires RowsOk(db) && SchedulesConsistent(db) && LatestPends(db) && id in db.deliveries
    requires reply.Accepted? && reply.plan.NextRow? ==> reply.plan.row.scheduledAt > db.deliveries[id].scheduledAt
    ensures LatestPends(DispatchTx(db, id, token, now, targetValid, reply, commitOk).db)
  {
    var d := DispatchTx(db, id, token, now, targetValid, reply, commitOk);
    if d.outcome == Done {
      DispatchCloses(db, id, token, now, targetValid, reply, commitOk);
      var sid := db.deliveries[id].scheduleId;
      var inserted := if reply.plan.NextRow? then Some(Fresh(db, sid, reply.plan.row, reply.at)) else None;
      CloseLatest(db, d.db, id, SentRow(db.deliveries[id], reply.at), d.db.schedules[sid], inserted);
    }
  }

  lemma DispatchKeepsLatest(limits: Limits, s: Sys, op: Op)
    requires Inv(limits, s) && LatestPends(s.db) && NeverBack(s, op) && op.Dispatch?
    ensures LatestPends(Apply(limits, s, op).db)
  {
    if op.token in s.workers && s.workers[op.token].ticket.Some? {
      assert WorkerOk(s.db, op.token, s.workers[op.token]);
      DispatchLatest(s.db, s.workers[op.token].copy.id, op.token, op.now, op.targetValid, op.reply, op.commitOk);
    }
  }

  lemma StepKeepsLatest(limits: Limits, s: Sys, op: Op)
    requires Inv(limits, s) && Allowed(op) && LatestPends(s.db) && NeverBack(s, op)
    ensures LatestPends(Apply(limits, s, op).db)
  {
    match op
    case Claim(id, now, until) => ClaimKeepsLatest(limits, s, id, now, until);
    case Load(_, _) =>
    case Leave(_) =>
    case Reserve(token, c, now) => ReserveKeepsLatest(limits, s, token, c, now);
    case Persist(token, content, now) => PersistKeepsLatest(limits, s, token, content, now);
    case Retry(token, nextAttempt, category, now) => RetryKeepsLatest(limits, s, token, nextAttempt, category, now);
    case Finish(_, _, _, _, _) => FinishKeepsLatest(limits, s, op);
    case Dispatch(_, _, _, _, _) => DispatchKeepsLatest(limits, s, op);
    case _ => UserStepsKeep(limits, s, op);
  }

  lemma {:induction false} RunKeepsLatest(limits: Limits, s: Sys, ops: seq<Op>)
    requires Inv(limits, s) && AllAllowed(ops) && LatestPends(s.db) && NeverBackIn(limits, s, ops)
    ensures LatestPends(Run(limits, s, ops).db)
  {
    if ops != [] {
      var front := ops[..|ops| - 1];
      assert forall i :: 0 <= i < |front| ==> front[..i] == ops[..i] && front[i] == ops[i];
      RunKeepsLatest(limits, s, front);
      RunKeeps(limits, s, front);
      StepKeepsLatest(limits, Run(limits, s, front), ops[|ops| - 1]);
    }
  }

  lemma NoCollision(limits: Limits, s: Sys, op: Op)
    requires Inv(limits, s) && LatestPends(s.db) && NeverBack(s, op) && Uncertain(s, op)
    ensures
      var row := s.db.deliveries[s.workers[op.token].copy.id];
      op.reply.plan.PlanError? || !op.commitOk || row.leaseUntil.None? || row.leaseUntil.value <= op.reply.at
  {
    var id := s.workers[op.token].copy.id;
    if op.reply.plan.NextRow? { NextIsFree(s.db, id, op.reply.plan.row.scheduledAt); }
  }

  /** As long as no edit moves a schedule back, the insert of a next occurrence never collides: an
      accepted send can only fail to commit because the plan failed, the lease ran out or the
      database did. */
  lemma CollisionsNeedAnEditBack(limits: Limits, spaces: map<Id, bool>, ops: seq<Op>, op: Op)
    requires AllAllowed(ops) && NeverBackIn(limits, Start(spaces), ops)
    requires NeverBack(Run(limits, Start(spaces), ops), op) && Uncertain(Run(limits, Start(spaces), ops), op)
    ensures
      var s := Run(limits, Start(spaces), ops);
      var row := s.db.deliveries[s.workers[op.token].copy.id];
      op.reply.plan.PlanError? || !op.commitOk || row.leaseUntil.None? || row.leaseUntil.value <= op.reply.at
  {
    var s := Run(limits, Start(spaces), ops);
    ReachableOk(limits, spaces, ops);
    RunKeepsLatest(limits, Start(spaces), ops);
    NoCollision(limits, s, op);
  }

  /** Nothing but a collision can keep an accepted send from committing: the plan and the database
      work, and the sender answers within the lease. */
  predicate Reliable(s: Sys, op: Op) {
    op.Dispatch? && op.reply.Accepted? && op.token in s.workers && s.workers[op.token].copy.id in s.db.deliveries ==>
      var until := s.db.deliveries[s.workers[op.token].copy.id].leaseUntil;
      op.commitOk && !op.reply.plan.PlanError? && (until.Some? ==> op.reply.at < until.value)
  }

  ghost predicate ReliableIn(limits: Limits, s: Sys, ops: seq<Op>) {
    forall i :: 0 <= i < |ops| ==> Reliable(Run(limits, s, ops[..i]), ops[i])
  }

  lemma ReliableCommits(limits: Limits, s: Sys, op: Op)
    requires Inv(limits, s) && LatestPends(s.db) && NeverBack(s, op) && Reliable(s, op)
    ensures !Uncertain(s, op)
  {
    if Uncertain(s, op) {
      assert WorkerOk(s.db, op.token, s.workers[op.token]);
      NoCollision(limits, s, op);
    }
  }

  /** So with a reliable database and sender, a (schedule, instant) is accepted at most once in every
      run in which no edit moves a schedule back. */
  lemma OnceUnlessEditedBack(limits: Limits, spaces: map<Id, bool>, ops: seq<Op>, a: (Id, int), b: (Id, int))
    requires AllAllowed(ops) && NeverBackIn(limits, Start(spaces), ops) && ReliableIn(limits, Start(spaces), ops)
    requires a in Run(limits, Start(spaces), ops).accepted && b in Run(limits, Start(spaces), ops).accepted
    ensures var db := Run(limits, Start(spaces), ops).db;
      && a.0 in db.deliveries && b.0 in db.deliveries
      && (SameOccurrence(db.deliveries[a.0], db.deliveries[b.0]) ==> a == b)
  {
    var s := Start(spaces);
    forall i | 0 <= i < |ops| ensures !Uncertain(Run(limits, s, ops[..i]), ops[i]) {
      assert forall j :: 0 <= j < i ==> ops[..i][..j] == ops[..j] && ops[..i][j] == ops[j];
      ReachableOk(limits, spaces, ops[..i]);
      RunKeepsLatest(limits, s, ops[..i]);
      ReliableCommits(limits, Run(limits, s, ops[..i]), ops[i]);
    }
    AcceptedAtMostOnce(limits, spaces, ops, a, b);
  }
}
