/** Whole runs of the scheduled-message protocol: users, workers and the environment take turns,
    one transaction at a time, in any order. A worker is known by the token of its claim and holds
    the copies of the rows that it works on. */
module DeliveryProtocol {
  import opened Options
  import opened ScheduledMessages

  /** What a worker holds: its copy of the delivery, the schedule it loaded, and the number of the
      delivery attempt that it reserved and has not used yet. */
  datatype Worker = Worker(copy: Delivery, schedule: Option<Schedule>, ticket: Option<int>)

  /** accepted: the (delivery, attempt number) pairs for which the sender accepted a message. */
  datatype Sys = Sys(db: Db, workers: map<Id, Worker>, accepted: set<(Id, int)>)

  /** The fixed maxima that every worker passes when it reserves an attempt. */
  datatype Limits = Limits(generation: nat, dispatching: nat)

  datatype Op =
    | SetSpace(spaceId: Id, active: Option<bool>)
    | Create(draft: Draft, now: Time)
    | Edit(spaceId: Id, sid: Id, fields: UpdateFields, next: Option<NewDelivery>, now: Time)
    | Terminate(spaceId: Id, sid: Id, member: Option<Id>, now: Time)
    | Claim(id: Id, now: Time, until: Time)
    | Load(token: Id, now: Time)
    | Reserve(token: Id, counter: Counter, now: Time)
    | Persist(token: Id, content: Text, now: Time)
    | Retry(token: Id, nextAttempt: Time, category: Text, now: Time)
    | Finish(token: Id, status: DeliveryStatus, next: Option<NewDelivery>, category: Text, now: Time)
    | Dispatch(token: Id, now: Time, targetValid: bool, reply: Reply, commitOk: bool)
    | Leave(token: Id)

  /** What the service guarantees about the calls it makes. */
  predicate Allowed(op: Op) {
    match op
    case Create(d, _) =>
      && (d.status.None? || d.status.value.Active?)
      && (d.firstStatus.None? || d.firstStatus.value.Pending?)
      && (d.schedule.nextScheduledAt.None? || d.schedule.nextScheduledAt.value == d.schedule.startAt)
    case Finish(_, status, next, _, _) =>
      && (status.Skipped? || status.Failed? || status.Cancelled?)
      && (status.Skipped? ==> next.Some?) && (status.Cancelled? ==> next.None?)
    case _ => true
  }

  function PutWorker(s: Sys, token: Id, w: Worker): Sys { s.(workers := s.workers[token := w]) }

  function Drop(s: Sys, token: Id): Sys { s.(workers := s.workers - {token}) }

  function WithSpace(db: Db, spaceId: Id, active: Option<bool>): Db {
    db.(spaces := if active.Some? then db.spaces[spaceId := active.value] else db.spaces - {spaceId})
  }

  function ClaimStep(s: Sys, id: Id, now: Time, until: Time): Sys {
    var tx := ClaimTx(s.db, id, now, until);
    if tx.outcome != Done then s
    else PutWorker(s.(db := tx.db), s.db.nextId, Worker(tx.db.deliveries[id], None, None))
  }

  /** LoadClaimed refreshes both copies from the rows while the lease lives. */
  function LoadStep(s: Sys, token: Id, now: Time): Sys {
    if token !in s.workers then s
    else
      var w := s.workers[token];
      if !Leased(s.db, w.copy.id, token, now) || !IsActive(s.db, s.db.deliveries[w.copy.id].scheduleId) then s
      else
        var row := s.db.deliveries[w.copy.id];
        PutWorker(s, token, w.(copy := row, schedule := Some(s.db.schedules[row.scheduleId])))
  }

  function Max(limits: Limits, c: Counter): int { if c.Generation? then limits.generation else limits.dispatching }

  function ReserveStep(limits: Limits, s: Sys, token: Id, c: Counter, now: Time): Sys {
    if token !in s.workers then s
    else
      var w := s.workers[token];
      var tx := ReserveTx(s.db, w.copy, now, Max(limits, c), c);
      if tx.outcome != Done then s
      else
        var copy := Reserved(w.copy, c, now);
        var ticket := if c.Generation? then w.ticket else Some(copy.deliveryAttempts);
        PutWorker(s.(db := tx.db), token, w.(copy := copy, ticket := ticket))
  }

  function PersistStep(s: Sys, token: Id, content: Text, now: Time): Sys {
    if token !in s.workers then s
    else
      var w := s.workers[token];
      var tx := PersistTx(s.db, w.copy, content, now);
      if tx.outcome != Done then s
      else PutWorker(s.(db := tx.db), token, w.(copy := w.copy.(content := Some(content), updatedAt := now)))
  }

  function RetryCopy(w: Worker, nextAttempt: Time, category: Text, now: Time): Delivery {
    w.copy.(status := Pending, nextAttemptAt := Some(nextAttempt), failure := Some(category), updatedAt := now)
  }

  /** retryOrFinish, first half: give the row back for a later attempt; the worker is done. */
  function RetryStep(s: Sys, token: Id, nextAttempt: Time, category: Text, now: Time): Sys {
    if token !in s.workers || s.workers[token].schedule.None? then s
    else
      var w := s.workers[token];
      var tx := RetryTx(s.db, RetryCopy(w, nextAttempt, category, now), w.schedule.value.(updatedAt := now));
      Drop(s.(db := tx.db), token)
  }

  function FinishCopy(w: Worker, status: DeliveryStatus, category: Text, now: Time): Delivery {
    w.copy.(status := status, failure := Some(category), nextAttemptAt := None, updatedAt := now)
  }

  function FinishSchedule(schedule: Schedule, status: DeliveryStatus, next: Option<NewDelivery>, now: Time): Schedule {
    if next.Some? then schedule.(status := Active, nextScheduledAt := Some(next.value.scheduledAt), updatedAt := now)
    else
      schedule.(status := if status.Cancelled? then ScheduleCancelled else ScheduleFailed,
                nextScheduledAt := None, updatedAt := now)
  }

  /** finishDeliveryFailure, finishGenerationFailure and cancelInvalidTarget. */
  ghost function FinishStep(
    s: Sys, token: Id, status: DeliveryStatus, next: Option<NewDelivery>, category: Text, now: Time): Sys
  {
    if token !in s.workers || s.workers[token].schedule.None? then s
    else
      var w := s.workers[token];
      var tx := FinalizeTx(s.db, FinishCopy(w, status, category, now),
        FinishSchedule(w.schedule.value, status, next, now), next);
      Drop(s.(db := tx.db), token)
  }

  /** dispatch: one reserved attempt pays for one call of DispatchAndFinalize. */
  ghost function DispatchStep(s: Sys, token: Id, now: Time, targetValid: bool, reply: Reply, commitOk: bool): Sys {
    if token !in s.workers || s.workers[token].ticket.None? then s
    else
      var w := s.workers[token];
      var d := DispatchTx(s.db, w.copy.id, token, now, targetValid, reply, commitOk);
      var accepted := if d.accepted then s.accepted + {(w.copy.id, w.ticket.value)} else s.accepted;
      PutWorker(Sys(d.db, s.workers, accepted), token, w.(ticket := None))
  }

  ghost function Apply(limits: Limits, s: Sys, op: Op): Sys {
    match op
    case SetSpace(spaceId, active) => s.(db := WithSpace(s.db, spaceId, active))
    case Create(draft, now) => s.(db := CreateTx(s.db, draft, now).db)
    case Edit(spaceId, sid, fields, next, now) => s.(db := UpdateActiveTx(s.db, spaceId, sid, fields, next, now).db)
    case Terminate(spaceId, sid, member, now) => s.(db := TerminalTx(s.db, spaceId, sid, member, now).db)
    case Claim(id, now, until) => ClaimStep(s, id, now, until)
    case Load(token, now) => LoadStep(s, token, now)
    case Reserve(token, c, now) => ReserveStep(limits, s, token, c, now)
    case Persist(token, content, now) => PersistStep(s, token, content, now)
    case Retry(token, nextAttempt, category, now) => RetryStep(s, token, nextAttempt, category, now)
    case Finish(token, status, next, category, now) => FinishStep(s, token, status, next, category, now)
    case Dispatch(token, now, targetValid, reply, commitOk) => DispatchStep(s, token, now, targetValid, reply, commitOk)
    case Leave(token) => Drop(s, token)
  }

  ghost function Run(limits: Limits, s: Sys, ops: seq<Op>): Sys {
    if ops == [] then s else Apply(limits, Run(limits, s, ops[..|ops| - 1]), ops[|ops| - 1])
  }

  ghost predicate AllAllowed(ops: seq<Op>) { forall i :: 0 <= i < |ops| ==> Allowed(ops[i]) }

  function Start(spaces: map<Id, bool>): Sys { Sys(Db(spaces, map[], map[], 0), map[], {}) }

  // ---------------------------------------------------------- invariant

  predicate RowWellFormed(db: Db, id: Id)
    requires id in db.deliveries
  {
    var d := db.deliveries[id];
    && d.id == id < db.nextId
    && d.scheduleId in db.schedules
    && (d.leaseToken.Some? <==> d.leaseUntil.Some?)
    && (d.leaseToken.Some? ==> d.status.Pending? && d.leaseToken.value < db.nextId)
    && (d.sentAt.Some? <==> d.status.Sent?)
    && (d.status.Pending? ==> d.nextAttemptAt.Some?)
  }

  ghost predicate RowsOk(db: Db) {
    && (forall id :: id in db.deliveries ==> RowWellFormed(db, id))
    && (forall sid :: sid in db.schedules ==> sid < db.nextId)
  }

  predicate SameOccurrence(d: Delivery, e: Delivery) { d.scheduleId == e.scheduleId && d.scheduledAt == e.scheduledAt }

  /** The unique index on (schedule, instant). */
  ghost predicate OccurrencesUnique(db: Db) {
    forall i, j | i in db.deliveries && j in db.deliveries ::
      SameOccurrence(db.deliveries[i], db.deliveries[j]) ==> i == j
  }

  ghost predicate TokensUnique(db: Db) {
    forall i, j | i in db.deliveries && j in db.deliveries ::
      db.deliveries[i].leaseToken.Some? && db.deliveries[i].leaseToken == db.deliveries[j].leaseToken ==> i == j
  }

  /** An active schedule has exactly one pending delivery and it is at next_scheduled_at; any other
      schedule has none and a null next time. */
  ghost predicate ScheduleConsistent(db: Db, sid: Id)
    requires sid in db.schedules
  {
    var s := db.schedules[sid];
    if s.status.Active? then
      && s.nextScheduledAt.Some?
      && (exists id :: PendingOf(db, sid, id) && db.deliveries[id].scheduledAt == s.nextScheduledAt.value)
      && (forall i, j :: PendingOf(db, sid, i) && PendingOf(db, sid, j) ==> i == j)
    else
      s.nextScheduledAt.None? && forall id :: !PendingOf(db, sid, id)
  }

  ghost predicate SchedulesConsistent(db: Db) {
    forall sid :: sid in db.schedules ==> ScheduleConsistent(db, sid)
  }

  ghost predicate AttemptsBounded(limits: Limits, db: Db) {
    forall id :: id in db.deliveries ==>
      && 0 <= db.deliveries[id].generationAttempts <= limits.generation
      && 0 <= db.deliveries[id].deliveryAttempts <= limits.dispatching
  }

  ghost predicate DbOk(limits: Limits, db: Db) {
    && RowsOk(db) && OccurrencesUnique(db) && TokensUnique(db)
    && SchedulesConsistent(db) && AttemptsBounded(limits, db)
  }

  /** The copies agree with the rows in everything that a later overwrite writes back. */
  predicate InSync(db: Db, w: Worker)
    requires w.copy.id in db.deliveries && db.deliveries[w.copy.id].scheduleId in db.schedules
  {
    var row := db.deliveries[w.copy.id];
    && w.copy.generationAttempts == row.generationAttempts
    && w.copy.deliveryAttempts == row.deliveryAttempts
    && w.copy.content == row.content
    && w.copy.leaseUntil == row.leaseUntil
    && (w.schedule.Some? ==> w.schedule.value == db.schedules[row.scheduleId])
  }

  predicate WorkerOk(db: Db, token: Id, w: Worker) {
    && token < db.nextId
    && w.copy.id in db.deliveries
    && db.deliveries[w.copy.id].scheduleId in db.schedules
    && w.copy.leaseToken == Some(token) && w.copy.leaseUntil.Some?
    && w.copy.scheduleId == db.deliveries[w.copy.id].scheduleId
    && w.copy.sentAt.None?
    && (db.deliveries[w.copy.id].leaseToken == Some(token) ==> InSync(db, w))
    && (w.ticket.Some? ==> 1 <= w.ticket.value <= db.deliveries[w.copy.id].deliveryAttempts)
  }

  ghost predicate WorkersOk(s: Sys) {
    && (forall k :: k in s.workers ==> WorkerOk(s.db, k, s.workers[k]))
    && (forall k, id | k in s.workers && id in s.db.deliveries ::
          s.db.deliveries[id].leaseToken == Some(k) ==> s.workers[k].copy.id == id)
  }

  /** Accepted sends and unused reservations are numbered differently, within the attempts made. */
  ghost predicate TicketsOk(s: Sys) {
    && (forall a :: a in s.accepted ==>
          a.0 in s.db.deliveries && 1 <= a.1 <= s.db.deliveries[a.0].deliveryAttempts)
    && (forall k :: k in s.workers && s.workers[k].ticket.Some? ==>
          (s.workers[k].copy.id, s.workers[k].ticket.value) !in s.accepted)
    && (forall k, l | k in s.workers && l in s.workers && k != l ::
          s.workers[k].copy.id == s.workers[l].copy.id && s.workers[k].ticket.Some? ==>
            s.workers[k].ticket != s.workers[l].ticket)
  }

  ghost predicate Inv(limits: Limits, s: Sys) {
    DbOk(limits, s.db) && WorkersOk(s) && TicketsOk(s)
  }

  // --------------------------------------------- how the database evolves

  predicate Finished(d: Delivery) { d.status.Sent? || d.status.Skipped? || d.status.Failed? }

  /** What may become of one delivery row: it keeps its identity, its attempts only grow, it is
      frozen once finished, and it carries no token but its own or a fresh one. */
  predicate RowEvolves(db: Db, d: Delivery, d': Delivery) {
    && d'.id == d.id && d'.scheduleId == d.scheduleId && d'.scheduledAt == d.scheduledAt
    && d.generationAttempts <= d'.generationAttempts
    && d.deliveryAttempts <= d'.deliveryAttempts
    && (Finished(d) ==> d' == d)
    && (d'.leaseToken.Some? ==> d'.leaseToken == d.leaseToken || d'.leaseToken.value >= db.nextId)
  }

  /** One transaction, or any number of them: rows are never deleted and evolve as above, and every
      schedule changes status only as CanTransitionStatus allows. */
  ghost predicate Evolves(db: Db, db': Db) {
    && db.nextId <= db'.nextId
    && (forall id :: id in db.deliveries ==>
          id in db'.deliveries && RowEvolves(db, db.deliveries[id], db'.deliveries[id]))
    && (forall id :: id in db'.deliveries && id !in db.deliveries ==>
          id >= db.nextId && (db'.deliveries[id].leaseToken.Some? ==> db'.deliveries[id].leaseToken.value >= db.nextId))
    && (forall sid :: sid in db.schedules ==>
          sid in db'.schedules && CanTransition(db.schedules[sid].status, db'.schedules[sid].status))
  }

  /** Row id keeps its lease, which is not the lease of the worker `except`. */
  predicate KeepsLease(db: Db, db': Db, except: Option<Id>, id: Id) {
    && id in db.deliveries && id in db'.deliveries && db'.deliveries[id].leaseToken != except
    && db'.deliveries[id].leaseToken.Some? && db'.deliveries[id].leaseToken == db.deliveries[id].leaseToken
  }

  predicate SameSchedule(db: Db, db': Db, sid: Id) {
    sid in db.schedules ==> sid in db'.schedules && db'.schedules[sid] == db.schedules[sid]
  }

  /** A row that keeps its lease keeps all that a worker's copy mirrors. */
  ghost predicate Undisturbed(db: Db, db': Db, except: Option<Id>) {
    forall id | KeepsLease(db, db', except, id) ::
      db'.deliveries[id] == db.deliveries[id] && SameSchedule(db, db', db.deliveries[id].scheduleId)
  }

  /** Only schedule sid and its deliveries may differ. */
  ghost predicate OnlyTouches(db: Db, db': Db, sid: Id) {
    && (forall id :: id in db.deliveries && db.deliveries[id].scheduleId != sid ==>
          id in db'.deliveries && db'.deliveries[id] == db.deliveries[id])
    && (forall id :: id in db'.deliveries && db'.deliveries[id].scheduleId != sid ==>
          id in db.deliveries && db'.deliveries[id] == db.deliveries[id])
    && (forall x :: x in db'.schedules && x != sid ==> x in db.schedules && db'.schedules[x] == db.schedules[x])
  }

  lemma SchedulesCarry(db: Db, db': Db, sid: Id)
    requires SchedulesConsistent(db) && OnlyTouches(db, db', sid)
    requires sid in db'.schedules ==> ScheduleConsistent(db', sid)
    ensures SchedulesConsistent(db')
  {
    forall x | x in db'.schedules ensures ScheduleConsistent(db', x) {
      if x != sid {
        assert ScheduleConsistent(db, x);
        assert forall id :: PendingOf(db', x, id) <==> PendingOf(db, x, id);
        if db.schedules[x].status.Active? {
          var id :| PendingOf(db, x, id) && db.deliveries[id].scheduledAt == db.schedules[x].nextScheduledAt.value;
          assert PendingOf(db', x, id);
        }
      }
    }
  }

  lemma OccurrencesCarry(db: Db, db': Db, sid: Id)
    requires OccurrencesUnique(db) && OnlyTouches(db, db', sid)
    requires forall i, j | i in db'.deliveries && j in db'.deliveries ::
      db'.deliveries[i].scheduleId == sid && SameOccurrence(db'.deliveries[i], db'.deliveries[j]) ==> i == j
    ensures OccurrencesUnique(db')
  {
  }

  predicate FreshToken(db: Db, d: Delivery) { d.leaseToken.Some? && d.leaseToken.value >= db.nextId }

  ghost predicate FreshTokensUnique(db: Db, db': Db) {
    forall i, j | i in db'.deliveries && j in db'.deliveries ::
      FreshToken(db, db'.deliveries[i]) && db'.deliveries[j].leaseToken == db'.deliveries[i].leaseToken ==> i == j
  }

  lemma TokensCarry(db: Db, db': Db)
    requires RowsOk(db) && TokensUnique(db) && Evolves(db, db')
    requires FreshTokensUnique(db, db')
    ensures TokensUnique(db')
  {
  }

  lemma EvolvesTransitive(a: Db, b: Db, c: Db)
    requires Evolves(a, b) && Evolves(b, c)
    ensures Evolves(a, c)
  {
  }

  /** Workers whose leases are not touched stay in step with the database. */
  lemma WorkersKept(s: Sys, db': Db, except: Option<Id>)
    requires WorkersOk(s) && TicketsOk(s)
    requires Evolves(s.db, db') && Undisturbed(s.db, db', except)
    requires forall id :: id in db'.deliveries ==> db'.deliveries[id].scheduleId in db'.schedules
    ensures forall k :: k in s.workers && Some(k) != except ==> WorkerOk(db', k, s.workers[k])
    ensures forall k, id | k in s.workers && id in db'.deliveries ::
      db'.deliveries[id].leaseToken == Some(k) ==> s.workers[k].copy.id == id
    ensures TicketsOk(s.(db := db'))
  {
    forall k | k in s.workers && Some(k) != except ensures WorkerOk(db', k, s.workers[k]) {
      WorkerKept(s.db, db', except, k, s.workers[k]);
    }
    forall k, id | k in s.workers && id in db'.deliveries && db'.deliveries[id].leaseToken == Some(k)
      ensures s.workers[k].copy.id == id
    {
      assert WorkerOk(s.db, k, s.workers[k]);
      assert id in s.db.deliveries && RowEvolves(s.db, s.db.deliveries[id], db'.deliveries[id]);
    }
    forall a | a in s.accepted ensures a.0 in db'.deliveries && 1 <= a.1 <= db'.deliveries[a.0].deliveryAttempts {
      assert RowEvolves(s.db, s.db.deliveries[a.0], db'.deliveries[a.0]);
    }
  }

  lemma WorkerKept(db: Db, db': Db, except: Option<Id>, k: Id, w: Worker)
    requires WorkerOk(db, k, w) && Some(k) != except
    requires Evolves(db, db') && Undisturbed(db, db', except)
    requires forall id :: id in db'.deliveries ==> db'.deliveries[id].scheduleId in db'.schedules
    ensures WorkerOk(db', k, w)
  {
  }

  /** All that a transaction owes to the runs. */
  ghost predicate GoodStep(limits: Limits, db: Db, db': Db, except: Option<Id>) {
    DbOk(limits, db') && Evolves(db, db') && Undisturbed(db, db', except)
  }

  /** A transaction on one schedule is good once its own rows are. */
  lemma Assemble(limits: Limits, db: Db, db': Db, sid: Id, except: Option<Id>)
    requires DbOk(limits, db) && RowsOk(db') && AttemptsBounded(limits, db')
    requires Evolves(db, db') && Undisturbed(db, db', except) && OnlyTouches(db, db', sid)
    requires OccurrencesUnique(db') && FreshTokensUnique(db, db')
    requires sid in db'.schedules ==> ScheduleConsistent(db', sid)
    ensures GoodStep(limits, db, db', except)
  {
    SchedulesCarry(db, db', sid);
    TokensCarry(db, db');
  }

  // --------------------------------------------- creating a schedule

  ghost predicate Inserts(db: Db, db': Db, sid: Id, schedule: Schedule, row: Delivery) {
    && sid == db.nextId && row.id == sid + 1 && db'.nextId == sid + 2
    && db'.schedules == db.schedules[sid := schedule]
    && db'.deliveries == db.deliveries[row.id := row]
    && schedule.status.Active? && schedule.nextScheduledAt == Some(row.scheduledAt)
    && row.scheduleId == sid && row.status.Pending? && row.leaseToken.None? && row.leaseUntil.None?
    && row.generationAttempts == 0 == row.deliveryAttempts && row.sentAt.None? && row.nextAttemptAt.Some?
  }

  lemma InsertRows(limits: Limits, db: Db, db': Db, sid: Id, schedule: Schedule, row: Delivery)
    requires RowsOk(db) && AttemptsBounded(limits, db) && Inserts(db, db', sid, schedule, row)
    ensures RowsOk(db') && AttemptsBounded(limits, db')
  {
  }

  lemma InsertEvolves(db: Db, db': Db, sid: Id, schedule: Schedule, row: Delivery)
    requires RowsOk(db) && Inserts(db, db', sid, schedule, row)
    ensures Evolves(db, db') && Undisturbed(db, db', None)
  {
    assert forall id :: id in db.deliveries ==> RowWellFormed(db, id);
  }

  lemma InsertTouches(db: Db, db': Db, sid: Id, schedule: Schedule, row: Delivery)
    requires RowsOk(db) && Inserts(db, db', sid, schedule, row)
    ensures OnlyTouches(db, db', sid) && ScheduleConsistent(db', sid)
    ensures forall id :: id in db'.deliveries && db'.deliveries[id].scheduleId == sid ==> id == row.id
  {
    assert forall id :: id in db.deliveries ==> RowWellFormed(db, id);
    assert PendingOf(db', sid, row.id);
  }

  lemma CreateKeeps(limits: Limits, db: Db, d: Draft, now: Time)
    requires DbOk(limits, db) && Allowed(Create(d, now))
    ensures GoodStep(limits, db, CreateTx(db, d, now).db, None)
  {
    if d.firstAt == d.schedule.startAt {
      var db', sid := CreateTx(db, d, now).db, db.nextId;
      var schedule, row := DraftSchedule(d, now), DraftFirst(db, d, sid, now);
      InsertRows(limits, db, db', sid, schedule, row);
      InsertEvolves(db, db', sid, schedule, row);
      InsertTouches(db, db', sid, schedule, row);
      OccurrencesCarry(db, db', sid);
      Assemble(limits, db, db', sid, None);
    }
  }

  // --------------------------------------- cancelling and unsubscribing

  ghost predicate Terminates(db: Db, db': Db, sid: Id, schedule: Schedule, now: Time) {
    && IsActive(db, sid) && db'.nextId == db.nextId
    && db'.schedules == db.schedules[sid := schedule]
    && db'.deliveries == CancelPending(db, sid, None, now).deliveries
    && !schedule.status.Active? && schedule.nextScheduledAt.None?
  }

  lemma TerminateRows(limits: Limits, db: Db, db': Db, sid: Id, schedule: Schedule, now: Time)
    requires RowsOk(db) && AttemptsBounded(limits, db) && Terminates(db, db', sid, schedule, now)
    ensures RowsOk(db') && AttemptsBounded(limits, db')
  {
  }

  lemma TerminateEvolves(db: Db, db': Db, sid: Id, schedule: Schedule, now: Time)
    requires RowsOk(db) && Terminates(db, db', sid, schedule, now)
    ensures Evolves(db, db') && Undisturbed(db, db', None)
  {
  }

  lemma TerminateTouches(db: Db, db': Db, sid: Id, schedule: Schedule, now: Time)
    requires RowsOk(db) && Terminates(db, db', sid, schedule, now)
    ensures OnlyTouches(db, db', sid) && ScheduleConsistent(db', sid)
    ensures forall id :: id in db'.deliveries ==>
      id in db.deliveries && SameOccurrence(db'.deliveries[id], db.deliveries[id])
  {
  }

  lemma TerminateKeeps(limits: Limits, db: Db, spaceId: Id, sid: Id, member: Option<Id>, now: Time)
    requires DbOk(limits, db)
    ensures GoodStep(limits, db, TerminalTx(db, spaceId, sid, member, now).db, None)
  {
    if Open(db, sid) && db.schedules[sid].spaceId == spaceId {
      var db' := TerminalTx(db, spaceId, sid, member, now).db;
      var schedule := db'.schedules[sid];
      TerminateRows(limits, db, db', sid, schedule, now);
      TerminateEvolves(db, db', sid, schedule, now);
      TerminateTouches(db, db', sid, schedule, now);
      OccurrencesCarry(db, db', sid);
      Assemble(limits, db, db', sid, None);
    }
  }

  // ------------------------------------------------------------- editing

  ghost predicate Edits(
    db: Db, db': Db, sid: Id, schedule: Schedule, existing: Option<Id>, next: NewDelivery, now: Time)
  {
    && IsActive(db, sid)
    && schedule.status.Active? && schedule.nextScheduledAt == Some(next.scheduledAt)
    && existing == RowAt(db, sid, next.scheduledAt)
    && (existing.Some? ==> MayReopen(db.deliveries[existing.value].status))
    && db'.schedules == db.schedules[sid := schedule]
    && (forall id :: id in db.deliveries ==>
          id in db'.deliveries && db'.deliveries[id] == EditedRow(db, sid, existing, next, now, id))
    && (forall id :: id in db'.deliveries && id !in db.deliveries ==>
          id == db.nextId && existing.None? && db'.deliveries[id] == Fresh(db, sid, next, now))
    && EditedId(db, existing) in db'.deliveries
    && db'.nextId == (if existing.Some? then db.nextId else db.nextId + 1)
  }

  function EditedRow(db: Db, sid: Id, existing: Option<Id>, next: NewDelivery, now: Time, id: Id): Delivery
    requires id in db.deliveries
  {
    if existing == Some(id) then ReopenedRow(db.deliveries[id], next, now)
    else if PendingOf(db, sid, id) then CancelledRow(db.deliveries[id], now)
    else db.deliveries[id]
  }

  /** The row that carries the pending occurrence after an edit. */
  ghost function EditedId(db: Db, existing: Option<Id>): Id { if existing.Some? then existing.value else db.nextId }

  lemma EditRows(db: Db, db': Db, sid: Id, schedule: Schedule, existing: Option<Id>, next: NewDelivery, now: Time)
    requires RowsOk(db) && Edits(db, db', sid, schedule, existing, next, now)
    ensures RowsOk(db')
  {
    forall id | id in db'.deliveries ensures RowWellFormed(db', id) {
      assert id in db.deliveries ==> RowWellFormed(db, id);
    }
  }

  lemma EditAttempts(limits: Limits, db: Db, db': Db, sid: Id, schedule: Schedule, existing: Option<Id>,
      next: NewDelivery, now: Time)
    requires AttemptsBounded(limits, db) && Edits(db, db', sid, schedule, existing, next, now)
    ensures AttemptsBounded(limits, db')
  {
  }

  lemma EditEvolves(db: Db, db': Db, sid: Id, schedule: Schedule, existing: Option<Id>, next: NewDelivery, now: Time)
    requires RowsOk(db) && Edits(db, db', sid, schedule, existing, next, now)
    ensures Evolves(db, db')
  {
    forall id | id in db.deliveries
      ensures id in db'.deliveries && RowEvolves(db, db.deliveries[id], db'.deliveries[id])
    {
      assert RowWellFormed(db, id);
    }
  }

  lemma EditUndisturbed(db: Db, db': Db, sid: Id, schedule: Schedule, existing: Option<Id>, next: NewDelivery,
      now: Time)
    requires RowsOk(db) && Edits(db, db', sid, schedule, existing, next, now)
    ensures Undisturbed(db, db', None)
  {
  }

  lemma EditTouches(db: Db, db': Db, sid: Id, schedule: Schedule, existing: Option<Id>, next: NewDelivery, now: Time)
    requires RowsOk(db) && Edits(db, db', sid, schedule, existing, next, now)
    ensures OnlyTouches(db, db', sid)
    ensures forall id :: id in db.deliveries ==>
      id in db'.deliveries && SameOccurrence(db'.deliveries[id], db.deliveries[id])
  {
  }

  lemma EditConsistent(db: Db, db': Db, sid: Id, schedule: Schedule, existing: Option<Id>, next: NewDelivery, now: Time)
    requires RowsOk(db) && Edits(db, db', sid, schedule, existing, next, now)
    ensures ScheduleConsistent(db', sid)
  {
    assert PendingOf(db', sid, EditedId(db, existing));
    forall id | PendingOf(db', sid, id) ensures id == EditedId(db, existing) {}
  }

  lemma EditOccurrences(db: Db, db': Db, sid: Id, schedule: Schedule, existing: Option<Id>, next: NewDelivery,
      now: Time)
    requires RowsOk(db) && OccurrencesUnique(db) && Edits(db, db', sid, schedule, existing, next, now)
    ensures OccurrencesUnique(db')
  {
    EditTouches(db, db', sid, schedule, existing, next, now);
    forall i, j | i in db'.deliveries && j in db'.deliveries && db'.deliveries[i].scheduleId == sid
                  && SameOccurrence(db'.deliveries[i], db'.deliveries[j])
      ensures i == j
    {
      assert i !in db.deliveries && j in db.deliveries ==> Occupies(db, sid, next.scheduledAt, j);
      assert j !in db.deliveries && i in db.deliveries ==> Occupies(db, sid, next.scheduledAt, i);
    }
    OccurrencesCarry(db, db', sid);
  }

  lemma EditTokens(db: Db, db': Db, sid: Id, schedule: Schedule, existing: Option<Id>, next: NewDelivery, now: Time)
    requires RowsOk(db) && Edits(db, db', sid, schedule, existing, next, now)
    ensures FreshTokensUnique(db, db')
  {
    forall id | id in db'.deliveries ensures !FreshToken(db, db'.deliveries[id]) {
      assert id in db.deliveries ==> RowWellFormed(db, id);
    }
  }

  lemma EditIsEdit(db: Db, spaceId: Id, sid: Id, f: UpdateFields, next: NewDelivery, now: Time)
    requires UpdateActiveTx(db, spaceId, sid, f, Some(next), now).outcome == Done
    requires db.nextId !in db.deliveries
    ensures var db' := UpdateActiveTx(db, spaceId, sid, f, Some(next), now).db;
      && sid in db'.schedules
      && Edits(db, db', sid, db'.schedules[sid], RowAt(db, sid, next.scheduledAt), next, now)
  {
  }

  lemma EditKeeps(limits: Limits, db: Db, db': Db, sid: Id, schedule: Schedule, existing: Option<Id>,
      next: NewDelivery, now: Time)
    requires DbOk(limits, db) && Edits(db, db', sid, schedule, existing, next, now)
    ensures GoodStep(limits, db, db', None)
  {
    EditRows(db, db', sid, schedule, existing, next, now);
    EditAttempts(limits, db, db', sid, schedule, existing, next, now);
    EditEvolves(db, db', sid, schedule, existing, next, now);
    EditUndisturbed(db, db', sid, schedule, existing, next, now);
    EditTouches(db, db', sid, schedule, existing, next, now);
    EditConsistent(db, db', sid, schedule, existing, next, now);
    EditOccurrences(db, db', sid, schedule, existing, next, now);
    EditTokens(db, db', sid, schedule, existing, next, now);
    Assemble(limits, db, db', sid, None);
  }

  // ------------------------------------------------ touching one live row

  /** One pending row gets new counters, content, next attempt or lease; its schedule keeps its
      status and next time. */
  ghost predicate Touches(limits: Limits, db: Db, db': Db, id: Id, row: Delivery, schedule: Schedule) {
    && IsPending(db, id) && db.deliveries[id].scheduleId in db.schedules
    && db'.deliveries == db.deliveries[id := row]
    && db'.schedules == db.schedules[db.deliveries[id].scheduleId := schedule]
    && schedule.status == db.schedules[db.deliveries[id].scheduleId].status
    && schedule.nextScheduledAt == db.schedules[db.deliveries[id].scheduleId].nextScheduledAt
    && db.nextId <= db'.nextId
    && row.id == id && row.status.Pending? && row.sentAt.None? && row.nextAttemptAt.Some?
    && SameOccurrence(row, db.deliveries[id])
    && db.deliveries[id].generationAttempts <= row.generationAttempts <= limits.generation
    && db.deliveries[id].deliveryAttempts <= row.deliveryAttempts <= limits.dispatching
    && (row.leaseToken.Some? <==> row.leaseUntil.Some?)
    && (row.leaseToken.Some? ==>
      row.leaseToken == db.deliveries[id].leaseToken || db.nextId <= row.leaseToken.value < db'.nextId)
  }

  lemma TouchRows(limits: Limits, db: Db, db': Db, id: Id, row: Delivery, schedule: Schedule)
    requires RowsOk(db) && AttemptsBounded(limits, db) && Touches(limits, db, db', id, row, schedule)
    ensures RowsOk(db') && AttemptsBounded(limits, db')
  {
  }

  lemma TouchEvolves(limits: Limits, db: Db, db': Db, id: Id, row: Delivery, schedule: Schedule)
    requires RowsOk(db) && Touches(limits, db, db', id, row, schedule)
    ensures Evolves(db, db')
  {
  }

  lemma TouchTouches(limits: Limits, db: Db, db': Db, id: Id, row: Delivery, schedule: Schedule)
    requires RowsOk(db) && SchedulesConsistent(db) && Touches(limits, db, db', id, row, schedule)
    ensures OnlyTouches(db, db', row.scheduleId) && ScheduleConsistent(db', row.scheduleId)
  {
    var sid := row.scheduleId;
    assert RowWellFormed(db, id) && ScheduleConsistent(db, sid);
    assert forall x :: PendingOf(db', sid, x) <==> PendingOf(db, sid, x);
    assert PendingOf(db', sid, id);
  }

  lemma TouchUndisturbed(limits: Limits, db: Db, db': Db, except: Option<Id>, id: Id, row: Delivery, schedule: Schedule)
    requires RowsOk(db) && SchedulesConsistent(db) && Touches(limits, db, db', id, row, schedule)
    requires row.leaseToken == except || row.leaseToken.None? || row.leaseToken != db.deliveries[id].leaseToken
    ensures Undisturbed(db, db', except)
  {
    var sid := row.scheduleId;
    assert RowWellFormed(db, id) && ScheduleConsistent(db, sid);
    assert PendingOf(db, sid, id);
    forall x | KeepsLease(db, db', except, x)
      ensures db'.deliveries[x] == db.deliveries[x] && SameSchedule(db, db', db.deliveries[x].scheduleId)
    {
      assert RowWellFormed(db, x);
      assert db.deliveries[x].scheduleId == sid ==> PendingOf(db, sid, x);
    }
  }

  lemma TouchUnique(limits: Limits, db: Db, db': Db, id: Id, row: Delivery, schedule: Schedule)
    requires RowsOk(db) && OccurrencesUnique(db) && Touches(limits, db, db', id, row, schedule)
    ensures OccurrencesUnique(db') && FreshTokensUnique(db, db')
  {
  }

  lemma TouchKeeps(limits: Limits, db: Db, db': Db, except: Option<Id>, id: Id, row: Delivery, schedule: Schedule)
    requires DbOk(limits, db) && Touches(limits, db, db', id, row, schedule)
    requires row.leaseToken == except || row.leaseToken.None? || row.leaseToken != db.deliveries[id].leaseToken
    ensures GoodStep(limits, db, db', except)
  {
    TouchRows(limits, db, db', id, row, schedule);
    TouchEvolves(limits, db, db', id, row, schedule);
    TouchTouches(limits, db, db', id, row, schedule);
    TouchUndisturbed(limits, db, db', except, id, row, schedule);
    TouchUnique(limits, db, db', id, row, schedule);
    Assemble(limits, db, db', row.scheduleId, except);
  }

  // ------------------------------------------------ closing an occurrence

  /** The pending row of an active schedule is closed; either the next occurrence is inserted and
      the schedule stays active, or the schedule ends. */
  ghost predicate Closes(db: Db, db': Db, id: Id, row: Delivery, schedule: Schedule, next: Option<Delivery>) {
    && IsPending(db, id) && IsActive(db, db.deliveries[id].scheduleId)
    && row == db.deliveries[id].(status := row.status, failure := row.failure, sentAt := row.sentAt,
         nextAttemptAt := row.nextAttemptAt, leaseToken := None, leaseUntil := None, updatedAt := row.updatedAt)
    && !row.status.Pending? && (row.sentAt.Some? <==> row.status.Sent?)
    && db'.schedules == db.schedules[db.deliveries[id].scheduleId := schedule]
    && if next.None? then
         && db'.deliveries == db.deliveries[id := row] && db'.nextId == db.nextId
         && !schedule.status.Active? && schedule.nextScheduledAt.None?
       else
         var n := next.value;
         && db'.deliveries == db.deliveries[id := row][n.id := n] && db'.nextId == db.nextId + 1
         && n == Fresh(db, row.scheduleId, NewDelivery(n.scheduledAt, n.content), n.updatedAt)
         && !Occupied(db, row.scheduleId, n.scheduledAt)
         && schedule.status.Active? && schedule.nextScheduledAt == Some(n.scheduledAt)
  }

  lemma CloseRows(limits: Limits, db: Db, db': Db, id: Id, row: Delivery, schedule: Schedule, next: Option<Delivery>)
    requires RowsOk(db) && AttemptsBounded(limits, db) && Closes(db, db', id, row, schedule, next)
    ensures RowsOk(db') && AttemptsBounded(limits, db')
  {
    assert RowWellFormed(db, id);
  }

  lemma CloseEvolves(db: Db, db': Db, id: Id, row: Delivery, schedule: Schedule, next: Option<Delivery>)
    requires RowsOk(db) && Closes(db, db', id, row, schedule, next)
    ensures Evolves(db, db')
  {
    assert forall x :: x in db.deliveries ==> RowWellFormed(db, x);
  }

  lemma CloseTouches(db: Db, db': Db, id: Id, row: Delivery, schedule: Schedule, next: Option<Delivery>)
    requires RowsOk(db) && Closes(db, db', id, row, schedule, next)
    ensures OnlyTouches(db, db', row.scheduleId)
  {
  }

  lemma CloseConsistent(db: Db, db': Db, id: Id, row: Delivery, schedule: Schedule, next: Option<Delivery>)
    requires RowsOk(db) && Closes(db, db', id, row, schedule, next)
    requires ScheduleConsistent(db, row.scheduleId)
    ensures ScheduleConsistent(db', row.scheduleId)
  {
    var sid := row.scheduleId;
    assert RowWellFormed(db, id) && PendingOf(db, sid, id);
    forall x | PendingOf(db', sid, x) ensures next.Some? && x == next.value.id {
      assert x in db.deliveries && x != id ==> PendingOf(db, sid, x);
    }
    assert next.Some? ==> PendingOf(db', sid, next.value.id);
  }

  lemma CloseUndisturbed(db: Db, db': Db, id: Id, row: Delivery, schedule: Schedule, next: Option<Delivery>)
    requires RowsOk(db) && Closes(db, db', id, row, schedule, next)
    requires ScheduleConsistent(db, row.scheduleId)
    ensures Undisturbed(db, db', None)
  {
    assert RowWellFormed(db, id) && PendingOf(db, row.scheduleId, id);
    forall x | KeepsLease(db, db', None, x)
      ensures db'.deliveries[x] == db.deliveries[x] && SameSchedule(db, db', db.deliveries[x].scheduleId)
    {
      assert RowWellFormed(db, x);
      assert db.deliveries[x].scheduleId == row.scheduleId ==> PendingOf(db, row.scheduleId, x);
    }
  }

  lemma CloseOccurrences(db: Db, db': Db, id: Id, row: Delivery, schedule: Schedule, next: Option<Delivery>)
    requires RowsOk(db) && OccurrencesUnique(db) && OnlyTouches(db, db', row.scheduleId)
    requires Closes(db, db', id, row, schedule, next)
    ensures OccurrencesUnique(db')
  {
    forall i, j | i in db'.deliveries && j in db'.deliveries && db'.deliveries[i].scheduleId == row.scheduleId
                  && SameOccurrence(db'.deliveries[i], db'.deliveries[j])
      ensures i == j
    {
      assert i in db.deliveries ==> Occupies(db, row.scheduleId, db'.deliveries[i].scheduledAt, i);
      assert j in db.deliveries ==> Occupies(db, row.scheduleId, db'.deliveries[i].scheduledAt, j);
    }
    OccurrencesCarry(db, db', row.scheduleId);
  }

  lemma CloseTokens(db: Db, db': Db, id: Id, row: Delivery, schedule: Schedule, next: Option<Delivery>)
    requires RowsOk(db) && Closes(db, db', id, row, schedule, next)
    ensures FreshTokensUnique(db, db')
  {
  }

  lemma CloseKeeps(limits: Limits, db: Db, db': Db, id: Id, row: Delivery, schedule: Schedule, next: Option<Delivery>)
    requires DbOk(limits, db) && Closes(db, db', id, row, schedule, next)
    ensures GoodStep(limits, db, db', None)
  {
    CloseRows(limits, db, db', id, row, schedule, next);
    CloseEvolves(db, db', id, row, schedule, next);
    CloseTouches(db, db', id, row, schedule, next);
    assert RowWellFormed(db, id) && ScheduleConsistent(db, row.scheduleId);
    CloseConsistent(db, db', id, row, schedule, next);
    CloseUndisturbed(db, db', id, row, schedule, next);
    CloseOccurrences(db, db', id, row, schedule, next);
    CloseTokens(db, db', id, row, schedule, next);
    Assemble(limits, db, db', row.scheduleId, None);
  }
}
