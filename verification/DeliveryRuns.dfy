/** What holds in every reachable state of the scheduled-message protocol, and over every run. */
module DeliveryRuns {
  import opened Options
  import opened ScheduledMessages
  import opened DeliveryProtocol

  // ------------------------------------------- from rows to whole states

  lemma DbStepKeeps(limits: Limits, s: Sys, db': Db)
    requires Inv(limits, s) && GoodStep(limits, s.db, db', None)
    ensures Inv(limits, s.(db := db'))
  {
    assert forall id :: id in db'.deliveries ==> RowWellFormed(db', id);
    WorkersKept(s, db', None);
  }

  lemma DropKeeps(limits: Limits, s: Sys, token: Id)
    requires Inv(limits, s)
    ensures Inv(limits, Drop(s, token))
  {
  }

  /** A ticket is kept, spent, or numbered above all the attempts made so far. */
  predicate TicketStep(s: Sys, w: Worker, w': Worker)
    requires w.copy.id in s.db.deliveries
  {
    w'.ticket.None? || w'.ticket == w.ticket || w'.ticket.value > s.db.deliveries[w.copy.id].deliveryAttempts
  }

  lemma WorkerStepKeeps(limits: Limits, s: Sys, db': Db, token: Id, w': Worker)
    requires Inv(limits, s) && token in s.workers && GoodStep(limits, s.db, db', Some(token))
    requires WorkerOk(db', token, w') && w'.copy.id == s.workers[token].copy.id
    requires s.workers[token].copy.id in s.db.deliveries && TicketStep(s, s.workers[token], w')
    ensures Inv(limits, PutWorker(s.(db := db'), token, w'))
  {
    SchedulesExist(limits, db');
    WorkersKept(s, db', Some(token));
    PutWorkerTickets(s, db', token, w');
    PutWorkerWorkers(s, db', token, w');
  }

  lemma SchedulesExist(limits: Limits, db: Db)
    requires DbOk(limits, db)
    ensures forall id :: id in db.deliveries ==> db.deliveries[id].scheduleId in db.schedules
  {
  }

  lemma PutWorkerWorkers(s: Sys, db': Db, token: Id, w': Worker)
    requires token in s.workers && w'.copy.id == s.workers[token].copy.id && WorkerOk(db', token, w')
    requires forall k :: k in s.workers && Some(k) != Some(token) ==> WorkerOk(db', k, s.workers[k])
    requires forall k, id | k in s.workers && id in db'.deliveries ::
      db'.deliveries[id].leaseToken == Some(k) ==> s.workers[k].copy.id == id
    ensures WorkersOk(PutWorker(s.(db := db'), token, w'))
  {
  }

  lemma PutWorkerTickets(s: Sys, db': Db, token: Id, w': Worker)
    requires WorkersOk(s) && TicketsOk(s) && TicketsOk(s.(db := db')) && token in s.workers
    requires w'.copy.id == s.workers[token].copy.id
    requires s.workers[token].copy.id in s.db.deliveries && TicketStep(s, s.workers[token], w')
    ensures TicketsOk(PutWorker(s.(db := db'), token, w'))
  {
    assert WorkerOk(s.db, token, s.workers[token]);
    forall k | k in s.workers && k != token && s.workers[k].copy.id == w'.copy.id && w'.ticket.Some?
      ensures s.workers[k].ticket != w'.ticket
    {
      assert WorkerOk(s.db, k, s.workers[k]);
    }
  }

  lemma NoChangeIsGood(limits: Limits, db: Db, except: Option<Id>)
    requires DbOk(limits, db)
    ensures GoodStep(limits, db, db, except)
  {
  }

  // ------------------------------------------------- one step of each kind

  lemma SetSpaceFrame(limits: Limits, db: Db, db': Db)
    requires RowsOk(db) && AttemptsBounded(limits, db) && OccurrencesUnique(db)
    requires db'.deliveries == db.deliveries && db'.schedules == db.schedules && db'.nextId == db.nextId
    ensures RowsOk(db') && AttemptsBounded(limits, db') && OccurrencesUnique(db')
    ensures Evolves(db, db') && Undisturbed(db, db', None) && OnlyTouches(db, db', db.nextId)
      && FreshTokensUnique(db, db')
  {
    assert forall id :: id in db.deliveries ==> RowWellFormed(db, id);
  }

  lemma SetSpaceKeeps(limits: Limits, db: Db, spaceId: Id, active: Option<bool>)
    requires DbOk(limits, db)
    ensures GoodStep(limits, db, WithSpace(db, spaceId, active), None)
  {
    var db' := WithSpace(db, spaceId, active);
    SetSpaceFrame(limits, db, db');
    Assemble(limits, db, db', db.nextId, None);
  }

  lemma ClaimKeeps(limits: Limits, s: Sys, id: Id, now: Time, until: Time)
    requires Inv(limits, s)
    ensures Inv(limits, ClaimStep(s, id, now, until))
    ensures Evolves(s.db, ClaimStep(s, id, now, until).db)
  {
    var db := s.db;
    var tx := ClaimTx(db, id, now, until);
    if tx.outcome == Done {
      var row, k := ClaimedRow(db, id, now, until), db.nextId;
      assert RowWellFormed(db, id);
      TouchKeeps(limits, db, tx.db, None, id, row, db.schedules[row.scheduleId]);
      DbStepKeeps(limits, s, tx.db);
      NewWorkerKeeps(limits, s.(db := tx.db), id, k);
    }
  }

  lemma NewWorkerKeeps(limits: Limits, s: Sys, id: Id, k: Id)
    requires Inv(limits, s) && k !in s.workers && k < s.db.nextId
    requires id in s.db.deliveries && s.db.deliveries[id].leaseToken == Some(k)
    ensures Inv(limits, PutWorker(s, k, Worker(s.db.deliveries[id], None, None)))
  {
    assert RowWellFormed(s.db, id);
  }

  lemma LoadKeeps(limits: Limits, s: Sys, token: Id, now: Time)
    requires Inv(limits, s)
    ensures Inv(limits, LoadStep(s, token, now))
    ensures Evolves(s.db, LoadStep(s, token, now).db)
  {
    var s' := LoadStep(s, token, now);
    if s' != s {
      var w := s.workers[token];
      assert WorkerOk(s.db, token, w) && RowWellFormed(s.db, w.copy.id);
      NoChangeIsGood(limits, s.db, Some(token));
      WorkerStepKeeps(limits, s, s.db, token, s'.workers[token]);
    }
  }

  lemma ReserveIsGood(limits: Limits, db: Db, token: Id, w: Worker, c: Counter, now: Time)
    requires DbOk(limits, db) && WorkerOk(db, token, w)
    ensures GoodStep(limits, db, ReserveTx(db, w.copy, now, Max(limits, c), c).db, Some(token))
  {
    var tx := ReserveTx(db, w.copy, now, Max(limits, c), c);
    if tx.outcome == Done {
      ReserveTouches(limits, db, token, w, c, now);
      var row := db.deliveries[w.copy.id];
      TouchKeeps(limits, db, tx.db, Some(token), w.copy.id, Reserved(row, c, now), db.schedules[row.scheduleId]);
    } else {
      NoChangeIsGood(limits, db, Some(token));
    }
  }

  lemma ReserveTouches(limits: Limits, db: Db, token: Id, w: Worker, c: Counter, now: Time)
    requires RowsOk(db) && AttemptsBounded(limits, db) && WorkerOk(db, token, w)
    requires ReserveTx(db, w.copy, now, Max(limits, c), c).outcome == Done
    ensures w.copy.id in db.deliveries && db.deliveries[w.copy.id].scheduleId in db.schedules
    ensures var row := db.deliveries[w.copy.id];
      && row.leaseToken == Some(token)
      && Touches(limits, db, ReserveTx(db, w.copy, now, Max(limits, c), c).db, w.copy.id, Reserved(row, c, now),
        db.schedules[row.scheduleId])
  {
  }

  lemma ReserveWorker(limits: Limits, s: Sys, token: Id, c: Counter, now: Time)
    requires RowsOk(s.db) && AttemptsBounded(limits, s.db) && token in s.workers
      && WorkerOk(s.db, token, s.workers[token])
    ensures var s' := ReserveStep(limits, s, token, c, now);
      && token in s'.workers && WorkerOk(s'.db, token, s'.workers[token])
      && s'.workers[token].copy.id == s.workers[token].copy.id && TicketStep(s, s.workers[token], s'.workers[token])
  {
  }

  lemma ReserveKeeps(limits: Limits, s: Sys, token: Id, c: Counter, now: Time)
    requires Inv(limits, s)
    ensures Inv(limits, ReserveStep(limits, s, token, c, now))
    ensures Evolves(s.db, ReserveStep(limits, s, token, c, now).db)
  {
    if token in s.workers {
      assert WorkerOk(s.db, token, s.workers[token]);
      var s' := ReserveStep(limits, s, token, c, now);
      if s' != s {
        ReserveIsGood(limits, s.db, token, s.workers[token], c, now);
        ReserveWorker(limits, s, token, c, now);
        WorkerStepKeeps(limits, s, s'.db, token, s'.workers[token]);
      }
    }
  }

  lemma PersistKeeps(limits: Limits, s: Sys, token: Id, content: Text, now: Time)
    requires Inv(limits, s)
    ensures Inv(limits, PersistStep(s, token, content, now))
    ensures Evolves(s.db, PersistStep(s, token, content, now).db)
  {
    var s' := PersistStep(s, token, content, now);
    if s' != s {
      var w := s.workers[token];
      var row := s.db.deliveries[w.copy.id];
      assert WorkerOk(s.db, token, w) && RowWellFormed(s.db, w.copy.id);
      TouchKeeps(limits, s.db, s'.db, Some(token), w.copy.id, row.(content := Some(content), updatedAt := now),
        s.db.schedules[row.scheduleId]);
      WorkerStepKeeps(limits, s, s'.db, token, s'.workers[token]);
    }
  }

  lemma RetryIsGood(limits: Limits, db: Db, token: Id, w: Worker, nextAttempt: Time, category: Text, now: Time)
    requires DbOk(limits, db) && WorkerOk(db, token, w) && w.schedule.Some?
    ensures GoodStep(limits, db,
      RetryTx(db, RetryCopy(w, nextAttempt, category, now), w.schedule.value.(updatedAt := now)).db, None)
  {
    var copy := RetryCopy(w, nextAttempt, category, now);
    var tx := RetryTx(db, copy, w.schedule.value.(updatedAt := now));
    if tx.outcome == Done {
      RetryTouches(limits, db, token, w, nextAttempt, category, now);
      var row := db.deliveries[copy.id];
      TouchKeeps(limits, db, tx.db, None, copy.id, RetriedRow(row, copy), tx.db.schedules[row.scheduleId]);
    } else {
      NoChangeIsGood(limits, db, None);
    }
  }

  lemma RetryTouches(limits: Limits, db: Db, token: Id, w: Worker, nextAttempt: Time, category: Text, now: Time)
    requires RowsOk(db) && SchedulesConsistent(db) && AttemptsBounded(limits, db)
    requires WorkerOk(db, token, w) && w.schedule.Some?
    requires RetryTx(db, RetryCopy(w, nextAttempt, category, now), w.schedule.value.(updatedAt := now)).outcome == Done
    ensures var copy := RetryCopy(w, nextAttempt, category, now);
      var tx := RetryTx(db, copy, w.schedule.value.(updatedAt := now));
      && copy.id in db.deliveries && db.deliveries[copy.id].scheduleId in tx.db.schedules
      && Touches(limits, db, tx.db, copy.id, RetriedRow(db.deliveries[copy.id], copy),
        tx.db.schedules[db.deliveries[copy.id].scheduleId])
  {
  }

  lemma RetryKeeps(limits: Limits, s: Sys, token: Id, nextAttempt: Time, category: Text, now: Time)
    requires Inv(limits, s)
    ensures Inv(limits, RetryStep(s, token, nextAttempt, category, now))
    ensures Evolves(s.db, RetryStep(s, token, nextAttempt, category, now).db)
  {
    if token in s.workers && s.workers[token].schedule.Some? {
      var w := s.workers[token];
      RetryIsGood(limits, s.db, token, w, nextAttempt, category, now);
      var db' := RetryTx(s.db, RetryCopy(w, nextAttempt, category, now), w.schedule.value.(updatedAt := now)).db;
      DbStepKeeps(limits, s, db');
      DropKeeps(limits, s.(db := db'), token);
    }
  }

  lemma FinishIsGood(limits: Limits, db: Db, token: Id, w: Worker, status: DeliveryStatus, next: Option<NewDelivery>,
      category: Text, now: Time)
    requires DbOk(limits, db) && WorkerOk(db, token, w) && w.schedule.Some?
    requires Allowed(Finish(token, status, next, category, now))
    ensures GoodStep(limits, db,
      FinalizeTx(db, FinishCopy(w, status, category, now), FinishSchedule(w.schedule.value, status, next, now),
        next).db, None)
  {
    var copy := FinishCopy(w, status, category, now);
    var tx := FinalizeTx(db, copy, FinishSchedule(w.schedule.value, status, next, now), next);
    if tx.outcome == Done {
      FinishCloses(db, token, w, status, next, category, now);
      var row := db.deliveries[copy.id];
      var inserted := if next.Some? then Some(Fresh(db, copy.scheduleId, next.value, now)) else None;
      CloseKeeps(limits, db, tx.db, copy.id, FinalRow(row, copy), tx.db.schedules[row.scheduleId], inserted);
    } else {
      NoChangeIsGood(limits, db, None);
    }
  }

  lemma FinishCloses(db: Db, token: Id, w: Worker, status: DeliveryStatus, next: Option<NewDelivery>, category: Text,
      now: Time)
    requires RowsOk(db) && WorkerOk(db, token, w) && w.schedule.Some?
    requires Allowed(Finish(token, status, next, category, now))
    requires FinalizeTx(db, FinishCopy(w, status, category, now), FinishSchedule(w.schedule.value, status, next, now),
      next).outcome == Done
    ensures var copy := FinishCopy(w, status, category, now);
      var tx := FinalizeTx(db, copy, FinishSchedule(w.schedule.value, status, next, now), next);
      var inserted := if next.Some? then Some(Fresh(db, copy.scheduleId, next.value, now)) else None;
      && copy.id in db.deliveries && db.deliveries[copy.id].scheduleId in tx.db.schedules
      && Closes(db, tx.db, copy.id, FinalRow(db.deliveries[copy.id], copy),
        tx.db.schedules[db.deliveries[copy.id].scheduleId], inserted)
  {
  }

  lemma FinishKeeps(limits: Limits, s: Sys, token: Id, status: DeliveryStatus, next: Option<NewDelivery>,
      category: Text, now: Time)
    requires Inv(limits, s) && Allowed(Finish(token, status, next, category, now))
    ensures Inv(limits, FinishStep(s, token, status, next, category, now))
    ensures Evolves(s.db, FinishStep(s, token, status, next, category, now).db)
  {
    if token in s.workers && s.workers[token].schedule.Some? {
      var w := s.workers[token];
      FinishIsGood(limits, s.db, token, w, status, next, category, now);
      var db' := FinalizeTx(s.db, FinishCopy(w, status, category, now),
        FinishSchedule(w.schedule.value, status, next, now), next).db;
      DbStepKeeps(limits, s, db');
      DropKeeps(limits, s.(db := db'), token);
    }
  }

  lemma DispatchCloses(db: Db, id: Id, token: Id, now: Time, targetValid: bool, reply: Reply, commitOk: bool)
    requires RowsOk(db) && DispatchTx(db, id, token, now, targetValid, reply, commitOk).outcome == Done
    ensures var d := DispatchTx(db, id, token, now, targetValid, reply, commitOk);
      && id in db.deliveries && db.deliveries[id].scheduleId in d.db.schedules && reply.Accepted?
      && var sid := db.deliveries[id].scheduleId;
         var inserted := if reply.plan.NextRow? then Some(Fresh(db, sid, reply.plan.row, reply.at)) else None;
         Closes(db, d.db, id, SentRow(db.deliveries[id], reply.at), d.db.schedules[sid], inserted)
  {
  }

  lemma DispatchIsGood(limits: Limits, db: Db, id: Id, token: Id, now: Time, targetValid: bool, reply: Reply,
      commitOk: bool)
    requires DbOk(limits, db)
    ensures GoodStep(limits, db, DispatchTx(db, id, token, now, targetValid, reply, commitOk).db, None)
  {
    var d := DispatchTx(db, id, token, now, targetValid, reply, commitOk);
    if d.outcome == Done {
      DispatchCloses(db, id, token, now, targetValid, reply, commitOk);
      var sid := db.deliveries[id].scheduleId;
      var inserted := if reply.plan.NextRow? then Some(Fresh(db, sid, reply.plan.row, reply.at)) else None;
      CloseKeeps(limits, db, d.db, id, SentRow(db.deliveries[id], reply.at), d.db.schedules[sid], inserted);
    } else {
      NoChangeIsGood(limits, db, None);
    }
  }

  /** Spending a ticket, with or without an accepted send. */
  lemma SpendKeeps(limits: Limits, s: Sys, token: Id, accepted: bool)
    requires Inv(limits, s) && token in s.workers && s.workers[token].ticket.Some?
    ensures var w := s.workers[token];
      var spent := if accepted then s.accepted + {(w.copy.id, w.ticket.value)} else s.accepted;
      Inv(limits, PutWorker(Sys(s.db, s.workers, spent), token, w.(ticket := None)))
  {
    assert WorkerOk(s.db, token, s.workers[token]);
  }

  lemma DispatchKeeps(limits: Limits, s: Sys, token: Id, now: Time, targetValid: bool, reply: Reply, commitOk: bool)
    requires Inv(limits, s)
    ensures Inv(limits, DispatchStep(s, token, now, targetValid, reply, commitOk))
    ensures Evolves(s.db, DispatchStep(s, token, now, targetValid, reply, commitOk).db)
  {
    if token in s.workers && s.workers[token].ticket.Some? {
      var id := s.workers[token].copy.id;
      DispatchIsGood(limits, s.db, id, token, now, targetValid, reply, commitOk);
      var db' := DispatchTx(s.db, id, token, now, targetValid, reply, commitOk).db;
      DbStepKeeps(limits, s, db');
      SpendKeeps(limits, s.(db := db'), token, DispatchTx(s.db, id, token, now, targetValid, reply, commitOk).accepted);
    }
  }

  // ------------------------------------------------------------ every run

  lemma ApplyKeeps(limits: Limits, s: Sys, op: Op)
    requires Inv(limits, s) && Allowed(op)
    ensures Inv(limits, Apply(limits, s, op))
    ensures Evolves(s.db, Apply(limits, s, op).db)
  {
    match op
    case SetSpace(spaceId, active) =>
      SetSpaceKeeps(limits, s.db, spaceId, active);
      DbStepKeeps(limits, s, Apply(limits, s, op).db);
    case Create(draft, now) =>
      CreateKeeps(limits, s.db, draft, now);
      DbStepKeeps(limits, s, Apply(limits, s, op).db);
    case Edit(spaceId, sid, fields, next, now) =>
      EditIsGood(limits, s.db, spaceId, sid, fields, next, now);
      DbStepKeeps(limits, s, Apply(limits, s, op).db);
    case Terminate(spaceId, sid, member, now) =>
      TerminateKeeps(limits, s.db, spaceId, sid, member, now);
      DbStepKeeps(limits, s, Apply(limits, s, op).db);
    case Claim(id, now, until) => ClaimKeeps(limits, s, id, now, until);
    case Load(token, now) => LoadKeeps(limits, s, token, now);
    case Reserve(token, c, now) => ReserveKeeps(limits, s, token, c, now);
    case Persist(token, content, now) => PersistKeeps(limits, s, token, content, now);
    case Retry(token, nextAttempt, category, now) => RetryKeeps(limits, s, token, nextAttempt, category, now);
    case Finish(token, status, next, category, now) => FinishKeeps(limits, s, token, status, next, category, now);
    case Dispatch(token, now, targetValid, reply, commitOk) =>
      DispatchKeeps(limits, s, token, now, targetValid, reply, commitOk);
    case Leave(token) => DropKeeps(limits, s, token);
  }

  lemma EditIsGood(limits: Limits, db: Db, spaceId: Id, sid: Id, fields: UpdateFields, next: Option<NewDelivery>,
      now: Time)
    requires DbOk(limits, db)
    ensures GoodStep(limits, db, UpdateActiveTx(db, spaceId, sid, fields, next, now).db, None)
  {
    var tx := UpdateActiveTx(db, spaceId, sid, fields, next, now);
    if tx.outcome == Done {
      assert db.nextId in db.deliveries ==> RowWellFormed(db, db.nextId);
      EditIsEdit(db, spaceId, sid, fields, next.value, now);
      EditKeeps(limits, db, tx.db, sid, tx.db.schedules[sid], RowAt(db, sid, next.value.scheduledAt), next.value, now);
    } else {
      NoChangeIsGood(limits, db, None);
    }
  }

  lemma {:induction false} RunKeeps(limits: Limits, s: Sys, ops: seq<Op>)
    requires Inv(limits, s) && AllAllowed(ops)
    ensures Inv(limits, Run(limits, s, ops))
    ensures Evolves(s.db, Run(limits, s, ops).db)
  {
    if ops == [] {
    } else {
      var before := Run(limits, s, ops[..|ops| - 1]);
      RunKeeps(limits, s, ops[..|ops| - 1]);
      ApplyKeeps(limits, before, ops[|ops| - 1]);
      EvolvesTransitive(s.db, before.db, Run(limits, s, ops).db);
    }
  }

  /** Every run that starts with no schedules stays within the invariant. */
  lemma ReachableOk(limits: Limits, spaces: map<Id, bool>, ops: seq<Op>)
    requires AllAllowed(ops)
    ensures Inv(limits, Run(limits, Start(spaces), ops))
  {
    RunKeeps(limits, Start(spaces), ops);
  }

  /** In every reachable state an active schedule has exactly one pending delivery, at its next
      time; a schedule that ended has none and no next time. */
  lemma OnePendingPerActiveSchedule(limits: Limits, spaces: map<Id, bool>, ops: seq<Op>, sid: Id)
    requires AllAllowed(ops) && sid in Run(limits, Start(spaces), ops).db.schedules
    ensures
      var db := Run(limits, Start(spaces), ops).db;
      var schedule := db.schedules[sid];
      if schedule.status.Active? then
        exists id :: PendingOf(db, sid, id) && schedule.nextScheduledAt == Some(db.deliveries[id].scheduledAt)
                     && forall j :: PendingOf(db, sid, j) ==> j == id
      else schedule.nextScheduledAt.None? && forall j :: !PendingOf(db, sid, j)
  {
    ReachableOk(limits, spaces, ops);
    assert ScheduleConsistent(Run(limits, Start(spaces), ops).db, sid);
  }

  /** From any state of a run to any later one: attempts only grow and stay within the maxima,
      finished rows never change, no schedule leaves a terminal status. */
  lemma RowsOnlyEvolve(limits: Limits, s: Sys, ops: seq<Op>, id: Id)
    requires Inv(limits, s) && AllAllowed(ops) && id in s.db.deliveries
    ensures
      var db' := Run(limits, s, ops).db;
      && id in db'.deliveries
      && var d, d' := s.db.deliveries[id], db'.deliveries[id];
         && SameOccurrence(d', d)
         && d.generationAttempts <= d'.generationAttempts <= limits.generation
         && d.deliveryAttempts <= d'.deliveryAttempts <= limits.dispatching
         && (Finished(d) ==> d' == d)
         && d.scheduleId in s.db.schedules && d.scheduleId in db'.schedules
         && CanTransition(s.db.schedules[d.scheduleId].status, db'.schedules[d.scheduleId].status)
  {
    RunKeeps(limits, s, ops);
    assert RowWellFormed(s.db, id);
    assert RowEvolves(s.db, s.db.deliveries[id], Run(limits, s, ops).db.deliveries[id]);
  }

  // -------------------------------------------------------------- fencing

  /** The token was handed out and no row carries it any more. */
  ghost predicate Fenced(db: Db, token: Id) {
    token < db.nextId && forall id :: id in db.deliveries ==> db.deliveries[id].leaseToken != Some(token)
  }

  predicate IsWriteOf(op: Op, token: Id) {
    match op
    case Reserve(t, _, _) => t == token
    case Persist(t, _, _) => t == token
    case Retry(t, _, _, _) => t == token
    case Finish(t, _, _, _, _) => t == token
    case Dispatch(t, _, _, _, _) => t == token
    case _ => false
  }

  lemma FencedGuards(db: Db, token: Id, w: Worker, now: Time)
    requires WorkerOk(db, token, w) && Fenced(db, token)
    ensures !Holds(db, w.copy, now) && !Leased(db, w.copy.id, token, now)
  {
  }

  /** A worker whose token is fenced writes nothing and sends nothing. */
  lemma FencedWritesFail(limits: Limits, s: Sys, op: Op, token: Id)
    requires WorkersOk(s) && Fenced(s.db, token) && IsWriteOf(op, token)
    ensures Apply(limits, s, op).db == s.db && Apply(limits, s, op).accepted == s.accepted
  {
    if token in s.workers {
      var w := s.workers[token];
      assert WorkerOk(s.db, token, w);
      match op {
        case Reserve(_, c, now) => FencedGuards(s.db, token, w, now);
        case Persist(_, content, now) => FencedGuards(s.db, token, w, now);
        case Retry(_, nextAttempt, category, now) => FencedGuards(s.db, token, w, now);
        case Finish(_, status, next, category, now) => FencedGuards(s.db, token, w, now);
        case Dispatch(_, now, targetValid, reply, commitOk) => FencedGuards(s.db, token, w, now);
      }
    }
  }

  lemma EvolvesKeepsFence(db: Db, db': Db, token: Id)
    requires Evolves(db, db') && Fenced(db, token)
    ensures Fenced(db', token)
  {
  }

  /** A fence lasts: whatever happens next, in any order, the old worker's next write fails. */
  lemma FencedForever(limits: Limits, s: Sys, ops: seq<Op>, token: Id, op: Op)
    requires Inv(limits, s) && AllAllowed(ops) && Fenced(s.db, token) && IsWriteOf(op, token)
    ensures var s' := Run(limits, s, ops);
      Apply(limits, s', op).db == s'.db && Apply(limits, s', op).accepted == s'.accepted
  {
    RunKeeps(limits, s, ops);
    EvolvesKeepsFence(s.db, Run(limits, s, ops).db, token);
    FencedWritesFail(limits, Run(limits, s, ops), op, token);
  }

  /** What supersedes the lease of row id: an edit, a cancellation or an unsubscription of its
      schedule, a new claim of the row, or its own retry, finish or committed dispatch. */
  predicate Supersedes(s: Sys, op: Op, id: Id)
    requires id in s.db.deliveries
  {
    match op
    case Edit(_, sid, _, _, _) => sid == s.db.deliveries[id].scheduleId
    case Terminate(_, sid, _, _) => sid == s.db.deliveries[id].scheduleId
    case Claim(claimed, _, _) => claimed == id
    case Retry(t, _, _, _) => s.db.deliveries[id].leaseToken == Some(t)
    case Finish(t, _, _, _, _) => s.db.deliveries[id].leaseToken == Some(t)
    case Dispatch(t, _, _, _, _) => s.db.deliveries[id].leaseToken == Some(t)
    case _ => false
  }

  /** Each of them, when it changes the database, fences the worker that held the row. */
  lemma SupersededIsFenced(limits: Limits, s: Sys, op: Op, id: Id, token: Id)
    requires Inv(limits, s) && Allowed(op) && id in s.db.deliveries && s.db.deliveries[id].leaseToken == Some(token)
    requires Supersedes(s, op, id) && Apply(limits, s, op).db != s.db
    ensures Fenced(Apply(limits, s, op).db, token)
  {
    var db' := Apply(limits, s, op).db;
    ApplyKeeps(limits, s, op);
    assert RowWellFormed(s.db, id);
    LosesToken(limits, s, op, id, token);
    forall j | j in db'.deliveries ensures db'.deliveries[j].leaseToken != Some(token) {
      if j in s.db.deliveries && j != id { assert RowEvolves(s.db, s.db.deliveries[j], db'.deliveries[j]); }
    }
  }

  lemma LosesToken(limits: Limits, s: Sys, op: Op, id: Id, token: Id)
    requires RowsOk(s.db) && WorkersOk(s) && id in s.db.deliveries && s.db.deliveries[id].leaseToken == Some(token)
    requires Supersedes(s, op, id) && Apply(limits, s, op).db != s.db
    ensures var db' := Apply(limits, s, op).db; id in db'.deliveries && db'.deliveries[id].leaseToken != Some(token)
  {
    assert RowWellFormed(s.db, id);
    match op {
      case Edit(spaceId, sid, fields, next, now) => EditLosesToken(s.db, spaceId, sid, fields, next, now, id);
      case Terminate(_, _, _, _) =>
      case Claim(_, _, _) =>
      case Retry(t, _, _, _) => RetryLosesToken(s, op, id);
      case Finish(t, _, _, _, _) => FinishLosesToken(s, op, id);
      case Dispatch(t, _, _, _, _) => DispatchLosesToken(s, op, id);
    }
  }

  lemma EditLosesToken(db: Db, spaceId: Id, sid: Id, fields: UpdateFields, next: Option<NewDelivery>, now: Time, id: Id)
    requires RowsOk(db) && PendingOf(db, sid, id) && UpdateActiveTx(db, spaceId, sid, fields, next, now).outcome == Done
    ensures var db' := UpdateActiveTx(db, spaceId, sid, fields, next, now).db;
      id in db'.deliveries && db'.deliveries[id].leaseToken.None?
  {
  }

  lemma RetryLosesToken(s: Sys, op: Op, id: Id)
    requires WorkersOk(s) && op.Retry? && id in s.db.deliveries && s.db.deliveries[id].leaseToken == Some(op.token)
    requires RetryStep(s, op.token, op.nextAttempt, op.category, op.now).db != s.db
    ensures var db' := RetryStep(s, op.token, op.nextAttempt, op.category, op.now).db;
      id in db'.deliveries && db'.deliveries[id].leaseToken.None?
  {
  }

  lemma DispatchLosesToken(s: Sys, op: Op, id: Id)
    requires WorkersOk(s) && op.Dispatch? && id in s.db.deliveries && s.db.deliveries[id].leaseToken == Some(op.token)
    requires DispatchStep(s, op.token, op.now, op.targetValid, op.reply, op.commitOk).db != s.db
    requires id < s.db.nextId
    ensures var db' := DispatchStep(s, op.token, op.now, op.targetValid, op.reply, op.commitOk).db;
      id in db'.deliveries && db'.deliveries[id].leaseToken.None?
  {
  }

  lemma FinishLosesToken(s: Sys, op: Op, id: Id)
    requires WorkersOk(s) && op.Finish? && id in s.db.deliveries && s.db.deliveries[id].leaseToken == Some(op.token)
    requires FinishStep(s, op.token, op.status, op.next, op.category, op.now).db != s.db
    requires id < s.db.nextId
    ensures var db' := FinishStep(s, op.token, op.status, op.next, op.category, op.now).db;
      id in db'.deliveries && db'.deliveries[id].leaseToken.None?
  {
  }

  /** While a worker's token is on its row, what it writes back equals the row, so the absolute
      overwrite of RecordRetry loses no attempt and no content. */
  lemma RetryLosesNothing(limits: Limits, s: Sys, token: Id, nextAttempt: Time, category: Text, now: Time)
    requires Inv(limits, s) && token in s.workers
    requires RetryStep(s, token, nextAttempt, category, now).db != s.db
    ensures
      var id := s.workers[token].copy.id;
      var db' := RetryStep(s, token, nextAttempt, category, now).db;
      && id in s.db.deliveries
      && db' == s.db.(
           deliveries := s.db.deliveries[
             id := s.db.deliveries[id].(nextAttemptAt := Some(nextAttempt), leaseToken := None, leaseUntil := None,
                                        failure := Some(category), updatedAt := now)],
           schedules := s.db.schedules[
             s.db.deliveries[id].scheduleId :=
               s.db.schedules[s.db.deliveries[id].scheduleId].(updatedAt := now)])
  {
    var w := s.workers[token];
    assert WorkerOk(s.db, token, w) && RowWellFormed(s.db, w.copy.id) && ScheduleConsistent(s.db, w.copy.scheduleId);
  }
}
