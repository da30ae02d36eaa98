/** When a scheduled message is handed to the sender, and how often. */
module DeliveryAccepts {
  import opened Options
  import opened ScheduledMessages
  import opened DeliveryProtocol
  import opened DeliveryRuns

  /** The step hands the message of row id to the sender, as attempt number n. */
  ghost predicate Accepts(limits: Limits, s: Sys, op: Op, id: Id, n: int) {
    (id, n) in Apply(limits, s, op).accepted && (id, n) !in s.accepted
  }

  /** A send is accepted only for a pending delivery of an active schedule in an active space, to a
      valid target, under an unexpired lease, and on an attempt that was reserved and never used. */
  lemma AcceptsOnlyWhenLive(limits: Limits, s: Sys, op: Op)
    requires Inv(limits, s) && Apply(limits, s, op).accepted != s.accepted
    ensures op.Dispatch? && op.token in s.workers && op.reply.Accepted? && op.targetValid
    ensures
      var id := s.workers[op.token].copy.id;
      && Leased(s.db, id, op.token, op.now)
      && Open(s.db, s.db.deliveries[id].scheduleId)
      && s.workers[op.token].ticket.Some?
      && var n := s.workers[op.token].ticket.value;
         && Accepts(limits, s, op, id, n)
         && Apply(limits, s, op).accepted == s.accepted + {(id, n)}
         && 1 <= n <= s.db.deliveries[id].deliveryAttempts
  {
    var w := s.workers[op.token];
    assert WorkerOk(s.db, op.token, w);
  }

  predicate Ended(db: Db, sid: Id) { sid in db.schedules && !db.schedules[sid].status.Active? }

  /** Of the sends accepted since `before`, none is of schedule sid. */
  ghost predicate NoneOf(s: Sys, before: set<(Id, int)>, sid: Id) {
    forall a :: a in s.accepted && a !in before ==>
      a.0 in s.db.deliveries && s.db.deliveries[a.0].scheduleId != sid
  }

  lemma NoneOfStep(limits: Limits, s: Sys, op: Op, before: set<(Id, int)>, sid: Id)
    requires Inv(limits, s) && Allowed(op) && Ended(s.db, sid) && NoneOf(s, before, sid)
    ensures NoneOf(Apply(limits, s, op), before, sid)
  {
    var t := Apply(limits, s, op);
    ApplyKeeps(limits, s, op);
    LastAccept(limits, s, op);
    forall a | a in t.accepted && a !in before
      ensures a.0 in t.db.deliveries && t.db.deliveries[a.0].scheduleId != sid
    {
      if a in s.accepted { assert RowEvolves(s.db, s.db.deliveries[a.0], t.db.deliveries[a.0]); }
    }
  }

  /** Once a cancellation, an unsubscription or anything else has ended a schedule, no run that
      follows hands any of its messages to the sender. */
  lemma {:induction false} NoAcceptAfterTheEnd(limits: Limits, s: Sys, ops: seq<Op>, sid: Id)
    requires Inv(limits, s) && AllAllowed(ops) && Ended(s.db, sid)
    ensures NoneOf(Run(limits, s, ops), s.accepted, sid)
  {
    if ops == [] {
    } else {
      var front := ops[..|ops| - 1];
      NoAcceptAfterTheEnd(limits, s, front, sid);
      RunKeeps(limits, s, front);
      NoneOfStep(limits, Run(limits, s, front), ops[|ops| - 1], s.accepted, sid);
    }
  }

  /** A step accepts at most one send, and only of a row whose schedule is active. */
  lemma LastAccept(limits: Limits, s: Sys, op: Op)
    requires Inv(limits, s) && Allowed(op)
    ensures forall a :: a in Apply(limits, s, op).accepted && a !in s.accepted ==>
      && a.0 in s.db.deliveries && IsActive(s.db, s.db.deliveries[a.0].scheduleId)
      && a.0 in Apply(limits, s, op).db.deliveries
      && Apply(limits, s, op).db.deliveries[a.0].scheduleId == s.db.deliveries[a.0].scheduleId
  {
    ApplyKeeps(limits, s, op);
    if Apply(limits, s, op).accepted != s.accepted {
      AcceptsOnlyWhenLive(limits, s, op);
      var id := s.workers[op.token].copy.id;
      assert RowEvolves(s.db, s.db.deliveries[id], Apply(limits, s, op).db.deliveries[id]);
    }
  }

  ghost function AcceptsOf(s: Sys, id: Id): set<int> { set a | a in s.accepted && a.0 == id :: a.1 }

  lemma {:induction false} SubsetOfRange(s: set<int>, n: nat)
    requires forall x :: x in s ==> 1 <= x <= n
    ensures |s| <= n
  {
    if n == 0 {
      if exists x :: x in s { assert false; }
    } else {
      SubsetOfRange(s - {n}, n - 1);
    }
  }

  /** However many sends fail to commit, no delivery is accepted more often than attempts were
      reserved for it, and never more often than the fixed maximum. */
  lemma AcceptsBounded(limits: Limits, spaces: map<Id, bool>, ops: seq<Op>, id: Id)
    requires AllAllowed(ops)
    ensures
      var s := Run(limits, Start(spaces), ops);
      && |AcceptsOf(s, id)| <= limits.dispatching
      && (id in s.db.deliveries ==> |AcceptsOf(s, id)| <= s.db.deliveries[id].deliveryAttempts)
  {
    var s := Run(limits, Start(spaces), ops);
    ReachableOk(limits, spaces, ops);
    if id in s.db.deliveries {
      SubsetOfRange(AcceptsOf(s, id), s.db.deliveries[id].deliveryAttempts);
    } else {
      SubsetOfRange(AcceptsOf(s, id), 0);
    }
  }

  // ------------------------------------------------- at most one accept

  /** A send that was accepted in a transaction that did not commit. */
  ghost predicate Uncertain(s: Sys, op: Op) {
    && op.Dispatch? && op.token in s.workers && s.workers[op.token].ticket.Some?
    && var d := DispatchTx(s.db, s.workers[op.token].copy.id, op.token, op.now, op.targetValid, op.reply, op.commitOk);
       d.accepted && d.outcome != Done
  }

  ghost predicate AllCommit(limits: Limits, s: Sys, ops: seq<Op>) {
    forall i :: 0 <= i < |ops| ==> !Uncertain(Run(limits, s, ops[..i]), ops[i])
  }

  /** Accepted sends belong to sent rows, one each. */
  ghost predicate AcceptedAreSent(s: Sys) {
    && (forall a :: a in s.accepted ==> a.0 in s.db.deliveries && s.db.deliveries[a.0].status.Sent?)
    && (forall a, b :: a in s.accepted && b in s.accepted && a.0 == b.0 ==> a == b)
  }

  lemma CertainStep(limits: Limits, s: Sys, op: Op)
    requires Inv(limits, s) && Allowed(op) && AcceptedAreSent(s) && !Uncertain(s, op)
    ensures AcceptedAreSent(Apply(limits, s, op))
  {
    var s' := Apply(limits, s, op);
    ApplyKeeps(limits, s, op);
    SentStays(s, s'.db);
    if s'.accepted != s.accepted {
      AcceptsOnlyWhenLive(limits, s, op);
      CommittedIsSent(limits, s, op);
      AddAccepted(s, s', s.workers[op.token].copy.id, s.workers[op.token].ticket.value);
    }
  }

  lemma SentStays(s: Sys, db': Db)
    requires AcceptedAreSent(s) && Evolves(s.db, db')
    ensures forall a :: a in s.accepted ==> a.0 in db'.deliveries && db'.deliveries[a.0].status.Sent?
  {
  }

  lemma AddAccepted(s: Sys, s': Sys, id: Id, n: int)
    requires AcceptedAreSent(s) && s'.accepted == s.accepted + {(id, n)}
    requires IsPending(s.db, id) && id in s'.db.deliveries && s'.db.deliveries[id].status.Sent?
    requires forall a :: a in s.accepted ==> a.0 in s'.db.deliveries && s'.db.deliveries[a.0].status.Sent?
    ensures AcceptedAreSent(s')
  {
  }

  lemma CommittedIsSent(limits: Limits, s: Sys, op: Op)
    requires RowsOk(s.db) && op.Dispatch? && op.token in s.workers && !Uncertain(s, op)
    requires Apply(limits, s, op).accepted != s.accepted
    ensures var id := s.workers[op.token].copy.id;
      id in Apply(limits, s, op).db.deliveries && Apply(limits, s, op).db.deliveries[id].status.Sent?
  {
  }

  lemma {:induction false} CertainRun(limits: Limits, s: Sys, ops: seq<Op>)
    requires Inv(limits, s) && AcceptedAreSent(s) && AllAllowed(ops) && AllCommit(limits, s, ops)
    ensures AcceptedAreSent(Run(limits, s, ops))
  {
    if ops == [] {
    } else {
      var front := ops[..|ops| - 1];
      assert forall i :: 0 <= i < |front| ==> front[..i] == ops[..i];
      CertainRun(limits, s, front);
      RunKeeps(limits, s, front);
      CertainStep(limits, Run(limits, s, front), ops[|ops| - 1]);
    }
  }

  /** If every accepted dispatch commits, a (schedule, instant) is accepted at most once over the
      whole run, however often edits cancel and reopen it. */
  lemma AcceptedAtMostOnce(limits: Limits, spaces: map<Id, bool>, ops: seq<Op>, a: (Id, int), b: (Id, int))
    requires AllAllowed(ops) && AllCommit(limits, Start(spaces), ops)
    requires a in Run(limits, Start(spaces), ops).accepted && b in Run(limits, Start(spaces), ops).accepted
    ensures var db := Run(limits, Start(spaces), ops).db;
      && a.0 in db.deliveries && b.0 in db.deliveries
      && (SameOccurrence(db.deliveries[a.0], db.deliveries[b.0]) ==> a == b)
  {
    ReachableOk(limits, spaces, ops);
    CertainRun(limits, Start(spaces), ops);
  }

  /** With a healthy database and a reply within the lease, an accepted dispatch fails to commit
      if and only if the schedule already has a row at the next instant. */
  lemma DispatchCommitsIff(limits: Limits, s: Sys, token: Id, now: Time, at: Time, next: NewDelivery)
    requires Inv(limits, s) && token in s.workers && s.workers[token].ticket.Some?
    requires
      var id := s.workers[token].copy.id;
      DispatchGuard(s.db, id, token, now, true) == Done && s.db.deliveries[id].leaseUntil.value > at
    ensures
      var sid := s.db.deliveries[s.workers[token].copy.id].scheduleId;
      Uncertain(s, Dispatch(token, now, true, Accepted(at, NextRow(next)), true)) <==>
        Occupied(s.db, sid, next.scheduledAt)
  {
  }

  const DAY: int := 86_400_000_000_000

  const SECOND: int := 1_000_000_000

  /** Two minutes, the lease that the scheduler takes when none is configured. */
  const LEASE: int := 120_000_000_000

  function DayRow(
    n: nat, status: DeliveryStatus, attempts: nat, token: Option<Id>, until: Option<Time>, at: Time): Delivery
  {
    Delivery(n, 0, n * 86_400_000_000_000, Some("hi"), 0, attempts, Some(n * 86_400_000_000_000), token, until, status,
      None, None, at)
  }

  function DayState(attempts: nat, token: Option<Id>, until: Option<Time>, at: Time, nextId: Id): Db {
    Db(map[0 := true],
       map[0 := Schedule(0, Fixed, "hi", Daily, "UTC", DAY, Some(DAY), Active, None, None, 2)],
       map[1 := DayRow(1, Pending, attempts, token, until, at), 2 := DayRow(2, Cancelled, 0, None, None, 2)], nextId)
  }

  const DRAFT: Draft :=
    Draft(Schedule(0, Fixed, "hi", Daily, "UTC", DAY, None, Active, None, None, 0), None, DAY, None, None, None)

  function MoveTo(day: int): UpdateFields { UpdateFields(None, None, None, None, Some(day)) }

  function On(day: int): NewDelivery { NewDelivery(day, Some("hi")) }

  /** A daily schedule is edited to the next day and back: the second day keeps a cancelled row. */
  lemma EditedAwayAndBack()
    ensures
      var db1 := CreateTx(Start(map[0 := true]).db, DRAFT, 0).db;
      var db2 := UpdateActiveTx(db1, 0, 0, MoveTo(2 * DAY), Some(On(2 * DAY)), 1).db;
      var db3 := UpdateActiveTx(db2, 0, 0, MoveTo(DAY), Some(On(DAY)), 2).db;
      db3 == DayState(0, None, None, 2, 3)
  {
    var db1 := CreateTx(Start(map[0 := true]).db, DRAFT, 0).db;
    assert db1.deliveries == map[1 := DayRow(1, Pending, 0, None, None, 0)];
    assert RowAt(db1, 0, 2 * DAY).None?;
    var db2 := UpdateActiveTx(db1, 0, 0, MoveTo(2 * DAY), Some(On(2 * DAY)), 1).db;
    assert db2.deliveries ==
      map[1 := DayRow(1, Cancelled, 0, None, None, 1), 2 := DayRow(2, Pending, 0, None, None, 1)];
    assert Occupies(db2, 0, DAY, 1);
    assert RowAt(db2, 0, DAY) == Some(1);
    var db3 := UpdateActiveTx(db2, 0, 0, MoveTo(DAY), Some(On(DAY)), 2).db;
    assert db3.deliveries == DayState(0, None, None, 2, 3).deliveries;
    assert db3.schedules == DayState(0, None, None, 2, 3).schedules;
  }

  lemma FutileClaim(s: Sys, n: nat, at: Time)
    requires at >= DAY
    requires (n == 0 && s.db == DayState(0, None, None, 2, 3)) ||
             (n == 1 && s.db == DayState(1, Some(3), Some(at), at - LEASE + SECOND, 4))
    ensures ClaimStep(s, 1, at, at + LEASE) ==
      Sys(DayState(n, Some(n + 3), Some(at + LEASE), at, n + 4),
          s.workers[n + 3 := Worker(DayRow(1, Pending, n, Some(n + 3), Some(at + LEASE), at), None, None)], s.accepted)
  {
  }

  lemma FutileReserve(limits: Limits, s: Sys, n: nat, at: Time)
    requires n < limits.dispatching && n + 3 in s.workers
    requires s.db == DayState(n, Some(n + 3), Some(at + LEASE), at, n + 4)
    requires s.workers[n + 3] == Worker(DayRow(1, Pending, n, Some(n + 3), Some(at + LEASE), at), None, None)
    ensures var s' := ReserveStep(limits, s, n + 3, Dispatching, at + SECOND);
      && s'.db == DayState(n + 1, Some(n + 3), Some(at + LEASE), at + SECOND, n + 4)
      && s'.workers == s.workers[n + 3 := s'.workers[n + 3]] && s'.accepted == s.accepted
      && s'.workers[n + 3].copy.id == 1 && s'.workers[n + 3].ticket == Some(n + 1)
  {
  }

  lemma FutileSend(s: Sys, n: nat, at: Time)
    requires n + 3 in s.workers && s.workers[n + 3].copy.id == 1 && s.workers[n + 3].ticket == Some(n + 1)
    requires s.db == DayState(n + 1, Some(n + 3), Some(at + LEASE), at + SECOND, n + 4)
    ensures var s' :=
      DispatchStep(s, n + 3, at + 2 * SECOND, true, Accepted(at + 3 * SECOND, NextRow(On(2 * DAY))), true);
      s'.db == s.db && s'.accepted == s.accepted + {(1, n + 1)} && s'.workers.Keys == s.workers.Keys
  {
    assert Occupies(s.db, 0, 2 * DAY, 2);
  }

  lemma RunSnoc(limits: Limits, s: Sys, ops: seq<Op>, op: Op)
    ensures Run(limits, s, ops + [op]) == Apply(limits, Run(limits, s, ops), op)
  {
  }

  function FutileDispatch(n: nat, at: Time): seq<Op> {
    [Claim(1, at, at + LEASE)] + [Reserve(n + 3, Dispatching, at + SECOND)]
    + [Dispatch(n + 3, at + 2 * SECOND, true, Accepted(at + 3 * SECOND, NextRow(On(2 * DAY))), true)]
  }

  /** One claim, one reserved attempt and one accepted dispatch, none of which fails; the second
      day is occupied, so the row stays pending. */
  lemma OneFutileDispatch(limits: Limits, s0: Sys, ops: seq<Op>, n: nat, at: Time)
    requires n < limits.dispatching && at >= DAY
    requires var s := Run(limits, s0, ops);
      (n == 0 && s.db == DayState(0, None, None, 2, 3))
        || (n == 1 && s.db == DayState(1, Some(3), Some(at), at - LEASE + SECOND, 4))
    ensures
      var s' := Run(limits, s0, ops + FutileDispatch(n, at));
      && s'.db == DayState(n + 1, Some(n + 3), Some(at + LEASE), at + SECOND, n + 4)
      && s'.accepted == Run(limits, s0, ops).accepted + {(1, n + 1)}
  {
    var claim, reserve := Claim(1, at, at + LEASE), Reserve(n + 3, Dispatching, at + SECOND);
    var send := Dispatch(n + 3, at + 2 * SECOND, true, Accepted(at + 3 * SECOND, NextRow(On(2 * DAY))), true);
    RunClaim(limits, s0, ops, n, at);
    RunReserve(limits, s0, ops + [claim], n, at);
    RunSend(limits, s0, ops + [claim] + [reserve], n, at);
    assert ops + FutileDispatch(n, at) == ops + [claim] + [reserve] + [send];
  }

  lemma RunClaim(limits: Limits, s0: Sys, ops: seq<Op>, n: nat, at: Time)
    requires at >= DAY
    requires var s := Run(limits, s0, ops);
      (n == 0 && s.db == DayState(0, None, None, 2, 3))
        || (n == 1 && s.db == DayState(1, Some(3), Some(at), at - LEASE + SECOND, 4))
    ensures var s, s' := Run(limits, s0, ops), Run(limits, s0, ops + [Claim(1, at, at + LEASE)]);
      && s'.db == DayState(n, Some(n + 3), Some(at + LEASE), at, n + 4) && s'.accepted == s.accepted
      && n + 3 in s'.workers
      && s'.workers[n + 3] == Worker(DayRow(1, Pending, n, Some(n + 3), Some(at + LEASE), at), None, None)
  {
    RunSnoc(limits, s0, ops, Claim(1, at, at + LEASE));
    FutileClaim(Run(limits, s0, ops), n, at);
  }

  lemma RunReserve(limits: Limits, s0: Sys, ops: seq<Op>, n: nat, at: Time)
    requires n < limits.dispatching
    requires var s := Run(limits, s0, ops);
      && n + 3 in s.workers && s.db == DayState(n, Some(n + 3), Some(at + LEASE), at, n + 4)
      && s.workers[n + 3] == Worker(DayRow(1, Pending, n, Some(n + 3), Some(at + LEASE), at), None, None)
    ensures var s, s' := Run(limits, s0, ops), Run(limits, s0, ops + [Reserve(n + 3, Dispatching, at + SECOND)]);
      && s'.db == DayState(n + 1, Some(n + 3), Some(at + LEASE), at + SECOND, n + 4) && s'.accepted == s.accepted
      && n + 3 in s'.workers && s'.workers[n + 3].copy.id == 1 && s'.workers[n + 3].ticket == Some(n + 1)
  {
    RunSnoc(limits, s0, ops, Reserve(n + 3, Dispatching, at + SECOND));
    FutileReserve(limits, Run(limits, s0, ops), n, at);
  }

  lemma RunSend(limits: Limits, s0: Sys, ops: seq<Op>, n: nat, at: Time)
    requires var s := Run(limits, s0, ops);
      && n + 3 in s.workers && s.workers[n + 3].copy.id == 1 && s.workers[n + 3].ticket == Some(n + 1)
      && s.db == DayState(n + 1, Some(n + 3), Some(at + LEASE), at + SECOND, n + 4)
    ensures
      var send := Dispatch(n + 3, at + 2 * SECOND, true, Accepted(at + 3 * SECOND, NextRow(On(2 * DAY))), true);
      var s, s' := Run(limits, s0, ops), Run(limits, s0, ops + [send]);
      s'.db == s.db && s'.accepted == s.accepted + {(1, n + 1)}
  {
    RunSnoc(limits, s0, ops,
      Dispatch(n + 3, at + 2 * SECOND, true, Accepted(at + 3 * SECOND, NextRow(On(2 * DAY))), true));
    FutileSend(Run(limits, s0, ops), n, at);
  }

  function EditOps(): seq<Op> {
    [Create(DRAFT, 0)] + [Edit(0, 0, MoveTo(2 * DAY), Some(On(2 * DAY)), 1)]
      + [Edit(0, 0, MoveTo(DAY), Some(On(DAY)), 2)]
  }

  lemma RunsEdits(limits: Limits)
    ensures Run(limits, Start(map[0 := true]), EditOps()) == Sys(DayState(0, None, None, 2, 3), map[], {})
  {
    var s0 := Start(map[0 := true]);
    RunSnoc(limits, s0, [], Create(DRAFT, 0));
    RunSnoc(limits, s0, [Create(DRAFT, 0)], Edit(0, 0, MoveTo(2 * DAY), Some(On(2 * DAY)), 1));
    RunSnoc(limits, s0, [Create(DRAFT, 0)] + [Edit(0, 0, MoveTo(2 * DAY), Some(On(2 * DAY)), 1)],
      Edit(0, 0, MoveTo(DAY), Some(On(DAY)), 2));
    assert [] + [Create(DRAFT, 0)] == [Create(DRAFT, 0)];
    EditedAwayAndBack();
  }

  lemma RunsTwice(limits: Limits)
    requires limits.dispatching == 2
    ensures Run(limits, Start(map[0 := true]),
      EditOps() + FutileDispatch(0, DAY) + FutileDispatch(1, DAY + LEASE)).accepted
         == {(1, 1), (1, 2)}
  {
    var s0 := Start(map[0 := true]);
    RunsEdits(limits);
    OneFutileDispatch(limits, s0, EditOps(), 0, DAY);
    OneFutileDispatch(limits, s0, EditOps() + FutileDispatch(0, DAY), 1, DAY + LEASE);
  }

  /** Every send is accepted and nothing but the unique index stands in the way of a commit. */
  predicate Healthy(op: Op) {
    Allowed(op) && (op.Dispatch? ==> op.commitOk && op.reply.Accepted? && !op.reply.plan.PlanError?)
  }

  lemma OpsAreHealthy()
    ensures forall op :: op in EditOps() + FutileDispatch(0, DAY) + FutileDispatch(1, DAY + LEASE) ==> Healthy(op)
  {
  }

  /** Without any failure of the database, of the sender or of a lease, an edit away and back makes
      one delivery be accepted twice: the dispatch finds the next day's cancelled row, rolls back
      after the send, and sends again when the lease of two minutes has expired. */
  lemma EditedAwayAndBackIsAcceptedTwice()
    ensures exists limits: Limits, ops: seq<Op> ::
      && (forall op :: op in ops ==> Healthy(op))
      && Run(limits, Start(map[0 := true]), ops).accepted == {(1, 1), (1, 2)}
  {
    RunsTwice(Limits(1, 2));
    OpsAreHealthy();
  }
}
