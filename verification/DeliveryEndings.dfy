/** How schedules end: the status in which a schedule is left tells what ended it, and nothing that
    happens later changes the schedule or its rows. */
module DeliveryEndings {
  import opened Options
  import opened ScheduledMessages
  import opened DeliveryProtocol
  import opened DeliveryRuns
  import opened DeliverySteps

  /** The worker's row of this schedule was pending and has this status now. */
  predicate Leaves(s: Sys, s': Sys, token: Id, sid: Id, status: DeliveryStatus) {
    && RowOf(s, token).Some? && RowOf(s, token).value.scheduleId == sid && RowOf(s, token).value.status == Pending
    && RowOf(s, token).value.id in s'.db.deliveries
    && s'.db.deliveries[RowOf(s, token).value.id].status == status
  }

  /** The operation ends schedule sid, in the words of its own arguments and of the worker's row. */
  predicate EndsAs(s: Sys, op: Op, s': Sys, sid: Id, status: ScheduleStatus) {
    match status
    case Active => false
    case ScheduleSent =>
      op.Dispatch? && op.reply.Accepted? && op.reply.plan == NoNext && Leaves(s, s', op.token, sid, Sent)
    case ScheduleFailed =>
      op.Finish? && op.status == Failed && op.next == None && Leaves(s, s', op.token, sid, Failed)
    case ScheduleCancelled =>
      (op.Finish? && op.status == Cancelled && Leaves(s, s', op.token, sid, Cancelled)) || Stops(s, op, sid, false)
    case Unsubscribed => Stops(s, op, sid, true)
  }

  /** A cancellation, or the leaving of a member, that finds the schedule and its space active. */
  predicate Stops(s: Sys, op: Op, sid: Id, byMember: bool) {
    && op.Terminate? && op.sid == sid && op.member.Some? == byMember
    && Runs(s.db, sid) && s.db.schedules[sid].spaceId == op.spaceId
  }

  /** Pending rows are of active schedules, at their next time. */
  ghost predicate PendingRun(db: Db) {
    && (forall id :: id in db.deliveries && db.deliveries[id].status == Pending ==>
          && db.deliveries[id].scheduleId in db.schedules
          && db.schedules[db.deliveries[id].scheduleId].status == Active
          && db.schedules[db.deliveries[id].scheduleId].nextScheduledAt == Some(db.deliveries[id].scheduledAt))
    && db.nextId !in db.schedules
  }

  lemma InvPendingRun(limits: Limits, s: Sys)
    requires Inv(limits, s)
    ensures Keyed(s) && PendingRun(s.db)
  {
    InvKeyed(limits, s);
    forall id | id in s.db.deliveries && s.db.deliveries[id].status == Pending
      ensures IsActive(s.db, s.db.deliveries[id].scheduleId)
      ensures s.db.schedules[s.db.deliveries[id].scheduleId].nextScheduledAt == Some(s.db.deliveries[id].scheduledAt)
    {
      assert RowWellFormed(s.db, id) && ScheduleConsistent(s.db, s.db.deliveries[id].scheduleId);
      assert PendingOf(s.db, s.db.deliveries[id].scheduleId, id);
    }
  }

  lemma EndsMade(limits: Limits, s: Sys, op: Op, s': Sys, sid: Id, status: ScheduleStatus)
    requires Keyed(s) && PendingRun(s.db) && Makes(limits, s, op, s') && Allowed(op)
    requires sid in s.db.schedules && s.db.schedules[sid].status == Active && status != Active
    ensures sid in s'.db.schedules
    ensures s'.db.schedules[sid].status == status <==> EndsAs(s, op, s', sid, status)
  {
    ScheduleMade(limits, s, op, s', sid);
  }

  lemma EndedStays(limits: Limits, s: Sys, op: Op, s': Sys, sid: Id, status: ScheduleStatus)
    requires Keyed(s) && PendingRun(s.db) && Makes(limits, s, op, s') && Allowed(op)
    requires sid in s.db.schedules && s.db.schedules[sid].status != Active
    ensures sid in s'.db.schedules && s'.db.schedules[sid] == s.db.schedules[sid]
    ensures !EndsAs(s, op, s', sid, status)
  {
    ScheduleMade(limits, s, op, s', sid);
  }

  lemma NewIsActive(limits: Limits, s: Sys, op: Op, s': Sys, sid: Id, status: ScheduleStatus)
    requires Keyed(s) && Makes(limits, s, op, s') && Allowed(op) && sid !in s.db.schedules
    ensures sid in s'.db.schedules ==> s'.db.schedules[sid].status == Active
    ensures !EndsAs(s, op, s', sid, status)
  {
  }

  // ------------------------------------------------------- what it records

  /** What the tables say for good of the operation that ended the schedule: who left and when, what
      was sent and when, or why it failed, in the row of the last instant. */
  ghost predicate Records(s: Sys, op: Op, sid: Id, s': Sys) {
    && sid in s.db.schedules && sid in s'.db.schedules
    && match op
       case Terminate(_, _, member, now) =>
         && s'.db.schedules[sid].unsubscribedBy ==
              (if member.Some? then member else s.db.schedules[sid].unsubscribedBy)
         && s'.db.schedules[sid].unsubscribedAt ==
              (if member.Some? then Some(now) else s.db.schedules[sid].unsubscribedAt)
         && forall id :: id in s.db.deliveries && s.db.deliveries[id].scheduleId == sid
                         && s.db.deliveries[id].status == Pending ==>
              id in s'.db.deliveries && s'.db.deliveries[id].scheduleId == sid
                && s'.db.deliveries[id].status == Cancelled
       case Finish(token, status, _, category, _) =>
         && LastRow(s, token, sid, s')
         && s'.db.deliveries[RowOf(s, token).value.id].status == status
         && s'.db.deliveries[RowOf(s, token).value.id].failure == Some(category)
       case Dispatch(token, _, _, reply, _) =>
         && LastRow(s, token, sid, s') && reply.Accepted?
         && s'.db.deliveries[RowOf(s, token).value.id].status == Sent
         && s'.db.deliveries[RowOf(s, token).value.id].sentAt == Some(reply.at)
         && WasAccepted(s', RowOf(s, token).value.id)
       case _ => false
  }

  /** The sender accepted a message for this delivery. */
  ghost predicate WasAccepted(s: Sys, id: Id) { exists a :: a in s.accepted && a.0 == id }

  /** The row of the worker is that of the schedule's last instant. */
  predicate LastRow(s: Sys, token: Id, sid: Id, s': Sys)
    requires sid in s.db.schedules
  {
    && RowOf(s, token).Some? && RowOf(s, token).value.id in s'.db.deliveries
    && s'.db.deliveries[RowOf(s, token).value.id].scheduleId == sid
    && Some(s'.db.deliveries[RowOf(s, token).value.id].scheduledAt) == s.db.schedules[sid].nextScheduledAt
  }

  lemma RecordsNow(limits: Limits, s: Sys, op: Op, s': Sys, sid: Id, status: ScheduleStatus)
    requires Keyed(s) && PendingRun(s.db) && Makes(limits, s, op, s') && Allowed(op)
    requires sid in s.db.schedules && EndsAs(s, op, s', sid, status)
    ensures Records(s, op, sid, s')
  {
    if op.Dispatch? {
      var d := RowOf(s, op.token).value;
      assert d.id == s.workers[op.token].copy.id;
      assert Asks(s, op.token, op.now, op.targetValid) && SendCommits(d, s.db, op.reply, op.commitOk);
      assert (d.id, s.workers[op.token].ticket.value) in s'.accepted;
      assert WasAccepted(s', d.id);
      assert LastRow(s, op.token, sid, s');
    } else if op.Terminate? {
      assert forall id :: id in s.db.deliveries <==> id in s'.db.deliveries;
    } else {
      assert op.Finish? && RowOf(s, op.token).Some?;
      assert Finishes(s, op.token, op.status, op.next, op.now);
    }
  }

  /** Nothing changes the rows of a schedule that has ended, and accepted sends are never forgotten. */
  lemma EndedRowsStay(limits: Limits, s: Sys, op: Op, s': Sys, id: Id)
    requires Keyed(s) && PendingRun(s.db) && Makes(limits, s, op, s') && id in s.db.deliveries
    requires var sid := s.db.deliveries[id].scheduleId;
      sid in s.db.schedules && s.db.schedules[sid].status != Active
    ensures id in s'.db.deliveries && s'.db.deliveries[id] == s.db.deliveries[id]
  {
    RowMade(limits, s, op, s', id);
  }

  lemma AcceptedGrows(limits: Limits, s: Sys, op: Op, s': Sys)
    requires Makes(limits, s, op, s')
    ensures s.accepted <= s'.accepted
  {
  }

  lemma RecordsStay(limits: Limits, s0: Sys, op0: Op, sid: Id, s: Sys, op: Op, s': Sys)
    requires Keyed(s) && PendingRun(s.db) && Makes(limits, s, op, s') && Allowed(op)
    requires Records(s0, op0, sid, s) && s.db.schedules[sid].status != Active
    ensures Records(s0, op0, sid, s')
  {
    EndedStays(limits, s, op, s', sid, Active);
    AcceptedGrows(limits, s, op, s');
    forall id | id in s.db.deliveries && s.db.deliveries[id].scheduleId == sid
      ensures id in s'.db.deliveries && s'.db.deliveries[id] == s.db.deliveries[id]
    {
      EndedRowsStay(limits, s, op, s', id);
    }
  }

  // ------------------------------------------------------------ whole runs

  /** Step k of the run ended the schedule in this status. */
  ghost predicate EndedAt(limits: Limits, s: Sys, ops: seq<Op>, k: nat, sid: Id, status: ScheduleStatus) {
    k < |ops| && EndsAs(Run(limits, s, ops[..k]), ops[k], Run(limits, s, ops[..k + 1]), sid, status)
  }

  /** Every step that ended the schedule left the status in which it is, and its record. */
  ghost predicate EndsAgree(limits: Limits, s: Sys, ops: seq<Op>, sid: Id) {
    forall k: nat, status :: EndedAt(limits, s, ops, k, sid, status) ==>
      var s' := Run(limits, s, ops);
      && sid in s'.db.schedules && s'.db.schedules[sid].status == status != Active
      && Records(Run(limits, s, ops[..k]), ops[k], sid, s')
  }

  ghost predicate EndKnown(limits: Limits, s: Sys, ops: seq<Op>, sid: Id) {
    var db := Run(limits, s, ops).db;
    sid in db.schedules && db.schedules[sid].status != Active ==>
      exists k: nat :: EndedAt(limits, s, ops, k, sid, db.schedules[sid].status)
  }

  lemma Prefixes(limits: Limits, s: Sys, front: seq<Op>, op: Op, k: nat, sid: Id, status: ScheduleStatus)
    ensures k < |front| ==>
      (EndedAt(limits, s, front + [op], k, sid, status) <==> EndedAt(limits, s, front, k, sid, status))
      && (front + [op])[..k] == front[..k] && (front + [op])[k] == front[k]
    ensures EndedAt(limits, s, front + [op], |front|, sid, status) <==>
      EndsAs(Run(limits, s, front), op, Apply(limits, Run(limits, s, front), op), sid, status)
    ensures (front + [op])[..|front|] == front
  {
    var ops := front + [op];
    assert ops[..|front|] == front && ops[..|front| + 1] == ops;
    if k < |front| { assert ops[..k] == front[..k] && ops[..k + 1] == front[..k + 1]; }
  }

  lemma StepReady(limits: Limits, s: Sys, front: seq<Op>, op: Op)
    requires Inv(limits, s) && AllAllowed(front) && Allowed(op)
    ensures var t := Run(limits, s, front);
      Keyed(t) && PendingRun(t.db) && Makes(limits, t, op, Apply(limits, t, op))
  {
    RunKeeps(limits, s, front);
    InvPendingRun(limits, Run(limits, s, front));
    ApplyMakes(limits, Run(limits, s, front), op);
  }

  lemma EndsAgreeStep(limits: Limits, s: Sys, front: seq<Op>, op: Op, sid: Id)
    requires Inv(limits, s) && AllAllowed(front) && Allowed(op) && EndsAgree(limits, s, front, sid)
    ensures EndsAgree(limits, s, front + [op], sid)
  {
    var t := Run(limits, s, front);
    var t' := Apply(limits, t, op);
    assert Run(limits, s, front + [op]) == t' by { Prefixes(limits, s, front, op, 0, sid, Active); }
    StepReady(limits, s, front, op);
    forall k: nat, status | EndedAt(limits, s, front + [op], k, sid, status)
      ensures sid in t'.db.schedules && t'.db.schedules[sid].status == status != Active
        && Records(Run(limits, s, (front + [op])[..k]), (front + [op])[k], sid, t')
    {
      Prefixes(limits, s, front, op, k, sid, status);
      if k < |front| {
        assert EndedAt(limits, s, front, k, sid, status);
        EndedStays(limits, t, op, t', sid, status);
        RecordsStay(limits, Run(limits, s, front[..k]), front[k], sid, t, op, t');
      } else {
        EndsNow(limits, t, op, t', sid, status);
      }
    }
  }

  lemma EndsNow(limits: Limits, s: Sys, op: Op, s': Sys, sid: Id, status: ScheduleStatus)
    requires Keyed(s) && PendingRun(s.db) && Makes(limits, s, op, s') && Allowed(op)
    requires EndsAs(s, op, s', sid, status)
    ensures sid in s'.db.schedules && s'.db.schedules[sid].status == status != Active && Records(s, op, sid, s')
  {
    if sid !in s.db.schedules {
      NewIsActive(limits, s, op, s', sid, status);
    } else if s.db.schedules[sid].status != Active {
      EndedStays(limits, s, op, s', sid, status);
    } else {
      EndsMade(limits, s, op, s', sid, status);
      RecordsNow(limits, s, op, s', sid, status);
    }
  }

  lemma EndKnownStep(limits: Limits, s: Sys, front: seq<Op>, op: Op, sid: Id)
    requires Inv(limits, s) && AllAllowed(front) && Allowed(op) && EndKnown(limits, s, front, sid)
    ensures EndKnown(limits, s, front + [op], sid)
  {
    var t := Run(limits, s, front);
    var t' := Apply(limits, t, op);
    assert Run(limits, s, front + [op]) == t' by { Prefixes(limits, s, front, op, 0, sid, Active); }
    StepReady(limits, s, front, op);
    if sid in t'.db.schedules && t'.db.schedules[sid].status != Active {
      var status := t'.db.schedules[sid].status;
      if sid in t.db.schedules && t.db.schedules[sid].status != Active {
        EndedStays(limits, t, op, t', sid, status);
        var k: nat :| EndedAt(limits, s, front, k, sid, status);
        Prefixes(limits, s, front, op, k, sid, status);
        assert EndedAt(limits, s, front + [op], k, sid, status);
      } else {
        if sid !in t.db.schedules { NewIsActive(limits, t, op, t', sid, status); }
        EndsMade(limits, t, op, t', sid, status);
        Prefixes(limits, s, front, op, 0, sid, status);
        assert EndedAt(limits, s, front + [op], |front|, sid, status);
      }
    }
  }

  lemma {:induction false} EndsTell(limits: Limits, spaces: map<Id, bool>, ops: seq<Op>, sid: Id)
    requires AllAllowed(ops)
    ensures EndsAgree(limits, Start(spaces), ops, sid) && EndKnown(limits, Start(spaces), ops, sid)
  {
    if ops != [] {
      var front, op := ops[..|ops| - 1], ops[|ops| - 1];
      assert ops == front + [op];
      ReachableOk(limits, spaces, []);
      EndsTell(limits, spaces, front, sid);
      EndsAgreeStep(limits, Start(spaces), front, op, sid);
      EndKnownStep(limits, Start(spaces), front, op, sid);
    }
  }

  /** The status of a schedule tells what ended it, in every reachable state: SENT if and only if a
      committed dispatch without a next row did, FAILED if and only if a final failure without one
      did, CANCELLED if and only if a cancellation or a cancelled delivery did, and UNSUBSCRIBED if
      and only if a member left. */
  lemma FinalStatusTells(limits: Limits, spaces: map<Id, bool>, ops: seq<Op>, sid: Id, status: ScheduleStatus)
    requires AllAllowed(ops) && sid in Run(limits, Start(spaces), ops).db.schedules && status != Active
    ensures Run(limits, Start(spaces), ops).db.schedules[sid].status == status <==>
      exists k: nat :: EndedAt(limits, Start(spaces), ops, k, sid, status)
  {
    EndsTell(limits, spaces, ops, sid);
  }

  /** And the tables keep the record of that step: the member who left and the time, the time of the
      send, the category of the failure, in the row of the last instant. */
  lemma EndIsRecorded(limits: Limits, spaces: map<Id, bool>, ops: seq<Op>, sid: Id)
    requires AllAllowed(ops) && sid in Run(limits, Start(spaces), ops).db.schedules
    requires Run(limits, Start(spaces), ops).db.schedules[sid].status != Active
    ensures
      var s := Run(limits, Start(spaces), ops);
      exists k: nat :: EndedAt(limits, Start(spaces), ops, k, sid, s.db.schedules[sid].status)
        && Records(Run(limits, Start(spaces), ops[..k]), ops[k], sid, s)
  {
    EndsTell(limits, spaces, ops, sid);
  }

  lemma ReadyFromTheStart(limits: Limits, spaces: map<Id, bool>, front: seq<Op>, op: Op)
    requires AllAllowed(front) && Allowed(op)
    ensures var t := Run(limits, Start(spaces), front);
      Keyed(t) && PendingRun(t.db) && Makes(limits, t, op, Apply(limits, t, op))
  {
    ReachableOk(limits, spaces, []);
    StepReady(limits, Start(spaces), front, op);
  }

  lemma NoSecondEnd(limits: Limits, spaces: map<Id, bool>, front: seq<Op>, op: Op, sid: Id, k: nat,
      first: ScheduleStatus, second: ScheduleStatus)
    requires AllAllowed(front) && Allowed(op) && EndedAt(limits, Start(spaces), front, k, sid, first)
    ensures !EndedAt(limits, Start(spaces), front + [op], |front|, sid, second)
  {
    var t := Run(limits, Start(spaces), front);
    EndsTell(limits, spaces, front, sid);
    ReadyFromTheStart(limits, spaces, front, op);
    EndedStays(limits, t, op, Apply(limits, t, op), sid, second);
    Prefixes(limits, Start(spaces), front, op, 0, sid, second);
  }

  lemma InPrefix(limits: Limits, s: Sys, ops: seq<Op>, j: nat, k: nat, sid: Id, status: ScheduleStatus)
    requires j < k <= |ops|
    ensures EndedAt(limits, s, ops[..k], j, sid, status) <==> EndedAt(limits, s, ops, j, sid, status)
  {
    assert ops[..k][..j] == ops[..j] && ops[..k][..j + 1] == ops[..j + 1];
  }

  /** A schedule ends once. */
  lemma EndsOnce(limits: Limits, spaces: map<Id, bool>, ops: seq<Op>, sid: Id, j: nat, k: nat,
      first: ScheduleStatus, second: ScheduleStatus)
    requires AllAllowed(ops) && j < k
    requires EndedAt(limits, Start(spaces), ops, j, sid, first)
    ensures !EndedAt(limits, Start(spaces), ops, k, sid, second)
  {
    if k < |ops| {
      InPrefix(limits, Start(spaces), ops, j, k, sid, first);
      InPrefix(limits, Start(spaces), ops, k, k + 1, sid, second);
      assert ops[..k + 1] == ops[..k] + [ops[k]];
      NoSecondEnd(limits, spaces, ops[..k], ops[k], sid, j, first, second);
    }
  }

  /** A schedule that says SENT has, at its last instant, a row that was sent, and the sender accepted
      a message for it. */
  lemma SentScheduleHasSentRow(limits: Limits, spaces: map<Id, bool>, ops: seq<Op>, sid: Id)
    requires AllAllowed(ops) && sid in Run(limits, Start(spaces), ops).db.schedules
    requires Run(limits, Start(spaces), ops).db.schedules[sid].status == ScheduleSent
    ensures
      var s := Run(limits, Start(spaces), ops);
      exists id :: id in s.db.deliveries && s.db.deliveries[id].scheduleId == sid
        && s.db.deliveries[id].status == Sent && s.db.deliveries[id].sentAt.Some? && WasAccepted(s, id)
  {
    EndIsRecorded(limits, spaces, ops, sid);
  }
}
