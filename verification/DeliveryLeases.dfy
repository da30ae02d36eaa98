/** What a lease is worth: a claim takes exactly the due rows that no live lease holds, and until its
    lease expires a worker keeps its row unless a user writes or it gives the row up itself. */
module DeliveryLeases {
  import opened Options
  import opened ScheduledMessages
  import opened DeliveryProtocol
  import opened DeliveryRuns
  import opened DeliverySteps

  /** In every reachable state a claim changes a row if and only if the row is pending, its next
      attempt has come, no lease is on it or its lease has expired, its schedule is active and so is
      the space; the row then carries a token that no row ever had. Anything else stays. */
  lemma ClaimTakesIff(limits: Limits, spaces: map<Id, bool>, ops: seq<Op>, id: Id, now: Time, until: Time)
    requires AllAllowed(ops)
    requires id in Run(limits, Start(spaces), ops).db.deliveries
    ensures
      var s := Run(limits, Start(spaces), ops);
      var s' := Apply(limits, s, Claim(id, now, until));
      var d := s.db.deliveries[id];
      && id in s'.db.deliveries && d.scheduleId in s.db.schedules
      && (s'.db.deliveries[id] != d <==>
           && d.status == Pending
           && d.nextAttemptAt.Some? && d.nextAttemptAt.value <= now
           && (d.leaseToken == None || (d.leaseUntil.Some? && d.leaseUntil.value <= now))
           && s.db.schedules[d.scheduleId].status == Active
           && s.db.schedules[d.scheduleId].spaceId in s.db.spaces
           && s.db.spaces[s.db.schedules[d.scheduleId].spaceId] == true)
      && (s'.db.deliveries[id] != d ==>
           && s'.db.deliveries[id] ==
                d.(leaseToken := Some(s.db.nextId), leaseUntil := Some(until), updatedAt := now)
           && s.db.nextId in s'.workers && s'.workers[s.db.nextId].copy == s'.db.deliveries[id])
      && s'.db.deliveries == s.db.deliveries[id := s'.db.deliveries[id]] && s'.db.schedules == s.db.schedules
  {
    var s := Run(limits, Start(spaces), ops);
    ReachableOk(limits, spaces, ops);
    assert RowWellFormed(s.db, id);
    ClaimTells(limits, s, id, now, until);
  }

  /** What takes the token off row id of schedule sid, whose lease ends at `until`. */
  predicate TakesToken(op: Op, id: Id, sid: Id, token: Id, until: Time) {
    match op
    case Claim(claimed, now, _) => claimed == id && until <= now
    case Edit(_, edited, _, _, _) => edited == sid
    case Terminate(_, ended, _, _) => ended == sid
    case Retry(t, _, _, now) => t == token && now < until
    case Finish(t, _, _, _, now) => t == token && now < until
    case Dispatch(t, now, _, reply, _) => t == token && now < until && reply.Accepted? && reply.at < until
    case _ => false
  }

  predicate HeldBy(s: Sys, id: Id, sid: Id, token: Id, until: Time) {
    && id in s.db.deliveries && s.db.deliveries[id].scheduleId == sid && s.db.deliveries[id].status == Pending
    && s.db.deliveries[id].leaseToken == Some(token) && s.db.deliveries[id].leaseUntil == Some(until)
  }

  lemma StepHolds(limits: Limits, s: Sys, op: Op, id: Id, sid: Id, token: Id, until: Time)
    requires Inv(limits, s) && Allowed(op) && HeldBy(s, id, sid, token, until)
    ensures HeldBy(Apply(limits, s, op), id, sid, token, until) || TakesToken(op, id, sid, token, until)
  {
    assert RowWellFormed(s.db, id);
    RowAfter(limits, s, op, id);
  }

  /** The step at which the token leaves the row. */
  ghost predicate LosesAt(limits: Limits, s: Sys, ops: seq<Op>, k: nat, id: Id, sid: Id, token: Id, until: Time) {
    && k < |ops|
    && HeldBy(Run(limits, s, ops[..k]), id, sid, token, until)
    && !HeldBy(Run(limits, s, ops[..k + 1]), id, sid, token, until)
    && TakesToken(ops[k], id, sid, token, until)
  }

  lemma LosesLater(limits: Limits, s: Sys, front: seq<Op>, op: Op, k: nat, id: Id, sid: Id, token: Id, until: Time)
    requires LosesAt(limits, s, front, k, id, sid, token, until)
    ensures LosesAt(limits, s, front + [op], k, id, sid, token, until)
  {
    assert (front + [op])[..k] == front[..k] && (front + [op])[..k + 1] == front[..k + 1];
  }

  lemma LosesNow(limits: Limits, s: Sys, front: seq<Op>, op: Op, id: Id, sid: Id, token: Id, until: Time)
    requires Inv(limits, s) && AllAllowed(front) && Allowed(op) && HeldBy(Run(limits, s, front), id, sid, token, until)
    requires !HeldBy(Run(limits, s, front + [op]), id, sid, token, until)
    ensures LosesAt(limits, s, front + [op], |front|, id, sid, token, until)
  {
    var ops := front + [op];
    assert ops[..|front|] == front && ops[..|front| + 1] == ops;
    RunKeeps(limits, s, front);
    StepHolds(limits, Run(limits, s, front), op, id, sid, token, until);
  }

  /** However long the run, a row that no longer carries a worker's lease lost it to an edit or an
      ending of its schedule, to the worker's own retry, finish or accepted dispatch in time, or to a
      claim not before the lease expired. */
  lemma {:induction false} LostOnlyTo(limits: Limits, s: Sys, ops: seq<Op>, id: Id, sid: Id, token: Id, until: Time)
    requires Inv(limits, s) && AllAllowed(ops) && HeldBy(s, id, sid, token, until)
    ensures HeldBy(Run(limits, s, ops), id, sid, token, until)
      || exists k :: LosesAt(limits, s, ops, k, id, sid, token, until)
  {
    if ops != [] && !HeldBy(Run(limits, s, ops), id, sid, token, until) {
      var front, op := ops[..|ops| - 1], ops[|ops| - 1];
      assert ops == front + [op];
      LostOnlyTo(limits, s, front, id, sid, token, until);
      if HeldBy(Run(limits, s, front), id, sid, token, until) {
        LosesNow(limits, s, front, op, id, sid, token, until);
      } else {
        var k: nat :| LosesAt(limits, s, front, k, id, sid, token, until);
        LosesLater(limits, s, front, op, k, id, sid, token, until);
      }
    }
  }

  /** In a run whose claims of the row all come before the lease expires, and in which no user edits
      or ends the schedule, a worker that has neither given up nor sent keeps its row and its lease:
      its schedule is still active, and while the space is active its writes go through. */
  lemma HolderKeepsItsRow(limits: Limits, s: Sys, ops: seq<Op>, id: Id, sid: Id, token: Id, until: Time, now: Time)
    requires Inv(limits, s) && AllAllowed(ops) && HeldBy(s, id, sid, token, until) && now < until
    requires forall k :: 0 <= k < |ops| ==> Spares(ops[k], id, sid, token, until)
    ensures
      var s' := Run(limits, s, ops);
      && HeldBy(s', id, sid, token, until) && IsActive(s'.db, sid)
      && (token in s'.workers && SpaceOn(s'.db, sid) ==> AtWork(s', token, now) && RowOf(s', token).value.id == id)
  {
    NeverLost(limits, s, ops, id, sid, token, until);
    InvAfter(limits, s, ops);
    StillAtWork(limits, Run(limits, s, ops), id, sid, token, until, now);
  }

  lemma NeverLost(limits: Limits, s: Sys, ops: seq<Op>, id: Id, sid: Id, token: Id, until: Time)
    requires Inv(limits, s) && AllAllowed(ops) && HeldBy(s, id, sid, token, until)
    requires forall k :: 0 <= k < |ops| ==> Spares(ops[k], id, sid, token, until)
    ensures HeldBy(Run(limits, s, ops), id, sid, token, until)
  {
    LostOnlyTo(limits, s, ops, id, sid, token, until);
    assert forall k: nat :: LosesAt(limits, s, ops, k, id, sid, token, until) ==>
      k < |ops| && !Spares(ops[k], id, sid, token, until);
  }

  lemma InvAfter(limits: Limits, s: Sys, ops: seq<Op>)
    requires Inv(limits, s) && AllAllowed(ops)
    ensures Inv(limits, Run(limits, s, ops))
  {
    RunKeeps(limits, s, ops);
  }

  lemma StillAtWork(limits: Limits, s: Sys, id: Id, sid: Id, token: Id, until: Time, now: Time)
    requires Inv(limits, s) && HeldBy(s, id, sid, token, until) && now < until
    ensures IsActive(s.db, sid)
    ensures token in s.workers && SpaceOn(s.db, sid) ==> AtWork(s, token, now) && RowOf(s, token).value.id == id
  {
    assert RowWellFormed(s.db, id) && ScheduleConsistent(s.db, sid) && PendingOf(s.db, sid, id);
  }

  /** The operation leaves this worker alone: it is no edit or ending of its schedule, no claim of its
      row after the lease, and not the worker's own retry, finish or dispatch. */
  predicate Spares(op: Op, id: Id, sid: Id, token: Id, until: Time) {
    match op
    case Edit(_, edited, _, _, _) => edited != sid
    case Terminate(_, ended, _, _) => ended != sid
    case Claim(claimed, now, _) => claimed == id ==> now < until
    case Retry(t, _, _, _) => t != token
    case Finish(t, _, _, _, _) => t != token
    case Dispatch(t, _, _, _, _) => t != token
    case _ => true
  }

  predicate SpaceOn(db: Db, sid: Id) {
    sid in db.schedules && db.schedules[sid].spaceId in db.spaces && db.spaces[db.schedules[sid].spaceId]
  }
}
