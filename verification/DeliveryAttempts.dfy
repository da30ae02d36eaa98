/** Attempts are counted: over every run the counters of a delivery are the numbers of reservations
    that went through for it, whatever edits, retries and later claims come in between. */
module DeliveryAttempts {
  import opened Options
  import opened ScheduledMessages
  import opened DeliveryProtocol
  import opened DeliveryRuns
  import opened DeliveryAccepts
  import opened DeliverySteps

  /** The step is a reservation for row id that is answered without an error. */
  ghost predicate Reserves(limits: Limits, s: Sys, op: Op, id: Id, c: Counter) {
    && op.Reserve? && op.counter == c
    && op.token in s.workers && s.workers[op.token].copy.id == id
    && ReserveTx(s.db, s.workers[op.token].copy, op.now, Max(limits, c), c).outcome == Done
  }

  /** How many reservations of this kind the run made for row id. */
  ghost function Reservations(limits: Limits, s: Sys, ops: seq<Op>, id: Id, c: Counter): nat {
    if ops == [] then 0
    else
      var front := ops[..|ops| - 1];
      Reservations(limits, s, front, id, c) + One(Reserves(limits, Run(limits, s, front), ops[|ops| - 1], id, c))
  }

  /** The attempts that the table counts for row id; none before the row is there. */
  ghost function Generations(db: Db, id: Id): int {
    if id in db.deliveries then db.deliveries[id].generationAttempts else 0
  }

  ghost function Dispatches(db: Db, id: Id): int {
    if id in db.deliveries then db.deliveries[id].deliveryAttempts else 0
  }

  lemma ReserveCounts(limits: Limits, s: Sys, op: Op, id: Id)
    requires Inv(limits, s) && op.Reserve? && id in s.db.deliveries
    ensures var db' := Apply(limits, s, op).db;
      && id in db'.deliveries
      && db'.deliveries[id].generationAttempts ==
           s.db.deliveries[id].generationAttempts + One(Reserves(limits, s, op, id, Generation))
      && db'.deliveries[id].deliveryAttempts ==
           s.db.deliveries[id].deliveryAttempts + One(Reserves(limits, s, op, id, Dispatching))
  {
    InvKeyed(limits, s);
    ReserveTells(limits, s, op.token, op.counter, op.now);
    if op.token in s.workers {
      WorkerInStep(limits, s, op.token);
      ReserveGoes(limits, s, op.token, op.counter, op.now);
    }
  }

  lemma NewRowCounts(limits: Limits, s: Sys, op: Op, id: Id, c: Counter)
    requires Inv(limits, s) && Allowed(op) && id !in s.db.deliveries
    ensures !Reserves(limits, s, op, id, c)
    ensures Generations(Apply(limits, s, op).db, id) == 0 == Dispatches(Apply(limits, s, op).db, id)
  {
    assert Reserves(limits, s, op, id, c) ==> WorkerOk(s.db, op.token, s.workers[op.token]);
    if id in Apply(limits, s, op).db.deliveries { NewRowFrom(limits, s, op, id); }
  }

  lemma OtherStepCounts(limits: Limits, s: Sys, op: Op, id: Id)
    requires Inv(limits, s) && Allowed(op) && !op.Reserve? && id in s.db.deliveries
    ensures var db' := Apply(limits, s, op).db;
      Generations(db', id) == Generations(s.db, id) && Dispatches(db', id) == Dispatches(s.db, id)
  {
    RowAfter(limits, s, op, id);
  }

  lemma StepCounts(limits: Limits, s: Sys, op: Op, id: Id)
    requires Inv(limits, s) && Allowed(op)
    ensures var db' := Apply(limits, s, op).db;
      && Generations(db', id) == Generations(s.db, id) + One(Reserves(limits, s, op, id, Generation))
      && Dispatches(db', id) == Dispatches(s.db, id) + One(Reserves(limits, s, op, id, Dispatching))
  {
    if id !in s.db.deliveries {
      NewRowCounts(limits, s, op, id, Generation);
      NewRowCounts(limits, s, op, id, Dispatching);
    } else if op.Reserve? {
      ReserveCounts(limits, s, op, id);
    } else {
      OtherStepCounts(limits, s, op, id);
    }
  }

  /** Over every run, from any state to any later one, each counter of a delivery grows by exactly the
      number of its reservations that went through. */
  lemma {:induction false} CountersCount(limits: Limits, s: Sys, ops: seq<Op>, id: Id)
    requires Inv(limits, s) && AllAllowed(ops)
    ensures var db' := Run(limits, s, ops).db;
      && Generations(db', id) == Generations(s.db, id) + Reservations(limits, s, ops, id, Generation)
      && Dispatches(db', id) == Dispatches(s.db, id) + Reservations(limits, s, ops, id, Dispatching)
  {
    if ops != [] {
      var front := ops[..|ops| - 1];
      CountersCount(limits, s, front, id);
      RunKeeps(limits, s, front);
      StepCounts(limits, Run(limits, s, front), ops[|ops| - 1], id);
    }
  }

  /** From the start on, no delivery gets more generations and no more dispatches than the maxima, and
      the sender accepts no delivery more often than dispatches were reserved for it. */
  lemma NeverMoreThanTheMaximum(limits: Limits, spaces: map<Id, bool>, ops: seq<Op>, id: Id)
    requires AllAllowed(ops)
    ensures Reservations(limits, Start(spaces), ops, id, Generation) <= limits.generation
    ensures Reservations(limits, Start(spaces), ops, id, Dispatching) <= limits.dispatching
    ensures |AcceptsOf(Run(limits, Start(spaces), ops), id)|
         <= Reservations(limits, Start(spaces), ops, id, Dispatching)
  {
    CountedFromTheStart(limits, spaces, ops, id);
    ReachableOk(limits, spaces, ops);
    AcceptsBounded(limits, spaces, ops, id);
    if id !in Run(limits, Start(spaces), ops).db.deliveries {
      SubsetOfRange(AcceptsOf(Run(limits, Start(spaces), ops), id), 0);
    }
  }

  /** A reservation goes through if and only if the worker's row is pending under its unexpired lease,
      the schedule and its space are active, and fewer than the maximum have gone through before. */
  lemma ReservesIff(limits: Limits, spaces: map<Id, bool>, ops: seq<Op>, token: Id, c: Counter, now: Time)
    requires AllAllowed(ops) && token in Run(limits, Start(spaces), ops).workers
    ensures
      var s := Run(limits, Start(spaces), ops);
      var id := s.workers[token].copy.id;
      && id in s.db.deliveries && s.db.deliveries[id].scheduleId in s.db.schedules
      && var d := s.db.deliveries[id];
         var schedule := s.db.schedules[d.scheduleId];
         Reserves(limits, s, Reserve(token, c, now), id, c) <==>
           && d.status == Pending && d.leaseToken == Some(token) && d.leaseUntil.Some? && now < d.leaseUntil.value
           && schedule.status == Active && schedule.spaceId in s.db.spaces && s.db.spaces[schedule.spaceId] == true
           && Reservations(limits, Start(spaces), ops, id, c)
                < (if c == Generation then limits.generation else limits.dispatching)
  {
    ReachableReserves(limits, spaces, ops, token, c, now);
    CountedFromTheStart(limits, spaces, ops, Run(limits, Start(spaces), ops).workers[token].copy.id);
  }

  lemma CountedFromTheStart(limits: Limits, spaces: map<Id, bool>, ops: seq<Op>, id: Id)
    requires AllAllowed(ops)
    ensures var db := Run(limits, Start(spaces), ops).db;
      && Generations(db, id) == Reservations(limits, Start(spaces), ops, id, Generation)
      && Dispatches(db, id) == Reservations(limits, Start(spaces), ops, id, Dispatching)
  {
    ReachableOk(limits, spaces, []);
    CountersCount(limits, Start(spaces), ops, id);
  }

  lemma ReachableReserves(limits: Limits, spaces: map<Id, bool>, ops: seq<Op>, token: Id, c: Counter, now: Time)
    requires AllAllowed(ops) && token in Run(limits, Start(spaces), ops).workers
    ensures
      var s := Run(limits, Start(spaces), ops);
      && RowOf(s, token).Some? && RowOf(s, token).value.scheduleId in s.db.schedules
      && (Reserves(limits, s, Reserve(token, c, now), s.workers[token].copy.id, c) <==>
            AtWork(s, token, now) && AttemptsLeft(limits, RowOf(s, token).value, c))
  {
    ReachableOk(limits, spaces, ops);
    ReservesNow(limits, Run(limits, Start(spaces), ops), token, c, now);
  }

  lemma ReservesNow(limits: Limits, s: Sys, token: Id, c: Counter, now: Time)
    requires Inv(limits, s) && token in s.workers
    ensures RowOf(s, token).Some? && RowOf(s, token).value.scheduleId in s.db.schedules
    ensures Reserves(limits, s, Reserve(token, c, now), s.workers[token].copy.id, c) <==>
      AtWork(s, token, now) && AttemptsLeft(limits, RowOf(s, token).value, c)
  {
    WorkerInStep(limits, s, token);
    ReserveGoes(limits, s, token, c, now);
  }
}
