/** Which text is sent: a user's last edit reaches the pending delivery, and a delivery of a fixed
    schedule carries the schedule's text, as long as the service hands that text over. */
module DeliveryContents {
  import opened Options
  import opened ScheduledMessages
  import opened DeliveryProtocol
  import opened DeliveryRuns
  import opened DeliveryAccepts
  import opened DeliverySteps

  /** The one pending row of the schedule. */
  ghost predicate OnlyPending(db: Db, sid: Id, id: Id) {
    PendingOf(db, sid, id) && forall j :: PendingOf(db, sid, j) ==> j == id
  }

  /** Pending for `next`: at its instant, to be tried then, with its content and no history of a lease,
      a failure or a send; the attempts are those that the row had before, or none. */
  predicate FromNext(db: Db, id: Id, d: Delivery, next: NewDelivery) {
    && d.status == Pending && d.scheduledAt == next.scheduledAt && d.nextAttemptAt == Some(next.scheduledAt)
    && d.content == next.content
    && d.leaseToken == None && d.leaseUntil == None && d.failure == None && d.sentAt == None
    && d.generationAttempts == (if id in db.deliveries then db.deliveries[id].generationAttempts else 0)
    && d.deliveryAttempts == (if id in db.deliveries then db.deliveries[id].deliveryAttempts else 0)
  }

  /** A successful edit leaves one pending delivery of the schedule, prepared for `next`; every other
      row that was pending is cancelled, and the schedule has the given text and the new instant. */
  lemma EditedRowTells(limits: Limits, s: Sys, spaceId: Id, sid: Id, f: UpdateFields, next: NewDelivery, now: Time)
    requires Inv(limits, s) && MayEdit(s.db, spaceId, sid, Some(next))
    ensures
      var db' := Apply(limits, s, Edit(spaceId, sid, f, Some(next), now)).db;
      && (exists id :: OnlyPending(db', sid, id) && FromNext(s.db, id, db'.deliveries[id], next))
      && (forall id :: PendingOf(s.db, sid, id) && s.db.deliveries[id].scheduledAt != next.scheduledAt ==>
           id in db'.deliveries && db'.deliveries[id].status == Cancelled && db'.deliveries[id].leaseToken == None)
      && sid in db'.schedules && db'.schedules[sid].nextScheduledAt == Some(next.scheduledAt)
      && (f.content.Some? ==> db'.schedules[sid].content == f.content.value)
  {
    InvKeyed(limits, s);
    EditTells(limits, s, spaceId, sid, f, Some(next), now);
    PendingAfterEdit(s, spaceId, sid, f, next, now, Apply(limits, s, Edit(spaceId, sid, f, Some(next), now)));
  }

  lemma PendingAfterEdit(s: Sys, spaceId: Id, sid: Id, f: UpdateFields, next: NewDelivery, now: Time, s': Sys)
    requires Keyed(s) && OccurrencesUnique(s.db) && MayEdit(s.db, spaceId, sid, Some(next))
    requires EditMakes(s, spaceId, sid, f, Some(next), now, s')
    ensures exists id :: OnlyPending(s'.db, sid, id) && FromNext(s.db, id, s'.db.deliveries[id], next)
  {
    var id := EditedRowId(s.db, sid, next.scheduledAt);
    assert PendingOf(s'.db, sid, id);
    forall j | PendingOf(s'.db, sid, j) ensures j == id {
      assert j in s.db.deliveries ==> At(s.db.deliveries[j], sid, next.scheduledAt);
    }
  }

  ghost function EditedRowId(db: Db, sid: Id, at: Time): (id: Id)
    ensures NoRowAt(db, sid, at) ==> id == db.nextId
    ensures !NoRowAt(db, sid, at) ==> id in db.deliveries && At(db.deliveries[id], sid, at)
  {
    if NoRowAt(db, sid, at) then db.nextId
    else (var id :| id in db.deliveries && At(db.deliveries[id], sid, at); id)
  }

  // ------------------------------------------------ the text of a schedule

  /** Row content fits the schedule: with a fixed text, it is that text. */
  predicate Fits(schedule: Schedule, content: Option<Text>) {
    schedule.mode == Fixed ==> content == Some(schedule.content)
  }

  predicate Carries(db: Db, id: Id) {
    id in db.deliveries && db.deliveries[id].status == Pending ==>
      && db.deliveries[id].scheduleId in db.schedules
      && Fits(db.schedules[db.deliveries[id].scheduleId], db.deliveries[id].content)
  }

  /** Every pending delivery of a schedule with a fixed text carries the schedule's present text. */
  ghost predicate AllCarry(db: Db) { forall id :: Carries(db, id) }

  /** The service hands the text of the schedule to the rows that it prepares: of the one that it
      creates, of the one that the edit makes of the present one, and of the one that its worker loaded;
      and it persists generated text only when the schedule that it loaded asks for that. */
  ghost predicate HandsOver(s: Sys, op: Op) {
    match op
    case Create(d, _) => d.snapshot.Some? ==> Fits(d.schedule, d.snapshot)
    case Edit(_, sid, f, next, now) =>
      (sid in s.db.schedules && next.Some? ==>
        Fits(EditedTo(s.db.schedules[sid], f, next.value, now), next.value.content))
    case Persist(token, _, _) =>
      token in s.workers ==> s.workers[token].schedule.Some? && s.workers[token].schedule.value.mode == AI
    case Finish(token, _, next, _, _) =>
      token in s.workers && s.workers[token].schedule.Some? && next.Some? ==>
        Fits(s.workers[token].schedule.value, next.value.content)
    case Dispatch(token, _, _, reply, _) =>
      (NextOf(reply).Some? && RowOf(s, token).Some? && RowOf(s, token).value.scheduleId in s.db.schedules ==>
        Fits(s.db.schedules[RowOf(s, token).value.scheduleId], NextOf(reply).value.content))
    case _ => true
  }

  /** A worker whose token is on its row knows the row's content and its schedule. */
  predicate Knows(s: Sys, token: Id) {
    token in s.workers && RowOf(s, token).Some? && RowOf(s, token).value.leaseToken == Some(token) ==>
      && RowOf(s, token).value.scheduleId in s.db.schedules
      && s.workers[token].copy.content == RowOf(s, token).value.content
      && (s.workers[token].schedule.Some? ==>
            s.workers[token].schedule.value == s.db.schedules[RowOf(s, token).value.scheduleId])
  }

  lemma InvKnows(limits: Limits, s: Sys)
    requires Inv(limits, s)
    ensures Keyed(s) && forall token :: Knows(s, token)
    ensures forall id :: id in s.db.deliveries ==> s.db.deliveries[id].scheduleId in s.db.schedules
    ensures s.db.nextId !in s.db.schedules
  {
    InvKeyed(limits, s);
    forall token ensures Knows(s, token) {
      assert token in s.workers ==> WorkerOk(s.db, token, s.workers[token]);
    }
    assert forall id :: id in s.db.deliveries ==> RowWellFormed(s.db, id);
  }

  lemma OldRowCarries(limits: Limits, s: Sys, op: Op, s': Sys, id: Id)
    requires Keyed(s) && s.db.nextId !in s.db.schedules && (forall token :: Knows(s, token))
    requires Makes(limits, s, op, s') && HandsOver(s, op)
    requires id in s.db.deliveries && s.db.deliveries[id].scheduleId in s.db.schedules && Carries(s.db, id)
    ensures Carries(s'.db, id)
  {
    RowMade(limits, s, op, s', id);
    ScheduleMade(limits, s, op, s', s.db.deliveries[id].scheduleId);
    if op.Persist? { assert Knows(s, op.token); }
  }

  lemma NewRowCarries(limits: Limits, s: Sys, op: Op, s': Sys, id: Id)
    requires Keyed(s) && s.db.nextId !in s.db.schedules && (forall token :: Knows(s, token))
    requires Makes(limits, s, op, s') && Allowed(op) && HandsOver(s, op)
    requires id !in s.db.deliveries
    ensures Carries(s'.db, id)
  {
    if id in s'.db.deliveries {
      NewRowMade(limits, s, op, s', id);
      if s'.db.deliveries[id].scheduleId in s.db.schedules {
        ScheduleMade(limits, s, op, s', s'.db.deliveries[id].scheduleId);
      }
      if op.Finish? { assert Knows(s, op.token); }
    }
  }

  ghost predicate AllHandOver(limits: Limits, s: Sys, ops: seq<Op>) {
    forall k :: 0 <= k < |ops| ==> HandsOver(Run(limits, s, ops[..k]), ops[k])
  }

  lemma StepCarries(limits: Limits, s: Sys, op: Op)
    requires Inv(limits, s) && Allowed(op) && HandsOver(s, op) && AllCarry(s.db)
    ensures AllCarry(Apply(limits, s, op).db)
  {
    InvKnows(limits, s);
    ApplyMakes(limits, s, op);
    forall id ensures Carries(Apply(limits, s, op).db, id) {
      if id in s.db.deliveries {
        OldRowCarries(limits, s, op, Apply(limits, s, op), id);
      } else {
        NewRowCarries(limits, s, op, Apply(limits, s, op), id);
      }
    }
  }

  lemma HandOverFront(limits: Limits, s: Sys, ops: seq<Op>)
    requires ops != [] && AllHandOver(limits, s, ops)
    ensures AllHandOver(limits, s, ops[..|ops| - 1])
    ensures HandsOver(Run(limits, s, ops[..|ops| - 1]), ops[|ops| - 1])
  {
    var front := ops[..|ops| - 1];
    assert forall k :: 0 <= k < |front| ==> front[..k] == ops[..k];
  }

  /** Over every run in which the service hands the texts over, every pending delivery of a schedule
      with a fixed text carries the text that the schedule has now, after any edits. */
  lemma {:induction false} TextsAreCarried(limits: Limits, spaces: map<Id, bool>, ops: seq<Op>)
    requires AllAllowed(ops) && AllHandOver(limits, Start(spaces), ops)
    ensures AllCarry(Run(limits, Start(spaces), ops).db)
  {
    if ops != [] {
      HandOverFront(limits, Start(spaces), ops);
      TextsAreCarried(limits, spaces, ops[..|ops| - 1]);
      ReachableOk(limits, spaces, ops[..|ops| - 1]);
      StepCarries(limits, Run(limits, Start(spaces), ops[..|ops| - 1]), ops[|ops| - 1]);
    }
  }

  // ------------------------------------------------------- the latest edit

  /** The text that a creation, or an edit that goes through, gives to the schedule. */
  ghost function GivesText(s: Sys, op: Op, sid: Id): Option<Text> {
    match op
    case Create(d, _) =>
      if sid == s.db.nextId && d.firstAt == d.schedule.startAt then Some(d.schedule.content) else None
    case Edit(spaceId, edited, f, next, _) =>
      if edited == sid && MayEdit(s.db, spaceId, sid, next) then f.content else None
    case _ => None
  }

  /** The text that the last of them gave. */
  ghost function LatestText(limits: Limits, s: Sys, ops: seq<Op>, sid: Id): Option<Text> {
    if ops == [] then None
    else
      var front := ops[..|ops| - 1];
      var given := GivesText(Run(limits, s, front), ops[|ops| - 1], sid);
      if given.Some? then given else LatestText(limits, s, front, sid)
  }

  lemma TextMade(limits: Limits, s: Sys, op: Op, s': Sys, sid: Id)
    requires Keyed(s) && Makes(limits, s, op, s') && s.db.nextId !in s.db.schedules && sid in s'.db.schedules
    ensures GivesText(s, op, sid).Some? ==> s'.db.schedules[sid].content == GivesText(s, op, sid).value
    ensures GivesText(s, op, sid).None? ==>
      sid in s.db.schedules && s'.db.schedules[sid].content == s.db.schedules[sid].content
  {
  }

  lemma {:induction false} TextIsLatestEdit(limits: Limits, spaces: map<Id, bool>, ops: seq<Op>, sid: Id)
    requires AllAllowed(ops) && sid in Run(limits, Start(spaces), ops).db.schedules
    ensures Some(Run(limits, Start(spaces), ops).db.schedules[sid].content)
         == LatestText(limits, Start(spaces), ops, sid)
  {
    if ops != [] {
      var front, op := ops[..|ops| - 1], ops[|ops| - 1];
      var s := Run(limits, Start(spaces), front);
      ReachableOk(limits, spaces, front);
      InvKnows(limits, s);
      ApplyMakes(limits, s, op);
      TextMade(limits, s, op, Apply(limits, s, op), sid);
      if GivesText(s, op, sid).None? { TextIsLatestEdit(limits, spaces, front, sid); }
    }
  }

  /** What the worker sends: the content of its copy, or else the fixed text of its schedule. */
  function TextSent(w: Worker): Option<Text> {
    if w.copy.content.Some? then w.copy.content
    else if w.schedule.Some? && w.schedule.value.mode == Fixed then Some(w.schedule.value.content)
    else None
  }

  lemma SentIsCarried(limits: Limits, s: Sys, op: Op)
    requires Inv(limits, s) && AllCarry(s.db) && op.Dispatch? && Apply(limits, s, op).accepted != s.accepted
    ensures
      && op.token in s.workers && RowOf(s, op.token).Some?
      && var sid := RowOf(s, op.token).value.scheduleId;
         && sid in s.db.schedules && s.db.schedules[sid].status == Active
         && (s.db.schedules[sid].mode == Fixed ==> TextSent(s.workers[op.token]) == Some(s.db.schedules[sid].content))
  {
    InvKnows(limits, s);
    DispatchTells(limits, s, op.token, op.now, op.targetValid, op.reply, op.commitOk);
    assert Knows(s, op.token) && Carries(s.db, RowOf(s, op.token).value.id);
  }

  /** A message of a schedule with a fixed text that the sender accepts is the text of the last edit,
      or of the creation, whatever copies the workers loaded before. */
  lemma LatestTextIsSent(limits: Limits, spaces: map<Id, bool>, ops: seq<Op>, op: Op)
    requires AllAllowed(ops) && AllHandOver(limits, Start(spaces), ops) && op.Dispatch?
    requires var s := Run(limits, Start(spaces), ops); Apply(limits, s, op).accepted != s.accepted
    ensures
      var s := Run(limits, Start(spaces), ops);
      && op.token in s.workers && RowOf(s, op.token).Some?
      && var sid := RowOf(s, op.token).value.scheduleId;
         && sid in s.db.schedules
         && (s.db.schedules[sid].mode == Fixed ==>
              TextSent(s.workers[op.token]) == LatestText(limits, Start(spaces), ops, sid))
  {
    var s := Run(limits, Start(spaces), ops);
    TextsAreCarried(limits, spaces, ops);
    ReachableOk(limits, spaces, ops);
    SentIsCarried(limits, s, op);
    TextIsLatestEdit(limits, spaces, ops, RowOf(s, op.token).value.scheduleId);
  }

  // ------------------------------------------------------- edits that race

  function ModeAfter(schedule: Schedule, f: UpdateFields): ContentMode {
    if f.mode.Some? then f.mode.value else schedule.mode
  }

  function TextAfter(schedule: Schedule, f: UpdateFields): Text {
    if f.content.Some? then f.content.value else schedule.content
  }

  /** What the service prepares for an edit, from the schedule as it read it before the edit. */
  function PreparedNext(read: Schedule, f: UpdateFields, at: Time): NewDelivery {
    NewDelivery(at, if ModeAfter(read, f) == Fixed then Some(TextAfter(read, f)) else None)
  }

  /** An edit prepared from a schedule that was read before hands over the text of the schedule if and
      only if, where the text ends up fixed, it does so for what was read too, with the same text. */
  lemma StaleEditIff(s: Sys, spaceId: Id, sid: Id, f: UpdateFields, read: Schedule, at: Time, now: Time)
    requires sid in s.db.schedules
    ensures HandsOver(s, Edit(spaceId, sid, f, Some(PreparedNext(read, f, at)), now)) <==>
      (ModeAfter(s.db.schedules[sid], f) == Fixed ==>
        ModeAfter(read, f) == Fixed && TextAfter(read, f) == TextAfter(s.db.schedules[sid], f))
  {
  }

  /** And if it goes through, that decides whether the pending delivery carries the schedule's text. */
  lemma EditCarriesIff(limits: Limits, s: Sys, spaceId: Id, sid: Id, f: UpdateFields, next: NewDelivery, now: Time)
    requires Inv(limits, s) && MayEdit(s.db, spaceId, sid, Some(next))
    ensures var s' := Apply(limits, s, Edit(spaceId, sid, f, Some(next), now));
      (forall id :: PendingOf(s'.db, sid, id) ==> Carries(s'.db, id)) <==>
        HandsOver(s, Edit(spaceId, sid, f, Some(next), now))
  {
    var op := Edit(spaceId, sid, f, Some(next), now);
    EditedRowTells(limits, s, spaceId, sid, f, next, now);
    EditTells(limits, s, spaceId, sid, f, Some(next), now);
  }

  const NEW_TEXT: UpdateFields := UpdateFields(None, Some("ho"), None, None, None)

  const NEW_RECURRENCE: UpdateFields := UpdateFields(None, None, Some(Weekly), None, None)

  function RacingEdits(): seq<Op> {
    [Create(DRAFT, 0), Edit(0, 0, NEW_TEXT, Some(NewDelivery(DAY, Some("ho"))), 2),
     Edit(0, 0, NEW_RECURRENCE, Some(On(DAY)), 3)]
  }

  lemma RacingEditsRun(limits: Limits)
    ensures
      var s0 := Start(map[0 := true]);
      var s1 := Apply(limits, s0, RacingEdits()[0]);
      var s2 := Apply(limits, s1, RacingEdits()[1]);
      var s3 := Apply(limits, s2, RacingEdits()[2]);
      && 0 in s1.db.schedules && 0 in s2.db.schedules
      && RacingEdits()[1].next == Some(PreparedNext(s1.db.schedules[0], NEW_TEXT, DAY))
      && RacingEdits()[2].next == Some(PreparedNext(s1.db.schedules[0], NEW_RECURRENCE, DAY))
      && 0 in s3.db.schedules && s3.db.schedules[0].mode == Fixed && s3.db.schedules[0].content == "ho"
      && PendingOf(s3.db, 0, 1) && s3.db.deliveries[1].content == Some("hi")
  {
    var s0 := Start(map[0 := true]);
    var s1 := Apply(limits, s0, RacingEdits()[0]);
    assert s1.db.deliveries.Keys == {1};
    assert Occupies(s1.db, 0, DAY, 1) && RowAt(s1.db, 0, DAY) == Some(1);
    var s2 := Apply(limits, s1, RacingEdits()[1]);
    assert s2.db.deliveries.Keys == {1};
    assert Occupies(s2.db, 0, DAY, 1) && RowAt(s2.db, 0, DAY) == Some(1);
  }

  lemma RunsThree(limits: Limits, s: Sys, a: Op, b: Op, c: Op)
    ensures Run(limits, s, [a, b, c]) == Apply(limits, Apply(limits, Apply(limits, s, a), b), c)
  {
    RunSnoc(limits, s, [], a);
    RunSnoc(limits, s, [a], b);
    RunSnoc(limits, s, [a, b], c);
    assert [] + [a] == [a] && [a] + [b] == [a, b] && [a, b] + [c] == [a, b, c];
  }

  /** Two edits that were both prepared from the schedule as created, one of the text and one of the
      recurrence: both go through, and the pending delivery keeps the old text for the sender. */
  lemma RacingEditsKeepTheOldText(limits: Limits)
    ensures
      var created := Run(limits, Start(map[0 := true]), [Create(DRAFT, 0)]);
      && RacingEdits()[0] == Create(DRAFT, 0) && 0 in created.db.schedules
      && RacingEdits()[1].next == Some(PreparedNext(created.db.schedules[0], NEW_TEXT, DAY))
      && RacingEdits()[2].next == Some(PreparedNext(created.db.schedules[0], NEW_RECURRENCE, DAY))
    ensures
      var s := Run(limits, Start(map[0 := true]), RacingEdits());
      && AllAllowed(RacingEdits()) && PendingOf(s.db, 0, 1)
      && LatestText(limits, Start(map[0 := true]), RacingEdits(), 0) == Some("ho")
      && s.db.deliveries[1].content == Some("hi")
  {
    var s0, ops := Start(map[0 := true]), RacingEdits();
    RunsThree(limits, s0, ops[0], ops[1], ops[2]);
    RunSnoc(limits, s0, [], ops[0]);
    assert [] + [ops[0]] == [Create(DRAFT, 0)];
    RacingEditsRun(limits);
    TextIsLatestEdit(limits, map[0 := true], ops, 0);
  }
}
