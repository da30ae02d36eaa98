/** What each call makes of the reminders, in the fields of the rows alone, and whose text and time a
    reminder has in the end. */
module ReminderSteps {
  import opened Options
  import opened Reminders
  import opened ReminderRuns

  /** A row that is not deleted, of this space and key. */
  predicate OfKey(r: Reminder, spaceId: Id, key: Option<Key>) {
    r.deletedAt == None && r.spaceId == spaceId && key.Some? && r.key == key
  }

  /** A creation goes through unless a reminder of its key is pending that comes later or that the
      locking query could not see. */
  ghost predicate Goes(db: Db, d: Draft, unseen: set<Id>) {
    forall id :: id in db.rows && OfKey(db.rows[id], d.spaceId, d.key) && db.rows[id].status == Pending ==>
      id !in unseen && db.rows[id].scheduledAt <= d.scheduledAt
  }

  /** It cancels the pending reminder of its key and completes those that were sent for earlier times. */
  function Displaced(r: Reminder, d: Draft, seen: bool, now: Time): Reminder {
    if seen && OfKey(r, d.spaceId, d.key) && r.status == Pending then
      r.(status := Cancelled, deletedAt := Some(now), updatedAt := now)
    else if seen && OfKey(r, d.spaceId, d.key) && r.status == Sent && r.scheduledAt <= d.scheduledAt then
      r.(status := Completed, completedAt := Some(now), updatedAt := now)
    else r
  }

  ghost predicate AddMakes(s: Sys, d: Draft, unseen: set<Id>, now: Time, s': Sys) {
    && s'.clock == s.clock && s'.marks == s.marks
    && if Goes(s.db, d, unseen) then
         && s'.db.nextId == s.db.nextId + 1 && s'.db.rows.Keys == s.db.rows.Keys + {s.db.nextId}
         && s'.db.rows[s.db.nextId] == Reminder(
              s.db.nextId, d.spaceId, d.key, d.text, d.scheduledAt, Pending, None, None, None, None, now)
         && forall id :: id in s.db.rows && id != s.db.nextId ==>
              s'.db.rows[id] == Displaced(s.db.rows[id], d, id !in unseen, now)
       else s'.db == s.db
  }

  lemma AddTells(s: Sys, d: Draft, unseen: set<Id>, now: Time)
    ensures AddMakes(s, d, unseen, now, Apply(s, Add(d, unseen, now)))
  {
    if Goes(s.db, d, unseen) {
      assert Adds(s.db, d, unseen);
    } else {
      var id :| id in s.db.rows && OfKey(s.db.rows[id], d.spaceId, d.key) && s.db.rows[id].status == Pending
                && !(id !in unseen && s.db.rows[id].scheduledAt <= d.scheduledAt);
      assert PendingFor(s.db, d.spaceId, d.key.value, id);
      assert id !in unseen ==> Replaces(s.db, d, unseen, id);
    }
  }

  /** A pending reminder of the key of this creation. */
  predicate Rivals(db: Db, d: Draft, id: Id) {
    id in db.rows && OfKey(db.rows[id], d.spaceId, d.key) && db.rows[id].status == Pending
  }

  /** The answer of a creation: a later reminder that it sees is kept; otherwise one that it cannot see
      violates the index; otherwise it replaces the one there is, or is the only one. */
  lemma AddAnswers(db: Db, d: Draft, unseen: set<Id>)
    ensures AddOutcome(db, d, unseen) == KeptExisting <==>
      exists id :: Rivals(db, d, id) && id !in unseen && db.rows[id].scheduledAt > d.scheduledAt
    ensures AddOutcome(db, d, unseen) == Violation <==>
      && (exists id :: Rivals(db, d, id) && id in unseen)
      && forall id :: Rivals(db, d, id) && id !in unseen ==> db.rows[id].scheduledAt <= d.scheduledAt
    ensures AddOutcome(db, d, unseen) == Replaced <==> Goes(db, d, unseen) && exists id :: Rivals(db, d, id)
    ensures AddOutcome(db, d, unseen) == Created <==> forall id :: !Rivals(db, d, id)
  {
    assert forall id :: Replaces(db, d, unseen, id) <==> Rivals(db, d, id) && id !in unseen;
    assert forall id :: Rivals(db, d, id) ==> d.key.Some? && PendingFor(db, d.spaceId, d.key.value, id);
    assert forall id :: d.key.Some? && PendingFor(db, d.spaceId, d.key.value, id) ==> Rivals(db, d, id);
  }

  /** Pending, due, not notified, and claimed by nobody within the lease. */
  predicate Free(db: Db, id: Id, now: Time, lease: Time) {
    && id in db.rows && db.rows[id].deletedAt == None && db.rows[id].status == Pending
    && db.rows[id].scheduledAt <= now && db.rows[id].notifiedAt == None
    && (db.rows[id].claimedAt.None? || db.rows[id].claimedAt.value < now - lease)
  }

  /** The holder of the claim of this time, on a pending reminder that is not notified. */
  predicate HeldSince(db: Db, id: Id, claimedAt: Time) {
    && id in db.rows && db.rows[id].deletedAt == None && db.rows[id].status == Pending
    && db.rows[id].notifiedAt == None && db.rows[id].claimedAt == Some(claimedAt)
  }

  predicate LiveOf(db: Db, spaceId: Id, id: Id) {
    id in db.rows && db.rows[id].deletedAt == None && db.rows[id].spaceId == spaceId
  }

  function With(s: Sys, id: Id, r: Reminder): Sys { s.(db := s.db.(rows := s.db.rows[id := r])) }

  ghost predicate Makes(s: Sys, op: Op, s': Sys) {
    match op
    case Add(d, unseen, now) => AddMakes(s, d, unseen, now, s')
    case Claim(ids, now, lease) =>
      if s.clock <= now && (forall id :: id in ids ==> Free(s.db, id, now, lease)) then
        && s'.clock == now && s'.marks == s.marks && s'.db.nextId == s.db.nextId
        && s'.db.rows.Keys == s.db.rows.Keys
        && forall id :: id in s.db.rows ==>
             s'.db.rows[id] == if id in ids then s.db.rows[id].(claimedAt := Some(now), updatedAt := now)
                               else s.db.rows[id]
      else s' == s
    case Mark(id, claimedAt, sentAt) =>
      if HeldSince(s.db, id, claimedAt) then
        s' == With(s, id, s.db.rows[id].(notifiedAt := Some(sentAt), claimedAt := None, status := Sent,
                                         updatedAt := sentAt)).(marks := s.marks + [id])
      else s' == s
    case Release(id, claimedAt, at) =>
      if HeldSince(s.db, id, claimedAt) then s' == With(s, id, s.db.rows[id].(claimedAt := None, updatedAt := at))
      else s' == s
    case Complete(spaceId, id, at) =>
      if LiveOf(s.db, spaceId, id) && s.db.rows[id].status in {Pending, Sent} then
        s' == With(s, id, s.db.rows[id].(status := Completed, completedAt := Some(at), updatedAt := at))
      else s' == s
    case Update(spaceId, id, f, at) =>
      if LiveOf(s.db, spaceId, id) && s.db.rows[id].status == Pending && (f.text.Some? || f.scheduledAt.Some?) then
        s' == With(s, id, s.db.rows[id].(
          text := if f.text.Some? then f.text.value else s.db.rows[id].text,
          scheduledAt := if f.scheduledAt.Some? then f.scheduledAt.value else s.db.rows[id].scheduledAt,
          updatedAt := at))
      else s' == s
    case Delete(spaceId, id, status, at) =>
      if LiveOf(s.db, spaceId, id) then
        s' == With(s, id, s.db.rows[id].(status := status, deletedAt := Some(at), updatedAt := at))
      else s' == s
  }

  lemma ApplyMakes(s: Sys, op: Op)
    ensures Makes(s, op, Apply(s, op))
  {
    match op {
      case Add(d, unseen, now) => AddTells(s, d, unseen, now);
      case Claim(ids, now, lease) =>
        assert forall id :: Claimable(s.db, id, now, now - lease) <==> Free(s.db, id, now, lease);
      case _ =>
    }
  }

  // --------------------------------------------------------- whole runs

  /** The text and the time that a call gives to reminder id, when it goes through. */
  ghost function Gives(s: Sys, op: Op, id: Id): (Option<Text>, Option<Time>) {
    match op
    case Add(d, unseen, _) =>
      if id == s.db.nextId && Goes(s.db, d, unseen) then (Some(d.text), Some(d.scheduledAt)) else (None, None)
    case Update(spaceId, updated, f, _) =>
      if updated == id && LiveOf(s.db, spaceId, id) && s.db.rows[id].status == Pending then (f.text, f.scheduledAt)
      else (None, None)
    case _ => (None, None)
  }

  ghost function LastText(s: Sys, ops: seq<Op>, id: Id): Option<Text> {
    if ops == [] then None
    else
      var front := ops[..|ops| - 1];
      var given := Gives(Run(s, front), ops[|ops| - 1], id).0;
      if given.Some? then given else LastText(s, front, id)
  }

  ghost function LastTime(s: Sys, ops: seq<Op>, id: Id): Option<Time> {
    if ops == [] then None
    else
      var front := ops[..|ops| - 1];
      var given := Gives(Run(s, front), ops[|ops| - 1], id).1;
      if given.Some? then given else LastTime(s, front, id)
  }

  lemma GivenMade(s: Sys, op: Op, s': Sys, id: Id)
    requires Makes(s, op, s') && s.db.nextId !in s.db.rows && id in s'.db.rows
    ensures var given := Gives(s, op, id);
      && s'.db.rows[id].text ==
           (if given.0.Some? then given.0.value else if id in s.db.rows then s.db.rows[id].text else "")
      && s'.db.rows[id].scheduledAt ==
           (if given.1.Some? then given.1.value else if id in s.db.rows then s.db.rows[id].scheduledAt else 0)
    ensures (Gives(s, op, id).0.Some? && Gives(s, op, id).1.Some?) || id in s.db.rows
  {
  }

  /** In every reachable state each reminder has the text and the time that its creation gave it or,
      since then, the last update that went through and named one; no claim, notification, completion
      or deletion and no other creation changes them. */
  lemma {:induction false} TextAndTimeAreTheLastGiven(clock: Time, ops: seq<Op>, id: Id)
    requires AllAllowed(ops) && id in Run(Start(clock), ops).db.rows
    ensures var r := Run(Start(clock), ops).db.rows[id];
      LastText(Start(clock), ops, id) == Some(r.text) && LastTime(Start(clock), ops, id) == Some(r.scheduledAt)
  {
    if ops != [] {
      var front, op := ops[..|ops| - 1], ops[|ops| - 1];
      assert AllAllowed(front);
      var s := Run(Start(clock), front);
      ReachableOk(clock, front);
      assert s.db.nextId in s.db.rows ==> RowOk(s, s.db.nextId);
      ApplyMakes(s, op);
      GivenMade(s, op, Apply(s, op), id);
      if id in s.db.rows { TextAndTimeAreTheLastGiven(clock, front, id); }
    }
  }
}
