/** Reminders: rows, statuses and the transactions of the repository, each a function from one state
    of the table to the next. Every query sees only rows that are not deleted. */
module Reminders {
  import opened Options

  type Id = nat
  type Time = int
  type Key = string
  type Text = string

  datatype Status = Pending | Sent | Completed | Cancelled

  /** text stands for the title, the description and the assignee. */
  datatype Reminder = Reminder(
    id: Id, spaceId: Id, key: Option<Key>, text: Text, scheduledAt: Time, status: Status,
    claimedAt: Option<Time>, notifiedAt: Option<Time>, completedAt: Option<Time>,
    deletedAt: Option<Time>, updatedAt: Time)

  datatype Db = Db(rows: map<Id, Reminder>, nextId: Id)

  /** What the service hands to CreateReplacing; it always asks for a pending reminder. */
  datatype Draft = Draft(spaceId: Id, key: Option<Key>, text: Text, scheduledAt: Time)

  datatype UpdateFields = UpdateFields(text: Option<Text>, scheduledAt: Option<Time>)

  predicate Live(r: Reminder) { r.deletedAt.None? }

  predicate LivePending(db: Db, id: Id) { id in db.rows && Live(db.rows[id]) && db.rows[id].status.Pending? }

  predicate HasKey(r: Reminder, spaceId: Id, key: Key) { r.spaceId == spaceId && r.key == Some(key) }

  /** The rows that the partial unique index covers. */
  predicate PendingFor(db: Db, spaceId: Id, key: Key, id: Id) {
    LivePending(db, id) && HasKey(db.rows[id], spaceId, key)
  }

  predicate SentFor(db: Db, spaceId: Id, key: Key, id: Id) {
    id in db.rows && Live(db.rows[id]) && db.rows[id].status.Sent? && HasKey(db.rows[id], spaceId, key)
  }

  function NewRow(db: Db, d: Draft, now: Time): Reminder {
    Reminder(db.nextId, d.spaceId, d.key, d.text, d.scheduledAt, Pending, None, None, None, None, now)
  }

  function Insert(db: Db, d: Draft, now: Time): Db { Db(db.rows[db.nextId := NewRow(db, d, now)], db.nextId + 1) }

  // ------------------------------------------------------- replacement

  /** unseen: rows that others committed after the snapshot of the locking query was taken. */
  predicate Replaces(db: Db, d: Draft, unseen: set<Id>, id: Id) {
    d.key.Some? && PendingFor(db, d.spaceId, d.key.value, id) && id !in unseen
  }

  /** Sent reminders that were due no later than the new event. */
  predicate Supersedes(db: Db, d: Draft, unseen: set<Id>, id: Id) {
    d.key.Some? && SentFor(db, d.spaceId, d.key.value, id) && id !in unseen && db.rows[id].scheduledAt <= d.scheduledAt
  }

  ghost predicate KeepsLater(db: Db, d: Draft, unseen: set<Id>) {
    exists id :: Replaces(db, d, unseen, id) && db.rows[id].scheduledAt > d.scheduledAt
  }

  /** The insert would be the second live pending row of its key. */
  ghost predicate Violates(db: Db, d: Draft, unseen: set<Id>) {
    exists id :: d.key.Some? && PendingFor(db, d.spaceId, d.key.value, id) && id in unseen
  }

  function CancelledRow(r: Reminder, now: Time): Reminder {
    r.(status := Cancelled, deletedAt := Some(now), updatedAt := now)
  }

  function CompletedRow(r: Reminder, now: Time): Reminder {
    r.(status := Completed, completedAt := Some(now), updatedAt := now)
  }

  function ReplaceRow(db: Db, d: Draft, unseen: set<Id>, now: Time, id: Id): Reminder
    requires id in db.rows
  {
    if Replaces(db, d, unseen, id) then CancelledRow(db.rows[id], now)
    else if Supersedes(db, d, unseen, id) then CompletedRow(db.rows[id], now)
    else db.rows[id]
  }

  function Cleared(db: Db, d: Draft, unseen: set<Id>, now: Time): Db {
    db.(rows := map id | id in db.rows :: ReplaceRow(db, d, unseen, now, id))
  }

  datatype Outcome = Created | Replaced | KeptExisting | Violation

  /** replaceOnce, and Create for a draft without a key. */
  ghost function AddOutcome(db: Db, d: Draft, unseen: set<Id>): Outcome {
    if KeepsLater(db, d, unseen) then KeptExisting
    else if Violates(db, d, unseen) then Violation
    else if exists id :: Replaces(db, d, unseen, id) then Replaced
    else Created
  }

  ghost predicate Adds(db: Db, d: Draft, unseen: set<Id>) { !KeepsLater(db, d, unseen) && !Violates(db, d, unseen) }

  ghost function AddTx(db: Db, d: Draft, unseen: set<Id>, now: Time): Db {
    if Adds(db, d, unseen) then Insert(Cleared(db, d, unseen, now), d, now) else db
  }

  // ------------------------------------------------------ notification

  predicate Claimable(db: Db, id: Id, now: Time, staleBefore: Time) {
    && LivePending(db, id) && db.rows[id].scheduledAt <= now && db.rows[id].notifiedAt.None?
    && (db.rows[id].claimedAt.None? || db.rows[id].claimedAt.value < staleBefore)
  }

  function ClaimedRow(r: Reminder, now: Time): Reminder { r.(claimedAt := Some(now), updatedAt := now) }

  function ClaimTx(db: Db, ids: set<Id>, now: Time): Db {
    db.(rows := map id | id in db.rows :: if id in ids then ClaimedRow(db.rows[id], now) else db.rows[id])
  }

  /** The guard of MarkNotificationSent and ReleaseNotificationClaim. */
  predicate Owns(db: Db, id: Id, claimedAt: Time) {
    LivePending(db, id) && db.rows[id].notifiedAt.None? && db.rows[id].claimedAt == Some(claimedAt)
  }

  function PutRow(db: Db, r: Reminder): Db { db.(rows := db.rows[r.id := r]) }

  function MarkTx(db: Db, id: Id, claimedAt: Time, sentAt: Time): Db {
    if !Owns(db, id, claimedAt) then db
    else db.(rows :=
      db.rows[id := db.rows[id].(notifiedAt := Some(sentAt), claimedAt := None, status := Sent, updatedAt := sentAt)])
  }

  function ReleaseTx(db: Db, id: Id, claimedAt: Time, at: Time): Db {
    if !Owns(db, id, claimedAt) then db
    else db.(rows := db.rows[id := db.rows[id].(claimedAt := None, updatedAt := at)])
  }

  // ------------------------------------------------------- user writes

  predicate LiveIn(db: Db, spaceId: Id, id: Id) { id in db.rows && Live(db.rows[id]) && db.rows[id].spaceId == spaceId }

  predicate Unfinished(db: Db, spaceId: Id, id: Id) {
    LiveIn(db, spaceId, id) && (db.rows[id].status.Pending? || db.rows[id].status.Sent?)
  }

  function CompleteTx(db: Db, spaceId: Id, id: Id, at: Time): Db {
    if !Unfinished(db, spaceId, id) then db
    else db.(rows := db.rows[id := CompletedRow(db.rows[id], at)])
  }

  predicate MayUpdate(db: Db, spaceId: Id, id: Id, f: UpdateFields) {
    (f.text.Some? || f.scheduledAt.Some?) && LiveIn(db, spaceId, id) && db.rows[id].status.Pending?
  }

  function UpdateTx(db: Db, spaceId: Id, id: Id, f: UpdateFields, at: Time): Db {
    if !MayUpdate(db, spaceId, id, f) then db
    else
      var r := db.rows[id];
      db.(rows := db.rows[id :=
        r.(text := GetOr(f.text, r.text), scheduledAt := GetOr(f.scheduledAt, r.scheduledAt), updatedAt := at)])
  }

  /** The status is the one that the caller read before, so it may be out of date. */
  function DeleteTx(db: Db, spaceId: Id, id: Id, status: Status, at: Time): Db {
    if !LiveIn(db, spaceId, id) then db
    else db.(rows := db.rows[id := db.rows[id].(status := status, deletedAt := Some(at), updatedAt := at)])
  }

  // ------------------------------------------------------------- runs

  datatype Op =
    | Add(draft: Draft, unseen: set<Id>, now: Time)
    | Claim(ids: set<Id>, now: Time, lease: Time)
    | Mark(id: Id, claimedAt: Time, sentAt: Time)
    | Release(id: Id, claimedAt: Time, at: Time)
    | Complete(spaceId: Id, id: Id, at: Time)
    | Update(spaceId: Id, id: Id, fields: UpdateFields, at: Time)
    | Delete(spaceId: Id, id: Id, status: Status, at: Time)

  /** clock: the time of the latest claim; marks: the reminders that were marked sent, in order. */
  datatype Sys = Sys(db: Db, clock: Time, marks: seq<Id>)

  /** A lease is positive, and the service deletes a pending reminder as a cancelled one. */
  predicate Allowed(op: Op) { (op.Claim? ==> op.lease > 0) && (op.Delete? ==> !op.status.Pending?) }

  ghost predicate AllAllowed(ops: seq<Op>) { forall i :: 0 <= i < |ops| ==> Allowed(ops[i]) }

  /** Claims happen at times that do not decrease, on claimable rows only. */
  predicate ClaimHappens(s: Sys, ids: set<Id>, now: Time, lease: Time) {
    s.clock <= now && forall id :: id in ids ==> Claimable(s.db, id, now, now - lease)
  }

  ghost function Apply(s: Sys, op: Op): Sys {
    match op
    case Add(d, unseen, now) => s.(db := AddTx(s.db, d, unseen, now))
    case Claim(ids, now, lease) =>
      if ClaimHappens(s, ids, now, lease) then Sys(ClaimTx(s.db, ids, now), now, s.marks) else s
    case Mark(id, claimedAt, sentAt) =>
      if Owns(s.db, id, claimedAt) then Sys(MarkTx(s.db, id, claimedAt, sentAt), s.clock, s.marks + [id]) else s
    case Release(id, claimedAt, at) => s.(db := ReleaseTx(s.db, id, claimedAt, at))
    case Complete(spaceId, id, at) => s.(db := CompleteTx(s.db, spaceId, id, at))
    case Update(spaceId, id, fields, at) => s.(db := UpdateTx(s.db, spaceId, id, fields, at))
    case Delete(spaceId, id, status, at) => s.(db := DeleteTx(s.db, spaceId, id, status, at))
  }

  ghost function Run(s: Sys, ops: seq<Op>): Sys {
    if ops == [] then s else Apply(Run(s, ops[..|ops| - 1]), ops[|ops| - 1])
  }

  function Start(clock: Time): Sys { Sys(Db(map[], 0), clock, []) }
}
