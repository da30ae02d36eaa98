/** The invariant of the reminder index, over every interleaving of service calls, failing index
    writes, reconciliation steps and the deliveries of two processes: an answer of "nothing due" is
    never wrong for a reminder whose calls have returned, unless a reschedule overlapped an older
    value on its way to the index or a claim was taken over while it was held. */
module ReminderCoverage {
  import opened Options
  import opened SortedSets
  import opened ReminderIndex
  import R = Reminders
  import ReminderRuns

  // --------------------------------------------------------- invariant

  /** An id that was issued and whose reminder is not pending, and therefore never will be. */
  predicate Dead(s: Sys, id: Id) { id < s.table.db.nextId && !Pending(s, id) }

  /** What is on its way to the index carries the present time, unless the reminder is blurred. */
  predicate Exactly(s: Sys, id: Id, at: Time) {
    id in s.table.db.rows && (Pending(s, id) && id !in s.blurred ==> at == ScheduledAt(s, id))
  }

  predicate MayRemove(s: Sys, id: Id) { Dead(s, id) || id in s.taken }

  predicate WriteOk(s: Sys, w: Write) {
    match w
    case Upsert(id, at) => Exactly(s, id, at)
    case Remove(id) => MayRemove(s, id)
    case Dirty(id) => true
  }

  ghost predicate AllOk(s: Sys, writes: seq<Write>) { forall w :: w in writes ==> WriteOk(s, w) }

  ghost predicate CallsOk(s: Sys) { forall call :: call in s.calls ==> AllOk(s, s.calls[call]) }

  ghost predicate IdsIssued(s: Sys) { forall id :: id in s.members ==> id < s.table.db.nextId }

  ghost predicate PhaseOk(s: Sys) {
    match s.phase
    case Starting => true
    case Idle => true
    case Asking(known) => forall id :: id in known ==> id in s.table.db.rows
    case Listed(ids) => forall id :: id in ids ==> id < s.table.db.nextId
    case Loaded(ids, version) => version <= s.dirty && forall id :: id in ids ==> id < s.table.db.nextId
    case Stored(ids) => forall id :: id in ids ==> id < s.table.db.nextId
    case Adding(ids, rows, done) =>
      && done <= |rows|
      && (forall e :: e in rows ==> e.id in s.table.db.rows)
      && (forall id :: id in ids && id !in Ids(rows) ==> Dead(s, id))
    case Removing(stale, done) => done <= |stale| && forall id :: id in stale ==> Dead(s, id)
  }

  ghost predicate RowsExact(s: Sys) {
    forall e :: e in Unwritten(s) ==> Exactly(s, e.id, e.at) || Owes(s, Dirty(e.id))
  }

  /** A process owns the claims that it holds, unless they were taken over. */
  ghost predicate Holds(s: Sys, claims: map<Id, Time>) {
    forall id :: id in claims ==>
      id in s.table.db.rows && (Pending(s, id) && id !in s.taken ==> R.Owns(s.table.db, id, claims[id]))
  }

  ghost predicate ClaimsOk(s: Sys) {
    && Holds(s, s.held) && Holds(s, s.theirs)
    && (forall id :: id in s.held && id in s.theirs ==> MayRemove(s, id))
    && (forall id :: id in s.theirRemoves ==> MayRemove(s, id))
  }

  /** HasDue refuses to answer, or the scheduler does not ask it. */
  predicate Flagged(s: Sys) { s.dirty != s.reconciled }

  /** A settled reminder is in the index; or the index is flagged or the scheduler knows that it is
      degraded; or the reconciliation under way is still going to add it. */
  ghost predicate Covered(s: Sys, id: Id) {
    match s.phase
    case Idle => Right(s, id) || Flagged(s) || s.degraded
    case Asking(_) => Right(s, id) || Flagged(s) || s.degraded
    case Adding(_, _, _) => Right(s, id) || Flagged(s) || id in Ids(Unwritten(s))
    case Removing(_, _) => Right(s, id) || Flagged(s)
    case _ => true
  }

  ghost predicate AllCovered(s: Sys) { forall id :: Settled(s, id) && id !in s.taken ==> Covered(s, id) }

  /** What HasDue is about to count covers all that was settled when it compared the versions. */
  ghost predicate KnownRight(s: Sys) {
    s.phase.Asking? && !s.degraded ==>
      forall id :: id in s.phase.known && id !in s.taken && Pending(s, id) ==> Right(s, id)
  }

  ghost predicate Inv(s: Sys) {
    && ReminderRuns.Inv(s.table) && IdsIssued(s) && CallsOk(s) && PhaseOk(s) && RowsExact(s) && ClaimsOk(s)
    && s.reconciled <= s.dirty && AllCovered(s) && KnownRight(s)
  }

  lemma IssuedBelow(s: Sys)
    requires ReminderRuns.Inv(s.table)
    ensures forall id :: id in s.table.db.rows ==> id < s.table.db.nextId
  {
  }

  // ------------------------------------------------- steps of the table

  /** Reminders never become pending again, and only those in `moved` change their time. */
  ghost predicate Carries(s: Sys, t: Sys, moved: set<Id>) {
    && s.table.db.nextId <= t.table.db.nextId && s.blurred <= t.blurred && s.taken <= t.taken
    && (forall id :: id in s.table.db.rows ==> id in t.table.db.rows)
    && (forall id :: id in t.table.db.rows && id !in s.table.db.rows ==> s.table.db.nextId <= id < t.table.db.nextId)
    && (forall id :: id in s.table.db.rows && Pending(t, id) ==>
          Pending(s, id) && (id !in moved ==> ScheduledAt(t, id) == ScheduledAt(s, id)))
  }

  /** A reminder that changes its time with nothing on its way is not blurred. */
  ghost predicate MovesSafely(s: Sys, t: Sys, moved: set<Id>) {
    && (forall id :: id in moved && id !in t.blurred ==> !Overlaps(s, id))
    && (forall id :: id in moved && Pending(t, id) ==> Awaited(t, id))
  }

  ghost predicate SameIndex(s: Sys, t: Sys, moved: set<Id>) {
    && t.members == s.members && t.dirty == s.dirty && t.reconciled == s.reconciled
    && t.degraded == s.degraded && t.phase == Forgets(s.phase, moved)
  }

  ghost predicate CallsStay(s: Sys, t: Sys) {
    forall call :: call in s.calls ==> call in t.calls && t.calls[call] == s.calls[call]
  }

  lemma TableCarries(s: Sys, t: Sys, op: R.Op)
    requires ReminderRuns.Inv(s.table) && R.Allowed(op)
    requires t.table == R.Apply(s.table, op) && s.blurred <= t.blurred && s.taken <= t.taken
    ensures ReminderRuns.Inv(t.table) && Carries(s, t, Moves(s.table.db, op))
  {
    IssuedBelow(s);
    ReminderRuns.StepKeeps(s.table, op);
    assert forall id :: id in t.table.db.rows ==> ReminderRuns.RowOk(t.table, id);
    forall id | id in s.table.db.rows && Pending(t, id)
      ensures Pending(s, id) && (id !in Moves(s.table.db, op) ==> ScheduledAt(t, id) == ScheduledAt(s, id))
    {
      assert ReminderRuns.RowEvolves(s.table.db.rows[id], t.table.db.rows[id]);
      if id !in Moves(s.table.db, op) { OnlyUpdatesMove(s.table, op, id); }
    }
  }

  lemma OnlyUpdatesMove(table: R.Sys, op: R.Op, id: Id)
    requires id in table.db.rows && id in R.Apply(table, op).db.rows && id < table.db.nextId
    requires R.LivePending(R.Apply(table, op).db, id) && id !in Moves(table.db, op)
    ensures R.Apply(table, op).db.rows[id].scheduledAt == table.db.rows[id].scheduledAt
  {
  }

  /** The writes that a call already owes stay right. */
  lemma WritesCarry(s: Sys, t: Sys, moved: set<Id>, call: nat)
    requires Carries(s, t, moved) && MovesSafely(s, t, moved) && call in s.calls && AllOk(s, s.calls[call])
    ensures AllOk(t, s.calls[call])
  {
    forall w | w in s.calls[call] ensures WriteOk(t, w) {
      assert WriteOk(s, w) && Owes(s, w);
    }
  }

  lemma PhaseCarries(s: Sys, t: Sys, moved: set<Id>)
    requires Carries(s, t, moved) && SameIndex(s, t, moved) && PhaseOk(s)
    ensures PhaseOk(t)
  {
  }

  lemma RowsCarry(s: Sys, t: Sys, moved: set<Id>)
    requires Carries(s, t, moved) && MovesSafely(s, t, moved) && SameIndex(s, t, moved) && CallsStay(s, t)
      && RowsExact(s)
    ensures RowsExact(t)
  {
    assert Unwritten(t) == Unwritten(s);
    forall e | e in Unwritten(t) ensures Exactly(t, e.id, e.at) || Owes(t, Dirty(e.id)) {
      assert e.id in Ids(Unwritten(s));
      assert Owes(s, Dirty(e.id)) ==> Owes(t, Dirty(e.id));
    }
  }

  lemma RightCarries(s: Sys, t: Sys, moved: set<Id>, id: Id)
    requires Carries(s, t, moved) && id in s.table.db.rows && Pending(t, id) && id !in moved
    requires t.members == s.members && Right(s, id)
    ensures Right(t, id)
  {
  }

  lemma CoverageCarries(s: Sys, t: Sys, moved: set<Id>)
    requires Carries(s, t, moved) && MovesSafely(s, t, moved) && SameIndex(s, t, moved) && CallsStay(s, t)
    requires AllCovered(s) && KnownRight(s) && PhaseOk(s)
    requires forall id :: Pending(t, id) && id !in s.table.db.rows ==> Awaited(t, id)
    ensures AllCovered(t) && KnownRight(t)
  {
    assert Unwritten(t) == Unwritten(s);
    forall id | Settled(t, id) && id !in t.taken ensures Covered(t, id) {
      assert id in s.table.db.rows && id !in moved;
      assert Settled(s, id) && Covered(s, id);
      if Right(s, id) { RightCarries(s, t, moved, id); }
    }
    if t.phase.Asking? && !t.degraded {
      forall id | id in t.phase.known && id !in t.taken && Pending(t, id) ensures Right(t, id) {
        RightCarries(s, t, moved, id);
      }
    }
  }

  /** A step of the table leaves the index right, provided that new reminders are awaited. */
  lemma TableStepKeeps(s: Sys, t: Sys, moved: set<Id>)
    requires Inv(s) && ReminderRuns.Inv(t.table) && Carries(s, t, moved) && MovesSafely(s, t, moved)
    requires SameIndex(s, t, moved) && CallsStay(s, t) && CallsOk(t) && ClaimsOk(t)
    requires forall id :: Pending(t, id) && id !in s.table.db.rows ==> Awaited(t, id)
    ensures Inv(t)
  {
    PhaseCarries(s, t, moved);
    RowsCarry(s, t, moved);
    CoverageCarries(s, t, moved);
  }

  /** A service write leaves the claims of pending reminders alone. */
  lemma ServeHolds(s: Sys, op: R.Op, id: Id, c: Time)
    requires IsServiceWrite(op) && id in s.table.db.rows && R.LivePending(R.Apply(s.table, op).db, id)
    requires R.LivePending(s.table.db, id) ==> R.Owns(s.table.db, id, c)
    requires id < s.table.db.nextId
    ensures R.LivePending(s.table.db, id) ==> R.Owns(R.Apply(s.table, op).db, id, c)
  {
  }

  lemma WritesOk(s: Sys, t: Sys, op: R.Op)
    requires ReminderRuns.Inv(s.table) && IsServiceWrite(op) && Carries(s, t, Moves(s.table.db, op))
    requires t.table == R.Apply(s.table, op)
    ensures AllOk(t, WritesOf(s.table.db, op))
  {
  }

  lemma ServeMovesSafely(s: Sys, call: nat, op: R.Op)
    requires Inv(s) && call !in s.calls && IsServiceWrite(op)
    ensures MovesSafely(s, ServeStep(s, call, op), Moves(s.table.db, op))
  {
    var t := ServeStep(s, call, op);
    forall id | id in Moves(s.table.db, op) ensures Awaited(t, id) {
      var w := Upsert(id, op.fields.scheduledAt.value);
      assert w in t.calls[call] && Owed(w, id);
    }
  }

  lemma ServeClaims(s: Sys, t: Sys, op: R.Op)
    requires Inv(s) && IsServiceWrite(op) && Carries(s, t, Moves(s.table.db, op)) && t.table == R.Apply(s.table, op)
    requires t.held == s.held && t.theirs == s.theirs && t.theirRemoves == s.theirRemoves && t.taken == s.taken
    ensures ClaimsOk(t)
  {
    IssuedBelow(s);
    forall id | id in t.held && Pending(t, id) && id !in t.taken ensures R.Owns(t.table.db, id, t.held[id]) {
      ServeHolds(s, op, id, s.held[id]);
    }
    forall id | id in t.theirs && Pending(t, id) && id !in t.taken ensures R.Owns(t.table.db, id, t.theirs[id]) {
      ServeHolds(s, op, id, s.theirs[id]);
    }
  }

  lemma ServeKeeps(s: Sys, call: nat, op: R.Op)
    requires Inv(s)
    ensures Inv(ServeStep(s, call, op))
  {
    if call !in s.calls && IsServiceWrite(op) {
      var t, moved := ServeStep(s, call, op), Moves(s.table.db, op);
      var writes := WritesOf(s.table.db, op);
      TableCarries(s, t, op);
      WritesOk(s, t, op);
      ServeMovesSafely(s, call, op);
      forall c | c in t.calls ensures AllOk(t, t.calls[c]) {
        if c != call { WritesCarry(s, t, moved, c); }
      }
      ServeClaims(s, t, op);
      forall id | Pending(t, id) && id !in s.table.db.rows ensures Awaited(t, id) {
        assert op.Add? && writes[0] in t.calls[call] && Owed(writes[0], id);
      }
      TableStepKeeps(s, t, moved);
    }
  }

  /** A step of the table that reschedules nothing and adds no reminder. */
  lemma QuietStepKeeps(s: Sys, t: Sys)
    requires Inv(s) && ReminderRuns.Inv(t.table) && Carries(s, t, {}) && SameIndex(s, t, {})
    requires t.calls == s.calls && t.table.db.rows.Keys == s.table.db.rows.Keys && ClaimsOk(t)
    ensures Inv(t)
  {
    forall c | c in t.calls ensures AllOk(t, t.calls[c]) { WritesCarry(s, t, {}, c); }
    TableStepKeeps(s, t, {});
  }

  lemma ClaimedAreOwned(s: Sys, t: Sys, ids: set<Id>, now: Time, lease: Time)
    requires ReminderRuns.Inv(s.table) && R.ClaimHappens(s.table, ids, now, lease)
    requires t.table == R.Apply(s.table, R.Claim(ids, now, lease))
    ensures forall id :: id in ids ==> id in t.table.db.rows && R.Owns(t.table.db, id, now)
    ensures forall id :: id in t.table.db.rows && id !in ids ==> t.table.db.rows[id] == s.table.db.rows[id]
  {
    forall id | id in ids ensures id in t.table.db.rows && R.Owns(t.table.db, id, now) {
      assert R.Claimable(s.table.db, id, now, now - lease);
    }
  }

  lemma RemovableStays(s: Sys, t: Sys, id: Id)
    requires Carries(s, t, {}) && MayRemove(s, id)
    ensures MayRemove(t, id)
  {
  }

  /** A claim takes nothing else away from the claims of either process. */
  lemma ClaimSpares(s: Sys, t: Sys, ids: set<Id>, claims: map<Id, Time>)
    requires Holds(s, claims) && Carries(s, t, {}) && claims.Keys * ids <= t.taken
    requires t.table.db.rows.Keys == s.table.db.rows.Keys
    requires forall id :: id in t.table.db.rows && id !in ids ==> t.table.db.rows[id] == s.table.db.rows[id]
    ensures Holds(t, claims)
  {
    forall id | id in claims && Pending(t, id) && id !in t.taken ensures R.Owns(t.table.db, id, claims[id]) {
      assert id !in ids;
    }
  }

  /** A claim gives its process exactly what it claims; whatever it takes over is remembered. */
  lemma ClaimsMove(s: Sys, t: Sys, ids: set<Id>, now: Time, lease: Time)
    requires ReminderRuns.Inv(s.table) && ClaimsOk(s)
    requires R.ClaimHappens(s.table, ids, now, lease) && Carries(s, t, {})
    requires t.table == R.Apply(s.table, R.Claim(ids, now, lease)) && t.theirRemoves == s.theirRemoves
    requires || (t.held == (map id | id in ids :: now) && t.theirs == s.theirs && s.theirs.Keys * ids <= t.taken)
             || (t.theirs == (map id | id in ids :: now) && t.held == s.held && s.held.Keys * ids <= t.taken)
    ensures ClaimsOk(t)
  {
    ClaimedAreOwned(s, t, ids, now, lease);
    var others := if t.theirs == s.theirs && s.theirs.Keys * ids <= t.taken then s.theirs else s.held;
    ClaimSpares(s, t, ids, others);
    forall id | MayRemove(s, id) ensures MayRemove(t, id) { RemovableStays(s, t, id); }
  }

  lemma ClaimKeeps(s: Sys, ids: set<Id>, now: Time, lease: Time)
    requires Inv(s)
    ensures Inv(ClaimStep(s, ids, now, lease))
  {
    var t := ClaimStep(s, ids, now, lease);
    if t != s {
      TableCarries(s, t, R.Claim(ids, now, lease));
      ClaimsMove(s, t, ids, now, lease);
      QuietStepKeeps(s, t);
    }
  }

  lemma TheirClaimKeeps(s: Sys, ids: set<Id>, now: Time, lease: Time)
    requires Inv(s)
    ensures Inv(TheirClaimStep(s, ids, now, lease))
  {
    var t := TheirClaimStep(s, ids, now, lease);
    if t != s {
      TableCarries(s, t, R.Claim(ids, now, lease));
      ClaimsMove(s, t, ids, now, lease);
      QuietStepKeeps(s, t);
    }
  }

  /** A mark or release by the holder of a claim settles that claim and no other. */
  lemma OwnClaimOnly(s: Sys, t: Sys, op: R.Op, id: Id, claims: map<Id, Time>, others: map<Id, Time>)
    requires ReminderRuns.Inv(s.table) && Holds(s, claims) && Holds(s, others) && id in claims
    requires id in others ==> MayRemove(s, id)
    requires (op.Mark? || op.Release?) && op.id == id && op.claimedAt == claims[id]
    requires t.table == R.Apply(s.table, op) && t.taken == s.taken
    ensures Holds(t, claims - {id}) && Holds(t, others)
    ensures forall x :: MayRemove(s, x) ==> MayRemove(t, x)
    ensures op.Mark? ==> MayRemove(t, id)
  {
    IssuedBelow(s);
  }

  lemma DeliverKeeps(s: Sys, call: nat, id: Id, sentAt: Time)
    requires Inv(s)
    ensures Inv(DeliverStep(s, call, id, sentAt))
  {
    if id in s.held && call !in s.calls {
      var t := DeliverStep(s, call, id, sentAt);
      var op := R.Mark(id, s.held[id], sentAt);
      TableCarries(s, t, op);
      OwnClaimOnly(s, t, op, id, s.held, s.theirs);
      forall c | c in t.calls ensures AllOk(t, t.calls[c]) {
        if c != call { WritesCarry(s, t, {}, c); }
      }
      TableStepKeeps(s, t, {});
    }
  }

  lemma LetGoKeeps(s: Sys, id: Id, at: Time)
    requires Inv(s)
    ensures Inv(LetGoStep(s, id, at))
  {
    if id in s.held {
      var t := LetGoStep(s, id, at);
      var op := R.Release(id, s.held[id], at);
      TableCarries(s, t, op);
      OwnClaimOnly(s, t, op, id, s.held, s.theirs);
      QuietStepKeeps(s, t);
    }
  }

  lemma TheirDeliverKeeps(s: Sys, id: Id, sentAt: Time)
    requires Inv(s)
    ensures Inv(TheirDeliverStep(s, id, sentAt))
  {
    if id in s.theirs {
      var t := TheirDeliverStep(s, id, sentAt);
      var op := R.Mark(id, s.theirs[id], sentAt);
      TableCarries(s, t, op);
      OwnClaimOnly(s, t, op, id, s.theirs, s.held);
      QuietStepKeeps(s, t);
    }
  }

  lemma TheirLetGoKeeps(s: Sys, id: Id, at: Time)
    requires Inv(s)
    ensures Inv(TheirLetGoStep(s, id, at))
  {
    if id in s.theirs {
      var t := TheirLetGoStep(s, id, at);
      var op := R.Release(id, s.theirs[id], at);
      TableCarries(s, t, op);
      OwnClaimOnly(s, t, op, id, s.theirs, s.held);
      QuietStepKeeps(s, t);
    }
  }

  lemma ForgetKeeps(s: Sys, t: Sys)
    requires Inv(s) && t == s.(held := t.held, theirs := t.theirs)
    requires forall id :: id in t.held ==> id in s.held && t.held[id] == s.held[id]
    requires forall id :: id in t.theirs ==> id in s.theirs && t.theirs[id] == s.theirs[id]
    ensures Inv(t)
  {
    QuietStepKeeps(s, t);
  }

  // ------------------------------------------------- writes to the index

  ghost predicate SameTable(s: Sys, t: Sys) {
    && t.table == s.table && t.blurred == s.blurred && t.taken == s.taken
    && t.held == s.held && t.theirs == s.theirs && t.theirRemoves <= s.theirRemoves
  }

  /** No entry that matters gets worse. */
  ghost predicate RightStays(s: Sys, t: Sys) {
    forall id :: Pending(s, id) && id !in s.taken && Right(s, id) ==> Right(t, id)
  }

  lemma IndexStepCovers(s: Sys, t: Sys)
    requires AllCovered(s) && KnownRight(s) && SameTable(s, t) && RightStays(s, t)
    requires t.phase == s.phase && t.degraded == s.degraded && t.reconciled == s.reconciled <= s.dirty <= t.dirty
    requires forall id :: Settled(t, id) ==> Settled(s, id) || Right(t, id) || t.dirty > s.dirty
    ensures AllCovered(t) && KnownRight(t)
  {
    forall id | Settled(t, id) && id !in t.taken ensures Covered(t, id) {
      assert Settled(s, id) ==> Covered(s, id);
      assert t.dirty == s.dirty ==> Unwritten(t) == Unwritten(s);
    }
  }

  /** After the head of a call's writes is done or replaced, whatever the rest owes is still owed. */
  lemma AwaitedAfter(s: Sys, t: Sys, call: nat, id: Id)
    requires call in s.calls && s.calls[call] != [] && Awaited(s, id)
    requires forall c :: c in s.calls && c != call ==> c in t.calls && t.calls[c] == s.calls[c]
    requires forall w :: w in s.calls[call][1..] ==> call in t.calls && w in t.calls[call]
    requires Owed(s.calls[call][0], id) ==> exists w :: call in t.calls && w in t.calls[call] && Owed(w, id)
    ensures Awaited(t, id)
  {
    var c, w :| c in s.calls && w in s.calls[c] && Owed(w, id);
    if c == call {
      assert s.calls[call] == [s.calls[call][0]] + s.calls[call][1..];
    } else {
      assert w in t.calls[c];
    }
  }

  lemma CallsAfter(s: Sys, call: nat, head: seq<Write>)
    requires CallsOk(s) && call in s.calls && s.calls[call] != [] && AllOk(s, head)
    ensures CallsOk(WithCall(s, call, head + s.calls[call][1..]))
  {
    assert forall w :: w in s.calls[call][1..] ==> w in s.calls[call];
  }

  /** Raising the dirty version, or writing one entry, touches neither claims nor rows. */
  lemma WriteFrame(s: Sys, t: Sys)
    requires PhaseOk(s) && RowsExact(s) && ClaimsOk(s) && SameTable(s, t) && t.phase == s.phase
    requires t.reconciled == s.reconciled <= s.dirty <= t.dirty
    requires t.dirty == s.dirty ==> forall id :: Owes(s, Dirty(id)) ==> Owes(t, Dirty(id))
    ensures PhaseOk(t) && RowsExact(t) && ClaimsOk(t)
  {
    assert forall e :: e in Unwritten(t) ==> t.dirty == s.dirty && e in Unwritten(s);
  }

  /** A dirty mark that is owed stays owed while the head of a call's writes is not one. */
  lemma MarksStay(s: Sys, t: Sys, call: nat)
    requires call in s.calls && s.calls[call] != [] && !s.calls[call][0].Dirty?
    requires forall c :: c in s.calls && c != call ==> c in t.calls && t.calls[c] == s.calls[c]
    requires forall w :: w in s.calls[call][1..] ==> call in t.calls && w in t.calls[call]
    ensures forall id :: Owes(s, Dirty(id)) ==> Owes(t, Dirty(id))
  {
    assert s.calls[call] == [s.calls[call][0]] + s.calls[call][1..];
  }

  /** The dirty mark: the reminder is settled without an entry, and the index is flagged. */
  lemma DirtyKeeps(s: Sys, call: nat, reply: Reply)
    requires Inv(s) && call in s.calls && s.calls[call] != [] && s.calls[call][0].Dirty?
    ensures Inv(WriteStep(s, call, reply))
  {
    var t := WriteStep(s, call, reply);
    CallsAfter(s, call, []);
    assert [] + s.calls[call][1..] == s.calls[call][1..];
    WriteFrame(s, t);
    IndexStepCovers(s, t);
  }

  /** A command that is applied and answered settles its reminder with a right entry. */
  lemma AppliedKeeps(s: Sys, call: nat)
    requires Inv(s) && call in s.calls && s.calls[call] != [] && !s.calls[call][0].Dirty?
    ensures Inv(WithCall(s, call, s.calls[call][1..]).(members := ApplyWrite(s.members, s.calls[call][0], Applied)))
  {
    var w := s.calls[call][0];
    var t := WithCall(s, call, s.calls[call][1..]).(members := ApplyWrite(s.members, w, Applied));
    assert WriteOk(s, w);
    CallsAfter(s, call, []);
    assert [] + s.calls[call][1..] == s.calls[call][1..];
    forall id | Settled(t, id) ensures Settled(s, id) || Right(t, id) {
      if Awaited(s, id) && !Owed(w, id) { AwaitedAfter(s, t, call, id); }
    }
    IssuedBelow(s);
    MarksStay(s, t, call);
    WriteFrame(s, t);
    IndexStepCovers(s, t);
  }

  /** An exact entry with nothing older on its way ends the doubt about its reminder. */
  lemma SharpenKeeps(s: Sys, id: Id)
    requires Inv(s) && Pending(s, id) && Sharp(s, id)
    requires id in s.members && s.members[id] == Score(ScheduledAt(s, id))
    ensures Inv(s.(blurred := s.blurred - {id}))
  {
    var t := s.(blurred := s.blurred - {id});
    assert Unwritten(t) == Unwritten(s);
    forall c | c in t.calls ensures AllOk(t, t.calls[c]) {
      forall w | w in t.calls[c] ensures WriteOk(t, w) { assert WriteOk(s, w) && Owes(s, w); }
    }
    forall x | Settled(t, x) && x !in t.taken ensures Covered(t, x) {
      assert Awaited(s, x) <==> Awaited(t, x);
      assert Settled(s, x) && Covered(s, x);
      assert Right(s, x) ==> Right(t, x);
    }
  }

  lemma AnsweredKeeps(s: Sys, call: nat)
    requires Inv(s) && call in s.calls && s.calls[call] != [] && !s.calls[call][0].Dirty?
    ensures Inv(WriteStep(s, call, Applied))
  {
    AppliedKeeps(s, call);
    var w := s.calls[call][0];
    var t := WithCall(s, call, s.calls[call][1..]).(members := ApplyWrite(s.members, w, Applied));
    if w.Upsert? && Pending(s, w.id) && w.at == ScheduledAt(s, w.id) && Sharp(t, w.id) {
      SharpenKeeps(t, w.id);
    }
  }

  /** A command without an answer leaves its dirty mark to do. */
  lemma UnansweredKeeps(s: Sys, call: nat, reply: Reply)
    requires Inv(s) && call in s.calls && s.calls[call] != [] && !s.calls[call][0].Dirty? && !reply.Applied?
    ensures Inv(WriteStep(s, call, reply))
  {
    var w, t := s.calls[call][0], WriteStep(s, call, reply);
    assert WriteOk(s, w);
    CallsAfter(s, call, [Dirty(w.id)]);
    forall id | Settled(t, id) ensures Settled(s, id) {
      assert Dirty(w.id) in t.calls[call];
      if Awaited(s, id) { AwaitedAfter(s, t, call, id); }
    }
    IssuedBelow(s);
    MarksStay(s, t, call);
    WriteFrame(s, t);
    IndexStepCovers(s, t);
  }

  /** A removal by the other process hits a reminder that is not pending, or one whose claim was
      taken over. */
  lemma TheirRemoveKeeps(s: Sys, id: Id, reply: Reply)
    requires Inv(s)
    ensures Inv(TheirRemoveStep(s, id, reply))
  {
    var t := TheirRemoveStep(s, id, reply);
    if id in s.theirRemoves {
      WriteFrame(s, t);
      forall x | Settled(t, x) ensures Settled(s, x) { assert Awaited(s, x) <==> Awaited(t, x); }
      IndexStepCovers(s, t);
    }
  }

  // ------------------------------------------------------ reconciliation

  ghost predicate SameCalls(s: Sys, t: Sys) {
    SameTable(s, t) && t.calls == s.calls && t.theirRemoves == s.theirRemoves
  }

  /** A step of the scheduler touches only the index and its own phase. */
  lemma SchedulerStepKeeps(s: Sys, t: Sys)
    requires Inv(s) && SameCalls(s, t) && IdsIssued(t) && PhaseOk(t) && t.reconciled <= t.dirty && KnownRight(t)
    requires forall e :: e in Unwritten(t) ==> e in Unwritten(s)
    requires forall id :: Settled(s, id) && id !in s.taken && Covered(s, id) ==> Covered(t, id)
    ensures Inv(t)
  {
    forall id | Settled(t, id) && id !in t.taken ensures Covered(t, id) {
      assert Awaited(s, id) <==> Awaited(t, id);
    }
  }

  lemma FailedKeeps(s: Sys, t: Sys, dirtied: bool)
    requires Inv(s) && SameCalls(s, t) && IdsIssued(t) && t.dirty == s.dirty && t.reconciled == s.reconciled
    ensures Inv(Failed(t, dirtied))
  {
    SchedulerStepKeeps(s, Failed(t, dirtied));
  }

  lemma ListKeeps(s: Sys, ids: seq<Id>, reply: Reply)
    requires Inv(s)
    ensures Inv(ListStep(s, ids, reply))
  {
    var t := ListStep(s, ids, reply);
    if s.phase.Starting? || s.phase.Idle? {
      if !reply.Applied? {
        FailedKeeps(s, s, true);
      } else if Elements(ids) == s.members.Keys {
        assert forall id :: id in ids ==> id in Elements(ids);
        SchedulerStepKeeps(s, t);
      }
    }
  }

  lemma LoadKeeps(s: Sys)
    requires Inv(s)
    ensures Inv(LoadStep(s))
  {
    SchedulerStepKeeps(s, LoadStep(s));
  }

  lemma StoreKeeps(s: Sys)
    requires Inv(s)
    ensures Inv(StoreStep(s))
  {
    SchedulerStepKeeps(s, StoreStep(s));
  }

  /** The dirty version is loaded and stored before the database is read. */
  lemma VersionKeeps(s: Sys, op: Op)
    requires Inv(s) && (op.Load? || op.Store?)
    ensures Inv(Apply(s, op))
  {
    if op.Load? { LoadKeeps(s); } else { StoreKeeps(s); }
  }

  /** After the query what was in doubt stays so only for an older value that is still on its way. */
  lemma QueryCalls(s: Sys, t: Sys)
    requires CallsOk(s) && ClaimsOk(s) && t.table == s.table && t.calls == s.calls
    requires t.held == s.held && t.theirs == s.theirs && t.theirRemoves == s.theirRemoves
    requires t.blurred == StillBlurred(s) && t.taken == StillTaken(s)
    ensures CallsOk(t) && ClaimsOk(t)
  {
    forall c | c in t.calls ensures AllOk(t, t.calls[c]) {
      forall w | w in t.calls[c] ensures WriteOk(t, w) { assert WriteOk(s, w) && Owes(s, w); }
    }
  }

  lemma QueryKeeps(s: Sys, rows: Option<seq<Entry>>)
    requires Inv(s)
    ensures Inv(QueryStep(s, rows))
  {
    var t := QueryStep(s, rows);
    if s.phase.Stored? {
      if rows.None? {
        FailedKeeps(s, s, false);
      } else if Answers(rows.value, s.table.db) {
        QueryCalls(s, t);
        assert rows.value[0..] == rows.value;
        assert forall e :: e in Unwritten(t) ==> e in rows.value;
      }
    }
  }

  lemma AllAddedKeeps(s: Sys)
    requires Inv(s)
    ensures Inv(AllAddedStep(s))
  {
    var t := AllAddedStep(s);
    if s.phase.Adding? && s.phase.done == |s.phase.rows| {
      StaleIs(s.phase.ids, s.phase.rows);
      forall id | id in t.phase.stale ensures Dead(t, id) {
        assert id in Elements(t.phase.stale);
        assert id in s.phase.ids && id !in Ids(s.phase.rows);
      }
      SchedulerStepKeeps(s, t);
    }
  }

  lemma DoneKeeps(s: Sys)
    requires Inv(s)
    ensures Inv(DoneStep(s))
  {
    SchedulerStepKeeps(s, DoneStep(s));
  }

  /** Writing a batch makes the entries of its pending reminders right and keeps the others. */
  ghost predicate Improves(s: Sys, t: Sys, ids: set<Id>) {
    && IdsIssued(t)
    && (!Flagged(s) ==> forall id :: Settled(s, id) && (Right(s, id) || id in ids) ==> Right(t, id))
  }

  lemma BatchImproves(s: Sys, batch: seq<Entry>)
    requires ReminderRuns.Inv(s.table) && IdsIssued(s) && forall e :: e in batch ==> e.id in s.table.db.rows
    requires !Flagged(s) ==> forall e :: e in batch ==> Exactly(s, e.id, e.at) || Owes(s, Dirty(e.id))
    ensures Improves(s, s.(members := AddAll(s.members, batch)), Ids(batch))
  {
    var t := s.(members := AddAll(s.members, batch));
    IssuedBelow(s);
    forall id: Id ensures id in t.members ==> id < s.table.db.nextId
      ensures !Flagged(s) && Settled(s, id) && (Right(s, id) || id in Ids(batch)) ==> Right(t, id)
    {
      assert Owes(s, Dirty(id)) ==> Awaited(s, id) by {
        if Owes(s, Dirty(id)) { assert Owed(Dirty(id), id); }
      }
      AddedFrom(s.members, batch, id);
    }
  }

  /** The part of the rows that the next batch writes. */
  lemma NextBatch(s: Sys, batch: seq<Entry>, end: nat)
    requires PhaseOk(s) && RowsExact(s) && s.phase.Adding? && s.phase.done <= end <= |s.phase.rows|
    requires batch == s.phase.rows[s.phase.done..end]
    ensures s.phase.rows[s.phase.done..] == batch + s.phase.rows[end..]
    ensures forall e :: e in batch ==> e.id in s.table.db.rows
    ensures !Flagged(s) ==> forall e :: e in batch ==> Exactly(s, e.id, e.at) || Owes(s, Dirty(e.id))
  {
    assert s.phase.rows[s.phase.done..] == batch + s.phase.rows[end..];
    assert !Flagged(s) ==> forall e :: e in batch ==> e in Unwritten(s);
  }

  lemma AddBatchKeeps(s: Sys, size: nat, reply: Reply)
    requires Inv(s) && s.phase.Adding?
    ensures Inv(AddBatchStep(s, size, reply))
  {
    var end := Least(s.phase.done + size, |s.phase.rows|);
    var batch := s.phase.rows[s.phase.done..end];
    var written := s.(members := AddAll(s.members, batch));
    NextBatch(s, batch, end);
    BatchImproves(s, batch);
    var t := AddBatchStep(s, size, reply);
    if reply.Applied? {
      assert t == written.(phase := Adding(s.phase.ids, s.phase.rows, end));
      BatchAddedKeeps(s, written, batch, end);
    } else {
      assert t == Failed(s.(members := t.members), true);
      FailedKeeps(s, s.(members := t.members), true);
    }
  }

  lemma BatchAddedKeeps(s: Sys, written: Sys, batch: seq<Entry>, end: nat)
    requires Inv(s) && s.phase.Adding? && s.phase.done <= end <= |s.phase.rows|
    requires s.phase.rows[s.phase.done..] == batch + s.phase.rows[end..]
    requires Improves(s, written, Ids(batch)) && written == s.(members := written.members)
    ensures Inv(written.(phase := Adding(s.phase.ids, s.phase.rows, end)))
  {
    var t := written.(phase := Adding(s.phase.ids, s.phase.rows, end));
    forall id: Id | Settled(s, id) && id !in s.taken && Covered(s, id) ensures Covered(t, id) {
      assert id in Ids(Unwritten(s)) ==> id in Ids(batch) || id in Ids(s.phase.rows[end..]);
      assert Right(written, id) ==> Right(t, id);
    }
    SchedulerStepKeeps(s, t);
  }

  lemma BatchRemovedKeeps(s: Sys, removed: Sys, end: nat)
    requires Inv(s) && s.phase.Removing? && s.phase.done <= end <= |s.phase.stale|
    requires removed == s.(members := RemoveAll(s.members, s.phase.stale[s.phase.done..end]))
    ensures Inv(removed.(phase := Removing(s.phase.stale, end)))
  {
    assert forall id :: id in s.phase.stale[s.phase.done..end] ==> id in s.phase.stale;
    SchedulerStepKeeps(s, removed.(phase := Removing(s.phase.stale, end)));
  }

  lemma RemoveBatchKeeps(s: Sys, size: nat, reply: Reply)
    requires Inv(s) && s.phase.Removing?
    ensures Inv(RemoveBatchStep(s, size, reply))
  {
    var t, end := RemoveBatchStep(s, size, reply), Least(s.phase.done + size, |s.phase.stale|);
    var removed := s.(members := RemoveAll(s.members, s.phase.stale[s.phase.done..end]));
    if reply.Applied? {
      assert t == removed.(phase := Removing(s.phase.stale, end));
      BatchRemovedKeeps(s, removed, end);
    } else {
      assert t == Failed(s.(members := t.members), true);
      FailedKeeps(s, s.(members := t.members), true);
    }
  }

  lemma CheckedKnown(s: Sys)
    requires Inv(s) && s.phase.Idle? && !Flagged(s)
    ensures KnownRight(s.(phase := Asking(SettledIds(s))))
  {
    forall id | id in SettledIds(s) && id !in s.taken && !s.degraded ensures Right(s, id) {
      assert Settled(s, id) && Covered(s, id);
    }
  }

  lemma CheckKeeps(s: Sys)
    requires Inv(s)
    ensures Inv(CheckStep(s))
  {
    if s.phase.Idle? && !Flagged(s) { CheckedKnown(s); }
    SchedulerStepKeeps(s, CheckStep(s));
  }

  lemma CountKeeps(s: Sys, reply: Reply)
    requires Inv(s)
    ensures Inv(CountStep(s, reply))
  {
    if s.phase.Asking? {
      if !reply.Applied? { FailedKeeps(s, s, true); } else { SchedulerStepKeeps(s, CountStep(s, reply)); }
    }
  }

  lemma RestartKeeps(s: Sys)
    requires Inv(s)
    ensures Inv(RestartStep(s))
  {
  }

  // ---------------------------------------------------------------- runs

  predicate IsOurs(op: Op) { op.Serve? || op.Claim? || op.Deliver? || op.LetGo? || op.Forget? || op.Restart? }

  predicate IsTheirs(op: Op) {
    op.TheirClaim? || op.TheirDeliver? || op.TheirLetGo? || op.TheirForget? || op.TheirRemove?
  }

  lemma OursKeep(s: Sys, op: Op)
    requires Inv(s) && IsOurs(op)
    ensures Inv(Apply(s, op))
  {
    match op
    case Serve(call, op) => ServeKeeps(s, call, op);
    case Claim(ids, now, lease) => ClaimKeeps(s, ids, now, lease);
    case Deliver(call, id, sentAt) => DeliverKeeps(s, call, id, sentAt);
    case LetGo(id, at) => LetGoKeeps(s, id, at);
    case Forget(id) => ForgetKeeps(s, ForgetStep(s, id));
    case Restart => RestartKeeps(s);
  }

  lemma TheirsKeep(s: Sys, op: Op)
    requires Inv(s) && IsTheirs(op)
    ensures Inv(Apply(s, op))
  {
    match op
    case TheirClaim(ids, now, lease) => TheirClaimKeeps(s, ids, now, lease);
    case TheirDeliver(id, sentAt) => TheirDeliverKeeps(s, id, sentAt);
    case TheirLetGo(id, at) => TheirLetGoKeeps(s, id, at);
    case TheirForget(id) => ForgetKeeps(s, TheirForgetStep(s, id));
    case TheirRemove(id, reply) => TheirRemoveKeeps(s, id, reply);
  }

  lemma WriteKeeps(s: Sys, call: nat, reply: Reply)
    requires Inv(s)
    ensures Inv(WriteStep(s, call, reply))
  {
    if call in s.calls && s.calls[call] != [] {
      if s.calls[call][0].Dirty? { DirtyKeeps(s, call, reply); }
      else if reply.Applied? { AnsweredKeeps(s, call); }
      else { UnansweredKeeps(s, call, reply); }
    }
  }

  predicate Reads(op: Op) { op.List? || op.Load? || op.Store? || op.Query? }

  predicate Rebuilds(op: Op) { op.AddBatch? || op.AllAdded? || op.RemoveBatch? || op.Done? }

  lemma ReadsKeep(s: Sys, op: Op)
    requires Inv(s) && Reads(op)
    ensures Inv(Apply(s, op))
  {
    match op
    case List(ids, reply) => ListKeeps(s, ids, reply);
    case Query(rows) => QueryKeeps(s, rows);
    case _ => VersionKeeps(s, op);
  }

  lemma AnyAddBatchKeeps(s: Sys, size: nat, reply: Reply)
    requires Inv(s)
    ensures Inv(AddBatchStep(s, size, reply))
  {
    if s.phase.Adding? { AddBatchKeeps(s, size, reply); }
  }

  lemma AnyRemoveBatchKeeps(s: Sys, size: nat, reply: Reply)
    requires Inv(s)
    ensures Inv(RemoveBatchStep(s, size, reply))
  {
    if s.phase.Removing? { RemoveBatchKeeps(s, size, reply); }
  }

  lemma RebuildsKeep(s: Sys, op: Op)
    requires Inv(s) && Rebuilds(op)
    ensures Inv(Apply(s, op))
  {
    match op
    case AddBatch(size, reply) => AnyAddBatchKeeps(s, size, reply);
    case AllAdded => AllAddedKeeps(s);
    case RemoveBatch(size, reply) => AnyRemoveBatchKeeps(s, size, reply);
    case Done => DoneKeeps(s);
  }

  lemma AnswersKeep(s: Sys, op: Op)
    requires Inv(s) && (op.WriteIndex? || op.Check? || op.Count?)
    ensures Inv(Apply(s, op))
  {
    match op
    case WriteIndex(call, reply) => WriteKeeps(s, call, reply);
    case Check => CheckKeeps(s);
    case Count(reply) => CountKeeps(s, reply);
  }

  lemma ApplyKeeps(s: Sys, op: Op)
    requires Inv(s)
    ensures Inv(Apply(s, op))
  {
    if Reads(op) { ReadsKeep(s, op); }
    else if Rebuilds(op) { RebuildsKeep(s, op); }
    else if IsOurs(op) { OursKeep(s, op); }
    else if IsTheirs(op) { TheirsKeep(s, op); }
    else { AnswersKeep(s, op); }
  }

  lemma {:induction false} RunKeeps(s: Sys, ops: seq<Op>)
    requires Inv(s)
    ensures Inv(Run(s, ops))
  {
    if ops != [] {
      RunKeeps(s, ops[..|ops| - 1]);
      ApplyKeeps(Run(s, ops[..|ops| - 1]), ops[|ops| - 1]);
    }
  }

  lemma StartKeeps(s: Sys)
    requires Start(s)
    ensures Inv(s)
  {
  }

  /** Main result. HasDue compares the versions and then counts; at that moment every reminder that
      was settled at the comparison, is still pending and was not taken over is in the index, and
      one that is due is counted unless its time is blurred. */
  lemma NothingDueIsNeverWrong(s: Sys, ops: seq<Op>, id: Id, now: Time)
    requires Start(s)
    requires var t := Run(s, ops);
      t.phase.Asking? && !t.degraded && id in t.phase.known && Pending(t, id) && id !in t.taken
    ensures var t := Run(s, ops);
      id in t.members && (id !in t.blurred && ScheduledAt(t, id) <= now ==> AnyDue(t.members, now))
  {
    StartKeeps(s);
    RunKeeps(s, ops);
    var t := Run(s, ops);
    assert Right(t, id);
    if id !in t.blurred && ScheduledAt(t, id) <= now { DueIsCounted(t.members, id, ScheduledAt(t, id), now); }
  }

  /** Between reconciliations a settled reminder is right in the index, or HasDue refuses to answer,
      or the scheduler knows that the index is degraded. */
  lemma SettledIsCovered(s: Sys, ops: seq<Op>, id: Id)
    requires Start(s) && Run(s, ops).phase.Idle? && Settled(Run(s, ops), id) && id !in Run(s, ops).taken
    ensures var t := Run(s, ops); Right(t, id) || Flagged(t) || t.degraded
  {
    StartKeeps(s);
    RunKeeps(s, ops);
    assert Covered(Run(s, ops), id);
  }
}
