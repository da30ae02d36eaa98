/** What holds over whole runs of the reminder table: one live pending reminder per replace key,
    forward-only statuses, claims that fence, and the latest event winning. */
module ReminderRuns {
  import opened Options
  import opened Reminders

  // --------------------------------------------------------- invariant

  predicate RowOk(s: Sys, id: Id)
    requires id in s.db.rows
  {
    var r := s.db.rows[id];
    && r.id == id < s.db.nextId
    && (Live(r) ==> !r.status.Cancelled? && (r.status.Pending? ==> r.notifiedAt.None?))
    && (r.claimedAt.Some? ==> r.claimedAt.value <= s.clock)
  }

  ghost predicate RowsOk(s: Sys) { forall id :: id in s.db.rows ==> RowOk(s, id) }

  /** The unique index: at most one live pending reminder per space and replace key. */
  ghost predicate OnePending(db: Db) {
    forall spaceId, key, i, j :: PendingFor(db, spaceId, key, i) && PendingFor(db, spaceId, key, j) ==> i == j
  }

  /** No reminder is marked twice, and a marked one is not pending any more. */
  ghost predicate MarksOk(s: Sys) {
    && (forall i, j :: 0 <= i < j < |s.marks| ==> s.marks[i] != s.marks[j])
    && (forall i :: 0 <= i < |s.marks| ==> s.marks[i] in s.db.rows && !LivePending(s.db, s.marks[i]))
  }

  ghost predicate Inv(s: Sys) { RowsOk(s) && OnePending(s.db) && MarksOk(s) }

  // --------------------------------------------------- how rows evolve

  predicate Moves(a: Status, b: Status) {
    a == b || (a.Pending? && (b.Sent? || b.Completed?)) || (a.Sent? && b.Completed?)
  }

  /** A row keeps its identity; deleted it never changes; live it only moves forward; and its time
      changes only while it is pending. */
  predicate RowEvolves(r: Reminder, r': Reminder) {
    && r'.id == r.id && r'.spaceId == r.spaceId && r'.key == r.key
    && (!Live(r) ==> r' == r)
    && (Live(r') ==> Moves(r.status, r'.status))
    && (!r.status.Pending? ==> r'.scheduledAt == r.scheduledAt)
  }

  ghost predicate Evolves(db: Db, db': Db) {
    && db.nextId <= db'.nextId
    && (forall id :: id in db.rows ==> id in db'.rows && RowEvolves(db.rows[id], db'.rows[id]))
    && (forall id :: id in db'.rows && id !in db.rows ==> id >= db.nextId)
  }

  lemma EvolvesTransitive(a: Db, b: Db, c: Db)
    requires Evolves(a, b) && Evolves(b, c)
    ensures Evolves(a, c)
  {
  }

  lemma AddEvolves(s: Sys, op: Op)
    requires RowsOk(s) && op.Add?
    ensures Evolves(s.db, Apply(s, op).db) && RowsOk(Apply(s, op))
  {
    var t := Apply(s, op);
    assert forall id :: id in s.db.rows ==> RowOk(s, id);
    forall id | id in t.db.rows ensures RowOk(t, id) {}
  }

  lemma UserWritesEvolve(s: Sys, op: Op)
    requires RowsOk(s) && Allowed(op) && (op.Complete? || op.Update? || op.Delete?)
    ensures Evolves(s.db, Apply(s, op).db) && RowsOk(Apply(s, op))
  {
    var t := Apply(s, op);
    assert forall id :: id in s.db.rows ==> RowOk(s, id);
    forall id | id in t.db.rows ensures RowOk(t, id) {}
  }

  lemma NotificationsEvolve(s: Sys, op: Op)
    requires RowsOk(s) && (op.Claim? || op.Mark? || op.Release?)
    ensures Evolves(s.db, Apply(s, op).db) && RowsOk(Apply(s, op))
  {
    var t := Apply(s, op);
    assert forall id :: id in s.db.rows ==> RowOk(s, id);
    forall id | id in t.db.rows ensures RowOk(t, id) {}
  }

  lemma AddKeepsOne(db: Db, d: Draft, unseen: set<Id>, now: Time)
    requires OnePending(db) && forall id :: id in db.rows ==> id < db.nextId
    ensures OnePending(AddTx(db, d, unseen, now))
  {
    var db' := AddTx(db, d, unseen, now);
    if Adds(db, d, unseen) {
      forall spaceId, key, i | PendingFor(db', spaceId, key, i) && i != db.nextId
        ensures PendingFor(db, spaceId, key, i)
        ensures !(d.spaceId == spaceId && d.key == Some(key))
      {
        assert !Replaces(db, d, unseen, i);
      }
    }
  }

  /** Any other step adds no pending row and changes no key. */
  lemma OthersKeepOne(db: Db, db': Db)
    requires OnePending(db) && Evolves(db, db') && db'.rows.Keys == db.rows.Keys
    ensures OnePending(db')
  {
    forall spaceId, key, i | PendingFor(db', spaceId, key, i) ensures PendingFor(db, spaceId, key, i) {
      assert RowEvolves(db.rows[i], db'.rows[i]);
    }
  }

  lemma MarksKept(s: Sys, op: Op)
    requires Inv(s) && Evolves(s.db, Apply(s, op).db)
    ensures MarksOk(Apply(s, op))
  {
    var t := Apply(s, op);
    forall i | 0 <= i < |s.marks| ensures s.marks[i] in t.db.rows && !LivePending(t.db, s.marks[i]) {
      assert RowEvolves(s.db.rows[s.marks[i]], t.db.rows[s.marks[i]]);
    }
    if t.marks != s.marks {
      assert LivePending(s.db, op.id) && op.id !in s.marks;
    }
  }

  lemma StepKeeps(s: Sys, op: Op)
    requires Inv(s) && Allowed(op)
    ensures Inv(Apply(s, op)) && Evolves(s.db, Apply(s, op).db)
  {
    if op.Add? {
      AddEvolves(s, op);
      assert forall id :: id in s.db.rows ==> RowOk(s, id);
      AddKeepsOne(s.db, op.draft, op.unseen, op.now);
    } else {
      if op.Complete? || op.Update? || op.Delete? { UserWritesEvolve(s, op); } else { NotificationsEvolve(s, op); }
      OthersKeepOne(s.db, Apply(s, op).db);
    }
    MarksKept(s, op);
  }

  /** Main invariant: in every run at most one live reminder is pending per space and key, none is
      marked sent twice, deleted rows are frozen and live ones only move forward. */
  lemma {:induction false} RunKeeps(s: Sys, ops: seq<Op>)
    requires Inv(s) && AllAllowed(ops)
    ensures Inv(Run(s, ops)) && Evolves(s.db, Run(s, ops).db)
  {
    if ops != [] {
      var front := ops[..|ops| - 1];
      assert forall i :: 0 <= i < |front| ==> front[i] == ops[i];
      RunKeeps(s, front);
      StepKeeps(Run(s, front), ops[|ops| - 1]);
      EvolvesTransitive(s.db, Run(s, front).db, Run(s, ops).db);
    }
  }

  lemma ReachableOk(clock: Time, ops: seq<Op>)
    requires AllAllowed(ops)
    ensures Inv(Run(Start(clock), ops))
  {
    RunKeeps(Start(clock), ops);
  }

  /** Between any two points of a run every reminder has only moved forward, and its notification is
      recorded at most once in the whole run. */
  lemma ForwardOnly(clock: Time, ops: seq<Op>, n: nat)
    requires AllAllowed(ops) && n <= |ops|
    ensures Evolves(Run(Start(clock), ops[..n]).db, Run(Start(clock), ops).db)
    ensures var marks := Run(Start(clock), ops).marks; forall i, j :: 0 <= i < j < |marks| ==> marks[i] != marks[j]
  {
    var s := Start(clock);
    assert AllAllowed(ops[..n]) && AllAllowed(ops[n..]);
    RunKeeps(s, ops[..n]);
    RunKeeps(Run(s, ops[..n]), ops[n..]);
    assert ops == ops[..n] + ops[n..];
    RunConcat(s, ops[..n], ops[n..]);
  }

  lemma {:induction false} RunConcat(s: Sys, a: seq<Op>, b: seq<Op>)
    ensures Run(s, a + b) == Run(Run(s, a), b)
  {
    if b == [] {
      assert a + b == a;
    } else {
      assert (a + b)[..|a + b| - 1] == a + b[..|b| - 1];
      RunConcat(s, a, b[..|b| - 1]);
    }
  }

  // --------------------------------------------------- replaced once

  /** Call i inserts its reminder and replaces the pending reminder id. */
  ghost predicate ReplacesAt(s: Sys, ops: seq<Op>, i: nat, id: Id)
    requires i < |ops|
  {
    ops[i].Add? &&
    var db := Run(s, ops[..i]).db;
    Adds(db, ops[i].draft, ops[i].unseen) && Replaces(db, ops[i].draft, ops[i].unseen, id)
  }

  /** A replaced reminder is cancelled once: it stays as that call left it, to the end of the run,
      and no other call replaces it. */
  lemma ReplacedOnce(s: Sys, ops: seq<Op>, i: nat, j: nat, id: Id)
    requires Inv(s) && AllAllowed(ops) && i < j < |ops| && ReplacesAt(s, ops, i, id)
    ensures id in Run(s, ops[..j]).db.rows
    ensures Run(s, ops[..j]).db.rows[id] == CancelledRow(Run(s, ops[..i]).db.rows[id], ops[i].now)
    ensures !ReplacesAt(s, ops, j, id)
  {
    var a, b := ops[..i + 1], ops[i + 1..j];
    assert ops[..j] == a + b && a[..i] == ops[..i];
    assert AllAllowed(a) && AllAllowed(b) && AllAllowed(ops[..i]);
    RunKeeps(s, ops[..i]);
    assert RowOk(Run(s, ops[..i]), id);
    RunKeeps(s, a);
    RunKeeps(Run(s, a), b);
    RunConcat(s, a, b);
    assert RowEvolves(Run(s, a).db.rows[id], Run(s, ops[..j]).db.rows[id]);
  }

  /** Whenever a new reminder is inserted, no sent reminder of its key that was due by then stays
      open, and those that were open are completed now. */
  lemma InsertCompletesEarlier(s: Sys, d: Draft, unseen: set<Id>, now: Time, id: Id)
    requires RowsOk(s) && d.key.Some? && Adds(s.db, d, unseen) && id !in unseen
    ensures var db' := AddTx(s.db, d, unseen, now);
      SentFor(db', d.spaceId, d.key.value, id) ==> db'.rows[id].scheduledAt > d.scheduledAt
    ensures var db' := AddTx(s.db, d, unseen, now);
      SentFor(s.db, d.spaceId, d.key.value, id) && s.db.rows[id].scheduledAt <= d.scheduledAt ==>
        id in db'.rows && db'.rows[id].status.Completed? && db'.rows[id].completedAt == Some(now) && Live(db'.rows[id])
  {
    assert id in s.db.rows ==> RowOk(s, id);
  }

  // ------------------------------------------------------------- fencing

  /** The stamp c belongs to the past: claims are stamped later now, and the row does not carry it. */
  predicate Fenced(s: Sys, id: Id, c: Time) {
    id in s.db.rows && c < s.clock && s.db.rows[id].claimedAt != Some(c)
  }

  /** Taking over an expired claim stamps a strictly later time and fences the old one. */
  lemma TakeoverFences(s: Sys, ids: set<Id>, now: Time, lease: Time, id: Id)
    requires RowsOk(s) && lease > 0 && ClaimHappens(s, ids, now, lease) && id in ids
    requires s.db.rows[id].claimedAt.Some?
    ensures var t, c := Apply(s, Claim(ids, now, lease)), s.db.rows[id].claimedAt.value;
      && t.db.rows[id].claimedAt == Some(now) && c < now && Fenced(t, id, c)
  {
    assert Claimable(s.db, id, now, now - lease);
  }

  lemma FencedStep(s: Sys, op: Op, id: Id, c: Time)
    requires Fenced(s, id, c)
    ensures Fenced(Apply(s, op), id, c)
  {
  }

  /** A superseded worker stays shut out in every run that follows: marking or releasing with its
      old stamp changes nothing. */
  lemma {:induction false} FencedForever(s: Sys, ops: seq<Op>, id: Id, c: Time)
    requires Fenced(s, id, c)
    ensures var t := Run(s, ops);
      && Fenced(t, id, c)
      && (forall at :: Apply(t, Mark(id, c, at)) == t)
      && (forall at :: Apply(t, Release(id, c, at)) == t)
  {
    if ops != [] {
      FencedForever(s, ops[..|ops| - 1], id, c);
      FencedStep(Run(s, ops[..|ops| - 1]), ops[|ops| - 1], id, c);
    }
  }

  // --------------------------------------- rescheduled while it is claimed

  predicate Reschedules(op: Op, id: Id) { op.Update? && op.id == id && op.fields.scheduledAt.Some? }

  predicate KeepsTime(ops: seq<Op>, id: Id) { forall op :: op in ops ==> !Reschedules(op, id) }

  /** The mark of a claim from before the reminder's time succeeds: it will never be due. */
  predicate SendsEarly(s: Sys, id: Id, claimedAt: Time) {
    && LivePending(s.db, id) && claimedAt < s.db.rows[id].scheduledAt
    && Owns(s.db, id, claimedAt)
  }

  /** As long as it is pending the reminder keeps the time, and a claim is the old one or a due one. */
  predicate ClaimsFrom(s: Sys, id: Id, at: Time, before: Option<Time>) {
    id < s.db.nextId && (LivePending(s.db, id) ==>
      && s.db.rows[id].scheduledAt == at
      && (s.db.rows[id].claimedAt.Some? ==> s.db.rows[id].claimedAt == before || at <= s.db.rows[id].claimedAt.value))
  }

  lemma ClaimsFromStep(s: Sys, op: Op, id: Id, at: Time, before: Option<Time>)
    requires Inv(s) && Allowed(op) && ClaimsFrom(s, id, at, before) && !Reschedules(op, id)
    requires id in s.db.rows
    ensures ClaimsFrom(Apply(s, op), id, at, before) && id in Apply(s, op).db.rows
  {
    assert RowOk(s, id);
  }

  lemma {:induction false} ClaimsFromRun(s: Sys, ops: seq<Op>, id: Id, at: Time, before: Option<Time>)
    requires Inv(s) && AllAllowed(ops) && ClaimsFrom(s, id, at, before) && KeepsTime(ops, id) && id in s.db.rows
    ensures ClaimsFrom(Run(s, ops), id, at, before) && id in Run(s, ops).db.rows
  {
    if ops != [] {
      var front, last := ops[..|ops| - 1], ops[|ops| - 1];
      assert last in ops && forall op :: op in front ==> op in ops;
      ClaimsFromRun(s, front, id, at, before);
      RunKeeps(s, front);
      ClaimsFromStep(Run(s, front), last, id, at, before);
    }
  }

  /** An update does not clear the claim, and a mark looks only at the claim: after a reschedule to `at`,
      some run without another reschedule sends the reminder on a claim from before `at`, so that the new
      time never fires, exactly if the reminder carried such a claim when it was updated. */
  lemma RescheduleLostIff(s: Sys, op: Op, id: Id, at: Time)
    requires Inv(s) && Reschedules(op, id) && MayUpdate(s.db, op.spaceId, id, op.fields)
    requires op.fields.scheduledAt == Some(at)
    ensures (exists ops, c :: AllAllowed(ops) && KeepsTime(ops, id) && SendsEarly(Run(Apply(s, op), ops), id, c))
      <==> s.db.rows[id].claimedAt.Some? && s.db.rows[id].claimedAt.value < at
  {
    var t, claimed := Apply(s, op), s.db.rows[id].claimedAt;
    assert RowOk(s, id);
    StepKeeps(s, op);
    if claimed.Some? && claimed.value < at {
      var none: seq<Op> := [];
      assert Run(t, none) == t;
      assert SendsEarly(Run(t, none), id, claimed.value);
    }
    forall ops, c | AllAllowed(ops) && KeepsTime(ops, id) && SendsEarly(Run(t, ops), id, c)
      ensures claimed.Some? && claimed.value < at
    {
      ClaimsFromRun(t, ops, id, at, claimed);
    }
  }

  /** What such a mark does: the reminder is sent, and its time is still to come. */
  lemma SentEarly(s: Sys, id: Id, claimedAt: Time, sentAt: Time)
    requires SendsEarly(s, id, claimedAt)
    ensures var r := Apply(s, Mark(id, claimedAt, sentAt)).db.rows[id];
      r.status.Sent? && r.scheduledAt == s.db.rows[id].scheduledAt && claimedAt < r.scheduledAt
  {
  }

  // ---------------------------------------------------- the latest wins

  /** All ops create reminders of one space and key. */
  ghost predicate AllFor(ops: seq<Op>, spaceId: Id, key: Key) {
    forall i :: 0 <= i < |ops| ==> ops[i].Add? && ops[i].draft.spaceId == spaceId && ops[i].draft.key == Some(key)
  }

  /** Call i does not fail on the unique index. */
  ghost predicate Succeeds(s: Sys, ops: seq<Op>, i: nat)
    requires i < |ops| && ops[i].Add?
  {
    !AddOutcome(Run(s, ops[..i]).db, ops[i].draft, ops[i].unseen).Violation?
  }

  /** Call i succeeded with the latest time, and of the calls with that time it is the last. */
  ghost predicate Wins(s: Sys, ops: seq<Op>, i: nat)
    requires i < |ops| && forall j :: 0 <= j < |ops| ==> ops[j].Add?
  {
    && Succeeds(s, ops, i)
    && (forall j :: 0 <= j < i && Succeeds(s, ops, j) ==> ops[j].draft.scheduledAt <= ops[i].draft.scheduledAt)
    && (forall j :: i < j < |ops| && Succeeds(s, ops, j) ==> ops[j].draft.scheduledAt < ops[i].draft.scheduledAt)
  }

  /** The row is the one that call i inserted, and nothing has changed it. */
  ghost predicate InsertedBy(s: Sys, ops: seq<Op>, i: nat, r: Reminder)
    requires i < |ops| && ops[i].Add?
  {
    r == NewRow(Run(s, ops[..i]).db, ops[i].draft, ops[i].now)
  }

  /** The winner's row is the live pending one of the key. */
  ghost predicate WinnerPends(s: Sys, ops: seq<Op>, spaceId: Id, key: Key, i: nat, id: Id)
    requires i < |ops| && forall j :: 0 <= j < |ops| ==> ops[j].Add?
  {
    var db := Run(s, ops).db;
    && Wins(s, ops, i) && PendingFor(db, spaceId, key, id) && InsertedBy(s, ops, i, db.rows[id])
  }

  ghost predicate NonePending(db: Db, spaceId: Id, key: Key) { forall id :: !PendingFor(db, spaceId, key, id) }

  /** Some pending reminder of the key is at t or later. */
  ghost predicate HasPendingFrom(db: Db, spaceId: Id, key: Key, t: Time) {
    exists id :: PendingFor(db, spaceId, key, id) && t <= db.rows[id].scheduledAt
  }

  /** The successful calls of a prefix are successful calls of the run. */
  lemma PrefixSucceeds(s: Sys, ops: seq<Op>, j: nat)
    requires j < |ops| - 1 && ops[j].Add?
    ensures Succeeds(s, ops[..|ops| - 1], j) <==> Succeeds(s, ops, j)
  {
    assert ops[..|ops| - 1][..j] == ops[..j];
  }

  lemma PrefixWins(s: Sys, ops: seq<Op>, i: nat)
    requires (forall j :: 0 <= j < |ops| ==> ops[j].Add?) && i < |ops| - 1 && Wins(s, ops[..|ops| - 1], i)
    requires Succeeds(s, ops, |ops| - 1) ==> ops[|ops| - 1].draft.scheduledAt < ops[i].draft.scheduledAt
    ensures Wins(s, ops, i)
  {
    var front := ops[..|ops| - 1];
    PrefixSucceeds(s, ops, i);
    forall j | 0 <= j < i && Succeeds(s, ops, j) ensures ops[j].draft.scheduledAt <= ops[i].draft.scheduledAt {
      PrefixSucceeds(s, ops, j);
      assert front[j] == ops[j];
    }
    forall j | i < j < |ops| && Succeeds(s, ops, j) ensures ops[j].draft.scheduledAt < ops[i].draft.scheduledAt {
      if j < |ops| - 1 {
        PrefixSucceeds(s, ops, j);
        assert front[j] == ops[j];
      }
    }
  }

  /** A call that writes nothing leaves the winner in place. */
  lemma WinnerStays(s: Sys, ops: seq<Op>, spaceId: Id, key: Key, i: nat, id: Id)
    requires (forall j :: 0 <= j < |ops| ==> ops[j].Add?) && i < |ops| - 1
    requires WinnerPends(s, ops[..|ops| - 1], spaceId, key, i, id) && Wins(s, ops, i)
    requires Run(s, ops).db == Run(s, ops[..|ops| - 1]).db
    ensures WinnerPends(s, ops, spaceId, key, i, id)
  {
    assert ops[..|ops| - 1][..i] == ops[..i];
  }

  /** A call that inserts takes the lead: what was pending was not later. */
  lemma NewWinner(s: Sys, ops: seq<Op>, spaceId: Id, key: Key)
    requires ops != [] && AllFor(ops, spaceId, key)
    requires var n := |ops| - 1;
      && Adds(Run(s, ops[..n]).db, ops[n].draft, ops[n].unseen)
      && (forall j :: 0 <= j < n && Succeeds(s, ops, j) ==>
            HasPendingFrom(Run(s, ops[..n]).db, spaceId, key, ops[j].draft.scheduledAt))
    ensures WinnerPends(s, ops, spaceId, key, |ops| - 1, Run(s, ops[..|ops| - 1]).db.nextId)
  {
  }

  /** Latest event wins, whatever the order of arrival: after any run of creations for one key some
      call that succeeded last with the latest time owns the one live pending reminder. */
  lemma {:induction false} LatestWins(s: Sys, ops: seq<Op>, spaceId: Id, key: Key)
    requires Inv(s) && NonePending(s.db, spaceId, key) && AllFor(ops, spaceId, key)
    ensures NonePending(Run(s, ops).db, spaceId, key) <==> forall i :: 0 <= i < |ops| ==> !Succeeds(s, ops, i)
    ensures !NonePending(Run(s, ops).db, spaceId, key) ==>
      exists i: nat, id :: i < |ops| && WinnerPends(s, ops, spaceId, key, i, id)
  {
    if ops != [] {
      var n := |ops| - 1;
      var front, op := ops[..n], ops[n];
      assert forall j :: 0 <= j < n ==> front[j] == ops[j];
      LatestWins(s, front, spaceId, key);
      forall j: nat | j < n ensures Succeeds(s, front, j) <==> Succeeds(s, ops, j) { PrefixSucceeds(s, ops, j); }
      RunKeeps(s, front);
      var db := Run(s, front).db;
      if Adds(db, op.draft, op.unseen) {
        forall j: nat | j < n && Succeeds(s, front, j)
          ensures HasPendingFrom(db, spaceId, key, front[j].draft.scheduledAt)
        {
          LeaderIsLatest(s, front, spaceId, key, j);
        }
        NewWinner(s, ops, spaceId, key);
      } else if !NonePending(db, spaceId, key) {
        var i: nat, id :| i < n && WinnerPends(s, front, spaceId, key, i, id);
        PrefixWins(s, ops, i);
        WinnerStays(s, ops, spaceId, key, i, id);
      }
    }
  }

  lemma LeaderIsLatest(s: Sys, ops: seq<Op>, spaceId: Id, key: Key, j: nat)
    requires AllFor(ops, spaceId, key)
    requires exists i: nat, id :: i < |ops| && WinnerPends(s, ops, spaceId, key, i, id)
    requires j < |ops| && Succeeds(s, ops, j)
    ensures HasPendingFrom(Run(s, ops).db, spaceId, key, ops[j].draft.scheduledAt)
  {
  }
}
