/** The reminder repository as it works: the selections, the guarded row updates and the retried
    replacement, each transaction proved equal to its specification function. */
module ReminderRepository {
  import opened Options
  import opened Reminders
  import opened ReminderRuns

  /** ORDER BY scheduled_at, ascending or descending. */
  predicate InOrder(db: Db, i: Id, j: Id, descending: bool)
    requires i in db.rows && j in db.rows
  {
    if descending then db.rows[i].scheduledAt >= db.rows[j].scheduledAt
    else db.rows[i].scheduledAt <= db.rows[j].scheduledAt
  }

  ghost predicate Sorted(db: Db, ids: seq<Id>, descending: bool) {
    && (forall i :: 0 <= i < |ids| ==> ids[i] in db.rows)
    && (forall i, j :: 0 <= i < j < |ids| ==> InOrder(db, ids[i], ids[j], descending))
  }

  /** The list of the pending reminders that the draft replaces, each once. */
  ghost predicate ListsReplaced(ids: seq<Id>, db: Db, d: Draft, unseen: set<Id>) {
    Distinct(ids) && forall id :: id in ids <==> Replaces(db, d, unseen, id)
  }

  /** The list of the sent reminders that the draft completes, each once. */
  ghost predicate ListsSuperseded(ids: seq<Id>, db: Db, d: Draft, unseen: set<Id>) {
    Distinct(ids) && forall id :: id in ids <==> Supersedes(db, d, unseen, id)
  }

  /** The latest of the pending reminders that the draft would replace. */
  ghost predicate IsLatest(db: Db, d: Draft, unseen: set<Id>, id: Id) {
    && Replaces(db, d, unseen, id)
    && forall j :: Replaces(db, d, unseen, j) ==> db.rows[j].scheduledAt <= db.rows[id].scheduledAt
  }

  predicate MatchesKey(r: Reminder, spaceId: Id, key: Key) {
    Live(r) && HasKey(r, spaceId, key) && (r.status.Pending? || r.status.Sent?)
  }

  /** What a claim picks: claimable rows that nobody locks, earliest first, none of which is later
      than a free claimable row it leaves behind; with rows left behind it is full. */
  ghost predicate Picks(db: Db, ids: seq<Id>, now: Time, staleBefore: Time, limit: nat, locked: set<Id>) {
    && |ids| <= limit && Distinct(ids) && (forall i :: 0 <= i < |ids| ==> ids[i] in db.rows)
    && (forall id :: id in ids ==> Claimable(db, id, now, staleBefore) && id !in locked)
    && (forall i, j :: 0 <= i < j < |ids| ==>
          db.rows[ids[i]].scheduledAt <= db.rows[ids[j]].scheduledAt)
    && (forall id :: Claimable(db, id, now, staleBefore) && id !in locked && id !in ids ==>
          |ids| == limit && forall j :: j in ids ==> j in db.rows && db.rows[j].scheduledAt <= db.rows[id].scheduledAt)
  }

  /** One attempt that went through. */
  ghost predicate IsAttempt(db: Db, db': Db, d: Draft, unseen: set<Id>, now: Time, o: Outcome) {
    db' == AddTx(db, d, unseen, now) && o == AddOutcome(db, d, unseen) && !o.Violation?
  }

  function Limit(limit: int): nat { if limit <= 0 then 50 else limit }

  class Repository {
    var rows: map<Id, Reminder>
    var nextId: Id

    function Model(): Db
      reads this
    {
      Db(rows, nextId)
    }

    constructor ()
      ensures Model() == Start(0).db
    {
      rows, nextId := map[], 0;
    }

    /** ORDER BY scheduled_at LIMIT: the first of the given rows, in order. */
    method Select(ids: set<Id>, limit: Option<nat>, descending: bool) returns (first: seq<Id>)
      requires ids <= rows.Keys
      ensures Distinct(first) && Sorted(Model(), first, descending)
      ensures forall id :: id in first ==> id in ids
      ensures limit.Some? ==> |first| <= limit.value
      ensures forall id :: id in ids && id !in first ==>
        limit.Some? && |first| == limit.value && forall j :: j in first ==> InOrder(Model(), j, id, descending)
    {
      first := [];
      var rest := ids;
      while rest != {} && (limit.None? || |first| < limit.value)
        invariant rest <= ids && Distinct(first) && Sorted(Model(), first, descending)
        invariant forall id :: id in ids <==> id in rest || id in first
        invariant forall id :: id in first ==> id !in rest
        invariant limit.Some? ==> |first| <= limit.value
        invariant forall j, id :: j in first && id in rest ==> InOrder(Model(), j, id, descending)
        decreases rest
      {
        var best := Foremost(rest, descending);
        first := first + [best];
        rest := rest - {best};
      }
    }

    method Foremost(ids: set<Id>, descending: bool) returns (best: Id)
      requires ids <= rows.Keys && ids != {}
      ensures best in ids && forall id :: id in ids ==> InOrder(Model(), best, id, descending)
    {
      if forall x :: x !in ids { assert false; }
      best :| best in ids;
      var todo := ids - {best};
      while todo != {}
        invariant todo <= ids && best in ids
        invariant forall id :: id in ids && id !in todo ==> InOrder(Model(), best, id, descending)
        decreases todo
      {
        if forall x :: x !in todo { assert false; }
        var id: Id :| id in todo;
        todo := todo - {id};
        if !InOrder(Model(), best, id, descending) { best := id; }
      }
    }

    // ------------------------------------------------------- replacement

    method Create(d: Draft, now: Time) returns (id: Id)
      modifies this
      ensures Model() == Insert(old(Model()), d, now) && id == old(nextId)
    {
      id := nextId;
      rows := rows[id := Reminder(id, d.spaceId, d.key, d.text, d.scheduledAt, Pending, None, None, None, None, now)];
      nextId := id + 1;
    }

    /** The locking query of replaceOnce, split by status: all the pending rows that the snapshot
        shows, latest first, and the sent rows that were due no later than the new event. */
    method Matching(d: Draft, unseen: set<Id>) returns (pending: seq<Id>, sent: seq<Id>)
      ensures ListsReplaced(pending, Model(), d, unseen) && Sorted(Model(), pending, true)
      ensures ListsSuperseded(sent, Model(), d, unseen)
    {
      var found := set id | id in rows && d.key.Some? && id !in unseen && MatchesKey(rows[id], d.spaceId, d.key.value);
      var matching := Select(found, None, true);
      pending, sent := [], [];
      for i := 0 to |matching|
        invariant Distinct(pending) && Distinct(sent) && Sorted(Model(), pending, true)
        invariant forall id :: id in pending <==> id in matching[..i] && Replaces(Model(), d, unseen, id)
        invariant forall id :: id in sent <==> id in matching[..i] && Supersedes(Model(), d, unseen, id)
        invariant forall j :: 0 <= j < |pending| && i < |matching| ==> InOrder(Model(), pending[j], matching[i], true)
      {
        var id := matching[i];
        assert id in matching && id !in matching[..i];
        assert matching[..i + 1] == matching[..i] + [id];
        if rows[id].status.Pending? {
          pending := pending + [id];
        } else if rows[id].scheduledAt <= d.scheduledAt {
          sent := sent + [id];
        }
      }
      assert matching[..|matching|] == matching;
    }

    /** replaceOnce: a violation of the unique index rolls the whole transaction back. */
    method ReplaceOnce(d: Draft, unseen: set<Id>, now: Time)
      returns (o: Outcome, kept: Option<Id>, replaced: seq<Id>, completed: seq<Id>)
      requires d.key.Some? && nextId !in rows
      modifies this
      ensures Model() == AddTx(old(Model()), d, unseen, now) && o == AddOutcome(old(Model()), d, unseen)
      ensures o.KeptExisting? ==> kept.Some? && IsLatest(old(Model()), d, unseen, kept.value)
      ensures o.Created? || o.Replaced? ==>
        ListsReplaced(replaced, old(Model()), d, unseen) && ListsSuperseded(completed, old(Model()), d, unseen)
    {
      ghost var db := Model();
      var pending, sent := Matching(d, unseen);
      if |pending| > 0 && rows[pending[0]].scheduledAt > d.scheduledAt {
        PendingIsLatest(db, d, unseen, pending);
        return KeptExisting, Some(pending[0]), [], [];
      }
      NothingLater(db, d, unseen, pending);
      var before := rows;
      ClearMatching(d, unseen, pending, sent, now);
      ClearedPending(db, d, unseen, now);
      if exists id :: id in rows && PendingFor(Model(), d.spaceId, d.key.value, id) {
        rows := before;
        return Violation, None, [], [];
      }
      var id := Create(d, now);
      assert |pending| > 0 ==> pending[0] in pending;
      return if |pending| > 0 then Replaced else Created, None, pending, sent;
    }

    method ClearMatching(d: Draft, unseen: set<Id>, pending: seq<Id>, sent: seq<Id>, now: Time)
      requires ListsReplaced(pending, Model(), d, unseen) && ListsSuperseded(sent, Model(), d, unseen)
      modifies this`rows
      ensures Model() == Cleared(old(Model()), d, unseen, now)
    {
      UpdateRows(pending, r => CancelledRow(r, now));
      UpdateRows(sent, r => CompletedRow(r, now));
    }

    /** UPDATE ... WHERE id IN ids. */
    method UpdateRows(ids: seq<Id>, f: Reminder -> Reminder)
      requires Distinct(ids) && forall id :: id in ids ==> id in rows
      modifies this`rows
      ensures rows.Keys == old(rows).Keys
      ensures forall id :: id in rows ==> rows[id] == if id in ids then f(old(rows)[id]) else old(rows)[id]
    {
      for i := 0 to |ids|
        invariant rows.Keys == old(rows).Keys
        invariant forall id :: id in rows ==> rows[id] == if id in ids[..i] then f(old(rows)[id]) else old(rows)[id]
      {
        assert ids[i] in ids && ids[i] !in ids[..i];
        assert ids[..i + 1] == ids[..i] + [ids[i]];
        rows := rows[ids[i] := f(rows[ids[i]])];
      }
      assert ids[..|ids|] == ids;
    }

    /** CreateReplacing: one retry when a concurrent creation took the key. Other transactions may commit
        between the attempts: `meanwhile` is the table that the second attempt finds. */
    method CreateReplacing(d: Draft, unseen: set<Id>, meanwhile: Db, unseenAgain: set<Id>, now: Time)
      returns (conflict: bool, o: Outcome, kept: Option<Id>, replaced: seq<Id>, completed: seq<Id>)
      requires nextId !in rows && meanwhile.nextId !in meanwhile.rows
      modifies this
      ensures d.key.None? ==> !conflict && o.Created? && Model() == Insert(old(Model()), d, now)
      ensures d.key.Some? ==>
        var again := AddOutcome(old(Model()), d, unseen).Violation?;
        var db, hidden := if again then meanwhile else old(Model()), if again then unseenAgain else unseen;
          && (conflict <==> again && AddOutcome(meanwhile, d, unseenAgain).Violation?)
          && (if conflict then Model() == meanwhile else IsAttempt(db, Model(), d, hidden, now, o))
          && (o.KeptExisting? ==> kept.Some? && IsLatest(db, d, hidden, kept.value))
          && (o.Created? || o.Replaced? ==>
                ListsReplaced(replaced, db, d, hidden) && ListsSuperseded(completed, db, d, hidden))
    {
      if d.key.None? {
        var id := Create(d, now);
        return false, Created, None, [], [];
      }
      for attempt := 0 to 2
        invariant attempt == 0 ==> Model() == old(Model())
        invariant attempt > 0 ==> AddOutcome(old(Model()), d, unseen).Violation?
        invariant attempt > 1 ==> AddOutcome(meanwhile, d, unseenAgain).Violation? && Model() == meanwhile
      {
        if attempt == 1 { rows, nextId := meanwhile.rows, meanwhile.nextId; }
        o, kept, replaced, completed := ReplaceOnce(d, if attempt == 0 then unseen else unseenAgain, now);
        if !o.Violation? { return false, o, kept, replaced, completed; }
      }
      return true, Violation, None, [], [];
    }

    // ------------------------------------------------------ notification

    method ClaimDueForNotification(now: Time, staleBefore: Time, limit: int, locked: set<Id>)
        returns (claimed: seq<Reminder>)
      modifies this`rows
      ensures exists ids ::
        && Picks(old(Model()), ids, now, staleBefore, if limit <= 0 then 50 else limit, locked)
        && Model() == ClaimTx(old(Model()), (set id | id in ids), now)
        && |claimed| == |ids|
        && forall i :: 0 <= i < |ids| ==> claimed[i] == old(rows)[ids[i]].(claimedAt := Some(now))
    {
      var table := rows;
      var free := set id | id in rows && Claimable(Model(), id, now, staleBefore) && id !in locked;
      var ids := Select(free, Some(Limit(limit)), false);
      assert Picks(Model(), ids, now, staleBefore, Limit(limit), locked);
      claimed := [];
      for i := 0 to |ids|
        invariant |claimed| == i
        invariant forall j :: 0 <= j < i ==> claimed[j] == table[ids[j]].(claimedAt := Some(now))
      {
        claimed := claimed + [rows[ids[i]].(claimedAt := Some(now))];
      }
      UpdateRows(ids, r => ClaimedRow(r, now));
    }

    method MarkNotificationSent(id: Id, claimedAt: Time, sentAt: Time) returns (ok: bool)
      modifies this`rows
      ensures Model() == MarkTx(old(Model()), id, claimedAt, sentAt) && (ok <==> Owns(old(Model()), id, claimedAt))
    {
      ok := Owns(Model(), id, claimedAt);
      if ok {
        rows := rows[id :=
          rows[id].(notifiedAt := Some(sentAt), claimedAt := None, status := Sent, updatedAt := sentAt)];
      }
    }

    method ReleaseNotificationClaim(id: Id, claimedAt: Time, at: Time) returns (ok: bool)
      modifies this`rows
      ensures Model() == ReleaseTx(old(Model()), id, claimedAt, at) && (ok <==> Owns(old(Model()), id, claimedAt))
    {
      ok := Owns(Model(), id, claimedAt);
      if ok { rows := rows[id := rows[id].(claimedAt := None, updatedAt := at)]; }
    }

    // -------------------------------------------------------- user writes

    method CompleteUnfinished(spaceId: Id, id: Id, at: Time) returns (ok: bool)
      modifies this`rows
      ensures Model() == CompleteTx(old(Model()), spaceId, id, at) && (ok <==> Unfinished(old(Model()), spaceId, id))
    {
      ok := Unfinished(Model(), spaceId, id);
      if ok { rows := rows[id := rows[id].(status := Completed, completedAt := Some(at), updatedAt := at)]; }
    }

    method UpdatePending(spaceId: Id, id: Id, f: UpdateFields, at: Time) returns (ok: bool)
      modifies this`rows
      ensures Model() == UpdateTx(old(Model()), spaceId, id, f, at) && (ok <==> MayUpdate(old(Model()), spaceId, id, f))
    {
      if f.text.None? && f.scheduledAt.None? { return false; }
      if !LiveIn(Model(), spaceId, id) || !rows[id].status.Pending? { return false; }
      var r := rows[id].(updatedAt := at);
      if f.text.Some? { r := r.(text := f.text.value); }
      if f.scheduledAt.Some? { r := r.(scheduledAt := f.scheduledAt.value); }
      rows := rows[id := r];
      return true;
    }

    method SoftDelete(spaceId: Id, id: Id, status: Status, at: Time) returns (ok: bool)
      modifies this`rows
      ensures Model() == DeleteTx(old(Model()), spaceId, id, status, at) && (ok <==> LiveIn(old(Model()), spaceId, id))
    {
      ok := LiveIn(Model(), spaceId, id);
      if ok { rows := rows[id := rows[id].(status := status, deletedAt := Some(at), updatedAt := at)]; }
    }
  }

  lemma PendingIsLatest(db: Db, d: Draft, unseen: set<Id>, pending: seq<Id>)
    requires ListsReplaced(pending, db, d, unseen) && Sorted(db, pending, true) && pending != []
    ensures IsLatest(db, d, unseen, pending[0])
  {
  }

  lemma NothingLater(db: Db, d: Draft, unseen: set<Id>, pending: seq<Id>)
    requires ListsReplaced(pending, db, d, unseen) && Sorted(db, pending, true)
    requires pending != [] ==> db.rows[pending[0]].scheduledAt <= d.scheduledAt
    ensures !KeepsLater(db, d, unseen)
  {
  }

  /** After the cancellations the pending rows of the key are the unseen ones. */
  lemma ClearedPending(db: Db, d: Draft, unseen: set<Id>, now: Time)
    requires d.key.Some?
    ensures forall id :: PendingFor(Cleared(db, d, unseen, now), d.spaceId, d.key.value, id) <==>
      PendingFor(db, d.spaceId, d.key.value, id) && id in unseen
  {
  }
}
