/** The repository of scheduled messages as it works: staged guards, row updates in place and loops
    over the selected rows, each transaction proved equal to its specification function. */
module DeliveryRepository {
  import opened Options
  import opened ScheduledMessages
  import opened DeliveryProtocol
  import opened DeliverySteps
  import opened DeliveryContents

  /** A worker's in-memory copy of a delivery, which the repository updates in place. */
  class Handle {
    var row: Delivery

    constructor (d: Delivery)
      ensures row == d
    {
      row := d;
    }
  }

  /** The two orders of due rows: next attempt first, then the schedule's id or the row's own. */
  datatype TieBreak = ScheduleId | RowId

  function TieKey(d: Delivery, tie: TieBreak): Id { if tie.ScheduleId? then d.scheduleId else d.id }

  predicate NoLater(db: Db, i: Id, j: Id) {
    && i in db.deliveries && j in db.deliveries
    && db.deliveries[i].nextAttemptAt.Some? && db.deliveries[j].nextAttemptAt.Some?
    && db.deliveries[i].nextAttemptAt.value <= db.deliveries[j].nextAttemptAt.value
  }

  predicate Before(db: Db, i: Id, j: Id, tie: TieBreak) {
    NoLater(db, i, j) && (NoLater(db, j, i) ==> TieKey(db.deliveries[i], tie) <= TieKey(db.deliveries[j], tie))
  }

  function DueRows(db: Db, now: Time): set<Id> { set id | id in db.deliveries && Due(db, id, now) }

  /** The due rows are the pending rows of active schedules in active spaces whose next attempt has come
      and that no lease holds, unless it has expired. */
  lemma DueIsClaimable(db: Db, id: Id, now: Time)
    requires RowsOk(db)
    ensures Due(db, id, now) <==> Claimable(db, id, now)
  {
    assert id in db.deliveries ==> RowWellFormed(db, id);
  }

  /** In the fields of the rows: no picked row is under a live lease, they come in the order of their
      next attempts and ids, and of the rows that nobody locks none is left behind that is tried earlier,
      or at the same time for a schedule with a smaller id, and none at all unless the claim is full. */
  ghost predicate PicksClaimable(
    db: Db, ids: seq<Id>, now: Time, limit: nat, lockedSchedules: set<Id>, lockedRows: set<Id>)
  {
    && |ids| <= limit
    && (forall id :: id in ids ==>
          Claimable(db, id, now) && id !in lockedRows && db.deliveries[id].scheduleId !in lockedSchedules)
    && (forall i, j :: 0 <= i < j < |ids| ==>
          ids[i] != ids[j] && Precedes(db, ids[i], ids[i], ids[j], ids[j]))
    && (forall id :: Claimable(db, id, now) && id !in lockedRows && db.deliveries[id].scheduleId !in lockedSchedules
                     && id !in ids ==>
          && (forall j :: j in ids && j in db.deliveries ==>
                Precedes(db, j, db.deliveries[j].scheduleId, id, db.deliveries[id].scheduleId))
          && (lockedRows == {} ==> |ids| == limit))
  }

  /** Row i is tried before row j, or at the same time with the smaller key. */
  predicate Precedes(db: Db, i: Id, key: Id, j: Id, key': Id) {
    && i in db.deliveries && j in db.deliveries
    && db.deliveries[i].nextAttemptAt.Some? && db.deliveries[j].nextAttemptAt.Some?
    && var t, t' := db.deliveries[i].nextAttemptAt.value, db.deliveries[j].nextAttemptAt.value;
       t < t' || (t == t' && key <= key')
  }

  lemma PicksTell(db: Db, ids: seq<Id>, now: Time, limit: nat, lockedSchedules: set<Id>, lockedRows: set<Id>)
    requires RowsOk(db) && Picks(db, ids, now, limit, lockedSchedules, lockedRows)
    ensures PicksClaimable(db, ids, now, limit, lockedSchedules, lockedRows)
  {
    forall id ensures Due(db, id, now) <==> Claimable(db, id, now) { DueIsClaimable(db, id, now); }
    forall id | Claimable(db, id, now) && id !in lockedRows && db.deliveries[id].scheduleId !in lockedSchedules
                && id !in ids
      ensures Left(db, ids, id, now, lockedSchedules, lockedRows)
    {
    }
  }

  /** A limit of a claim; a limit that is not positive means fifty. */
  function Limit(limit: int): nat { if limit <= 0 then 50 else limit }

  /** What a claim picks: due rows that nobody locks, none of which is later than a free due row it
      leaves behind; with rows left behind it is full, unless a row of it was locked. */
  ghost predicate Picks(db: Db, ids: seq<Id>, now: Time, limit: nat, lockedSchedules: set<Id>, lockedRows: set<Id>) {
    && |ids| <= limit && Distinct(ids)
    && (forall id :: id in ids ==>
      Due(db, id, now) && id !in lockedRows && db.deliveries[id].scheduleId !in lockedSchedules)
    && (forall i, j :: 0 <= i < j < |ids| ==> Before(db, ids[i], ids[j], RowId))
    && (forall id :: Left(db, ids, id, now, lockedSchedules, lockedRows) ==>
          && (forall j :: j in ids ==> Before(db, j, id, ScheduleId))
          && (lockedRows == {} ==> |ids| == limit))
  }

  /** A free due row that a claim leaves behind. */
  predicate Left(db: Db, ids: seq<Id>, id: Id, now: Time, lockedSchedules: set<Id>, lockedRows: set<Id>) {
    Due(db, id, now) && id !in lockedRows && db.deliveries[id].scheduleId !in lockedSchedules && id !in ids
  }

  lemma {:induction false} DistinctFits(s: seq<Id>, t: seq<Id>)
    requires Distinct(s) && forall i :: 0 <= i < |s| ==> s[i] in t
    ensures |s| <= |t|
  {
    if s == [] {
    } else {
      var k :| 0 <= k < |t| && t[k] == s[0];
      var rest := t[..k] + t[k + 1..];
      forall i | 1 <= i < |s| ensures s[i] in rest {
        assert s[0] != s[i];
        var m :| 0 <= m < |t| && t[m] == s[i];
        assert m != k;
        assert rest[if m < k then m else m - 1] == s[i];
      }
      DistinctFits(s[1..], rest);
    }
  }

  /** A full selection from a list of at most that length leaves nothing of the list behind. */
  lemma AllFit(list: seq<Id>, picked: seq<Id>, id: Id, limit: nat)
    requires |list| <= limit == |picked| && Distinct(picked) && forall i :: 0 <= i < |picked| ==> picked[i] in list
    ensures id in list ==> id in picked
  {
    if id in list && id !in picked {
      DistinctFits(picked + [id], list);
    }
  }

  /** The claims of a batch, one after the other. */
  function ClaimAll(db: Db, ids: seq<Id>, now: Time, until: Time): Db {
    if ids == [] then db else ClaimTx(ClaimAll(db, ids[..|ids| - 1], now, until), ids[|ids| - 1], now, until).db
  }

  function Claims(ids: seq<Id>, now: Time, until: Time): seq<Op> {
    seq(|ids|, i requires 0 <= i < |ids| => Claim(ids[i], now, until))
  }

  /** A batch claim is a run of single claims, so all that holds of runs holds of it. */
  lemma {:induction false} BatchIsRun(limits: Limits, s: Sys, ids: seq<Id>, now: Time, until: Time)
    ensures Run(limits, s, Claims(ids, now, until)).db == ClaimAll(s.db, ids, now, until)
  {
    if ids == [] {
    } else {
      var ops := Claims(ids, now, until);
      BatchIsRun(limits, s, ids[..|ids| - 1], now, until);
      assert ops[..|ops| - 1] == Claims(ids[..|ids| - 1], now, until);
    }
  }

  function SchedulesOf(db: Db, first: seq<Id>): set<Id> {
    set id | id in first && id in db.deliveries :: db.deliveries[id].scheduleId
  }

  function RowsOf(db: Db, now: Time, chosen: set<Id>, lockedRows: set<Id>): set<Id> {
    set id | id in db.deliveries && Due(db, id, now) && db.deliveries[id].scheduleId in chosen && id !in lockedRows
  }

  /** One pending row per schedule: the due rows of the chosen schedules are the rows chosen by. */
  lemma ChosenRows(db: Db, first: seq<Id>, now: Time, rows: set<Id>, lockedRows: set<Id>)
    requires RowsOk(db) && SchedulesConsistent(db)
    requires forall id :: id in first ==> Due(db, id, now)
    requires rows == RowsOf(db, now, SchedulesOf(db, first), lockedRows)
    ensures forall id :: id in rows <==> id in first && id !in lockedRows
  {
    forall id | id in rows ensures id in first {
      var f :| f in first && db.deliveries[f].scheduleId == db.deliveries[id].scheduleId;
      var sid := db.deliveries[id].scheduleId;
      assert Due(db, f, now) && Due(db, id, now) && ScheduleConsistent(db, sid);
      assert PendingOf(db, sid, id) && PendingOf(db, sid, f);
    }
  }

  lemma {:induction false} ClaimAllKeeps(db: Db, ids: seq<Id>, now: Time, until: Time, id: Id)
    requires id !in ids
    ensures var d := ClaimAll(db, ids, now, until);
      && d.spaces == db.spaces && d.schedules == db.schedules
      && (id in d.deliveries <==> id in db.deliveries)
      && (id in db.deliveries ==> d.deliveries[id] == db.deliveries[id])
  {
    if ids != [] {
      assert ids[|ids| - 1] in ids;
      ClaimAllKeeps(db, ids[..|ids| - 1], now, until, id);
    }
  }

  /** The row has the counters, the content and the outcome of the copy, and no lease. */
  predicate Overwritten(db: Db, d: Delivery, copy: Delivery) {
    && copy.id in db.deliveries
    && d == db.deliveries[copy.id].(
         status := copy.status, content := copy.content, failure := copy.failure,
         generationAttempts := copy.generationAttempts, deliveryAttempts := copy.deliveryAttempts,
         nextAttemptAt := copy.nextAttemptAt, updatedAt := copy.updatedAt, leaseToken := None, leaseUntil := None)
  }

  /** The row has the outcome of the copy and no lease; its counters and content stay. */
  predicate FinishedAs(db: Db, d: Delivery, copy: Delivery) {
    && copy.id in db.deliveries
    && d == db.deliveries[copy.id].(
         status := copy.status, failure := copy.failure, sentAt := copy.sentAt, nextAttemptAt := copy.nextAttemptAt,
         updatedAt := copy.updatedAt, leaseToken := None, leaseUntil := None)
  }

  /** The schedule has the status and the times of the copy. */
  predicate TakenFrom(schedule: Schedule, copy: Schedule) {
    && schedule.status == copy.status && schedule.nextScheduledAt == copy.nextScheduledAt
    && schedule.updatedAt == copy.updatedAt
  }

  ghost predicate KeepsOthers(db: Db, db': Db, ids: seq<Id>) {
    forall id :: id in db.deliveries && id !in ids ==> id in db'.deliveries && db'.deliveries[id] == db.deliveries[id]
  }

  lemma ClaimAllKeepsOthers(db: Db, ids: seq<Id>, now: Time, until: Time)
    ensures KeepsOthers(db, ClaimAll(db, ids, now, until), ids)
  {
    forall id | id in db.deliveries && id !in ids
      ensures id in ClaimAll(db, ids, now, until).deliveries
      ensures ClaimAll(db, ids, now, until).deliveries[id] == db.deliveries[id]
    {
      ClaimAllKeeps(db, ids, now, until, id);
    }
  }

  /** One pending row of the schedule is left, prepared for the next occurrence. */
  ghost predicate LeavesNext(db: Db, db': Db, sid: Id, next: NewDelivery) {
    exists id :: OnlyPending(db', sid, id) && FromNext(db, id, db'.deliveries[id], next)
  }

  /** What the replacement leaves: one pending row, prepared for the next occurrence. */
  lemma ReplacedTells(db: Db, sid: Id, existing: Option<Id>, next: NewDelivery, at: Time)
    requires RowsOk(db) && OccurrencesUnique(db) && existing == RowAt(db, sid, next.scheduledAt)
    ensures LeavesNext(db, Replaced(db, sid, existing, next, at), sid, next)
  {
    var db' := Replaced(db, sid, existing, next, at);
    assert db.nextId in db.deliveries ==> RowWellFormed(db, db.nextId);
    var id := if existing.Some? then existing.value else db.nextId;
    assert PendingOf(db', sid, id);
    assert OnlyPending(db', sid, id) && FromNext(db, id, db'.deliveries[id], next);
  }

  lemma EditLeavesNext(db: Db, spaceId: Id, sid: Id, f: UpdateFields, next: Option<NewDelivery>, at: Time)
    requires OccurrencesUnique(db)
    ensures var tx := UpdateActiveTx(db, spaceId, sid, f, next, at);
      && (tx.outcome == Done <==> MayEdit(db, spaceId, sid, next))
      && (tx.outcome == Done && RowsOk(db) ==> LeavesNext(db, tx.db, sid, next.value))
  {
    EditGoes(db, spaceId, sid, f, next, at);
    var tx := UpdateActiveTx(db, spaceId, sid, f, next, at);
    if tx.outcome == Done && RowsOk(db) {
      var existing := RowAt(db, sid, next.value.scheduledAt);
      var replaced := Replaced(db, sid, existing, next.value, at);
      ReplacedTells(db, sid, existing, next.value, at);
      assert tx.db.deliveries == replaced.deliveries;
      var id :| OnlyPending(replaced, sid, id) && FromNext(db, id, replaced.deliveries[id], next.value);
      assert forall j :: PendingOf(tx.db, sid, j) <==> PendingOf(replaced, sid, j);
      assert OnlyPending(tx.db, sid, id);
    }
  }

  class Repository {
    var spaces: map<Id, bool>
    var schedules: map<Id, Schedule>
    var deliveries: map<Id, Delivery>
    var nextId: Id

    function Model(): Db
      reads this
    {
      Db(spaces, schedules, deliveries, nextId)
    }

    constructor (spaces: map<Id, bool>)
      ensures Model() == Start(spaces).db
    {
      this.spaces, schedules, deliveries, nextId := spaces, map[], map[], 0;
    }

    method CreateUUID() returns (id: Id)
      modifies this`nextId
      ensures id == old(nextId) && nextId == id + 1
    {
      id := nextId;
      nextId := nextId + 1;
    }

    /** Looks the occurrence up through the unique index. */
    method FindOccurrence(sid: Id, at: Time) returns (r: Option<Id>)
      ensures r.None? <==> !Occupied(Model(), sid, at)
      ensures r.Some? ==> Occupies(Model(), sid, at, r.value)
    {
      var todo := deliveries.Keys;
      while todo != {}
        invariant todo <= deliveries.Keys
        invariant forall id :: Occupies(Model(), sid, at, id) ==> id in todo
        decreases todo
      {
        if forall x :: x !in todo { assert false; }
        var id: Id :| id in todo;
        if Occupies(Model(), sid, at, id) { return Some(id); }
        todo := todo - {id};
      }
      return None;
    }

    /** The pending rows of a schedule. */
    method PendingRows(sid: Id) returns (ids: seq<Id>)
      ensures Distinct(ids)
      ensures forall id :: id in ids <==> PendingOf(Model(), sid, id)
    {
      ids := [];
      var todo := deliveries.Keys;
      while todo != {}
        invariant todo <= deliveries.Keys
        invariant Distinct(ids)
        invariant forall id :: id in ids <==> PendingOf(Model(), sid, id) && id !in todo
        decreases todo
      {
        if forall x :: x !in todo { assert false; }
        var id: Id :| id in todo;
        if PendingOf(Model(), sid, id) { ids := ids + [id]; }
        todo := todo - {id};
      }
    }

    // -------------------------------------------------------- user writes

    method Create(d: Draft, now: Time) returns (o: Outcome)
      modifies this
      ensures Tx(Model(), o) == CreateTx(old(Model()), d, now)
    {
      if d.firstAt != d.schedule.startAt { return Rejected(Conflict); }
      var sid := CreateUUID();
      var id := CreateUUID();
      schedules := schedules[sid := DraftSchedule(d, now)];
      deliveries := deliveries[id := DraftFirst(Model(), d, sid, now)];
      return Done;
    }

    /** replacePendingOccurrence */
    method ReplacePendingOccurrence(sid: Id, next: NewDelivery, at: Time) returns (o: Outcome, cancelled: seq<Id>)
      requires OccurrencesUnique(Model())
      modifies this`deliveries, this`nextId
      ensures
        var db := old(Model());
        var existing := RowAt(db, sid, next.scheduledAt);
        if existing.Some? && !MayReopen(db.deliveries[existing.value].status) then
          o == Rejected(Conflict) && Model() == db
        else o == Done && Model() == Replaced(db, sid, existing, next, at)
      ensures o == Done ==> Distinct(cancelled) && forall id :: id in cancelled <==> PendingOf(old(Model()), sid, id)
      ensures o == Done && RowsOk(old(Model())) ==> LeavesNext(old(Model()), Model(), sid, next)
    {
      ghost var db := Model();
      var pending := PendingRows(sid);
      var existing := FindOccurrence(sid, next.scheduledAt);
      assert existing == RowAt(db, sid, next.scheduledAt);
      if existing.Some? && !MayReopen(deliveries[existing.value].status) {
        return Rejected(Conflict), [];
      }
      for i := 0 to |pending|
        invariant nextId == db.nextId && deliveries.Keys == db.deliveries.Keys
        invariant forall id :: id in db.deliveries ==>
          deliveries[id] == if id in pending[..i] && existing != Some(id) then CancelledRow(db.deliveries[id], at)
            else db.deliveries[id]
      {
        var id := pending[i];
        assert id in pending && id !in pending[..i];
        if existing != Some(id) {
          deliveries := deliveries[id := CancelledRow(deliveries[id], at)];
        }
      }
      assert pending[..|pending|] == pending;
      assert deliveries == CancelPending(db, sid, existing, at).deliveries;
      if existing.Some? {
        deliveries := deliveries[existing.value := ReopenedRow(deliveries[existing.value], next, at)];
      } else {
        var id := CreateUUID();
        deliveries := deliveries[id := Delivery(id, sid, next.scheduledAt, next.content, 0, 0, Some(next.scheduledAt),
          None, None, Pending, None, None, at)];
      }
      if RowsOk(db) { ReplacedTells(db, sid, existing, next, at); }
      return Done, pending;
    }

    /** UpdateActive returns the pending rows that the edit invalidates or replaces. */
    method UpdateActive(spaceId: Id, sid: Id, f: UpdateFields, next: Option<NewDelivery>, at: Time)
      returns (o: Outcome, cancelled: seq<Id>)
      requires OccurrencesUnique(Model())
      modifies this
      ensures Tx(Model(), o) == UpdateActiveTx(old(Model()), spaceId, sid, f, next, at)
      ensures o == Done ==> forall id :: id in cancelled <==> PendingOf(old(Model()), sid, id)
      ensures o == Done <==> MayEdit(old(Model()), spaceId, sid, next)
      ensures o == Done && RowsOk(old(Model())) ==> LeavesNext(old(Model()), Model(), sid, next.value)
    {
      EditLeavesNext(Model(), spaceId, sid, f, next, at);
      if ReplacesOccurrence(f) && next.None? { return Rejected(Conflict), []; }
      if !Open(Model(), sid) || schedules[sid].spaceId != spaceId { return Rejected(Conflict), []; }
      if next.None? {
        return Rejected(Conflict), [];
      }
      o, cancelled := ReplacePendingOccurrence(sid, next.value, at);
      if o != Done { return; }
      schedules := schedules[sid := EditedSchedule(schedules[sid], f, next.value, at)];
    }

    /** transitionTerminal: Cancel and Unsubscribe. */
    method TransitionTerminal(spaceId: Id, sid: Id, member: Option<Id>, at: Time)
        returns (o: Outcome, cancelled: seq<Id>)
      modifies this
      ensures Tx(Model(), o) == TerminalTx(old(Model()), spaceId, sid, member, at)
      ensures o == Done ==> forall id :: id in cancelled <==> PendingOf(old(Model()), sid, id)
    {
      if !Open(Model(), sid) || schedules[sid].spaceId != spaceId { return Rejected(Conflict), []; }
      cancelled := PendingRows(sid);
      if |cancelled| > 0 {
        deliveries := CancelPending(Model(), sid, None, at).deliveries;
      } else {
        assert deliveries == CancelPending(Model(), sid, None, at).deliveries;
      }
      var status := if member.Some? then Unsubscribed else ScheduleCancelled;
      schedules := schedules[sid := TerminalSchedule(schedules[sid], status, member, at)];
      o := Done;
    }

    // ------------------------------------------------------- worker writes

    /** ORDER BY ... LIMIT: the first rows of a set, in order. */
    method SelectFirst(rows: set<Id>, limit: nat, tie: TieBreak) returns (ids: seq<Id>)
      requires forall id :: id in rows ==> IsPending(Model(), id) && deliveries[id].nextAttemptAt.Some?
      ensures |ids| <= limit && Distinct(ids)
      ensures forall id :: id in ids ==> id in rows
      ensures forall i, j :: 0 <= i < j < |ids| ==> Before(Model(), ids[i], ids[j], tie)
      ensures forall id :: id in rows && id !in ids ==>
        |ids| == limit && forall j :: j in ids ==> Before(Model(), j, id, tie)
    {
      ids := [];
      var rest := rows;
      while |ids| < limit && rest != {}
        invariant |ids| <= limit && Distinct(ids)
        invariant forall id :: id in rows <==> id in rest || id in ids
        invariant forall id :: id in ids ==> id !in rest
        invariant forall i, j :: 0 <= i < j < |ids| ==> Before(Model(), ids[i], ids[j], tie)
        invariant forall i, id :: 0 <= i < |ids| && id in rest ==> Before(Model(), ids[i], id, tie)
        decreases rest
      {
        var best := Earliest(rest, tie);
        ids := ids + [best];
        rest := rest - {best};
      }
    }

    method Earliest(rest: set<Id>, tie: TieBreak) returns (best: Id)
      requires rest != {} && forall id :: id in rest ==> IsPending(Model(), id) && deliveries[id].nextAttemptAt.Some?
      ensures best in rest && forall id :: id in rest ==> Before(Model(), best, id, tie)
    {
      if forall x :: x !in rest { assert false; }
      best :| best in rest;
      var todo := rest - {best};
      while todo != {}
        invariant todo <= rest && best in rest
        invariant forall id :: id in rest && id !in todo ==> Before(Model(), best, id, tie)
        decreases todo
      {
        if forall x :: x !in todo { assert false; }
        var id: Id :| id in todo;
        todo := todo - {id};
        if !Before(Model(), best, id, tie) { best := id; }
      }
    }

    /** The two selections of ClaimDue: first the schedules of the earliest due rows, then the due
        rows of these schedules. */
    method SelectDue(now: Time, limit: nat, lockedSchedules: set<Id>, lockedRows: set<Id>) returns (ids: seq<Id>)
      requires RowsOk(Model()) && SchedulesConsistent(Model())
      ensures Picks(Model(), ids, now, limit, lockedSchedules, lockedRows)
      ensures PicksClaimable(Model(), ids, now, limit, lockedSchedules, lockedRows)
    {
      var free := set id | id in DueRows(Model(), now) && deliveries[id].scheduleId !in lockedSchedules;
      var first := SelectFirst(free, limit, ScheduleId);
      var rows := RowsOf(Model(), now, SchedulesOf(Model(), first), lockedRows);
      ids := SelectFirst(rows, limit, RowId);
      ChosenRows(Model(), first, now, rows, lockedRows);
      forall id | Left(Model(), ids, id, now, lockedSchedules, lockedRows)
        ensures forall j :: j in ids ==> Before(Model(), j, id, ScheduleId)
        ensures lockedRows == {} ==> |ids| == limit
      {
        if id in rows { AllFit(first, ids, id, limit); }
        assert id in free && id !in first;
        if lockedRows == {} && |ids| < limit {
          DistinctFits(first, ids);
        }
      }
      PicksTell(Model(), ids, now, limit, lockedSchedules, lockedRows);
    }

    /** claimDelivery writes the claim into the row and into the caller's copy. */
    method ClaimDelivery(id: Id, now: Time, until: Time) returns (o: Outcome, h: Option<Handle>)
      modifies this`deliveries, this`nextId
      ensures Tx(Model(), o) == ClaimTx(old(Model()), id, now, until)
      ensures o == Done ==> h.Some? && fresh(h.value) && id in deliveries && h.value.row == deliveries[id]
      ensures RowsOk(old(Model())) ==> (o == Done <==> Claimable(old(Model()), id, now))
    {
      if RowsOk(Model()) { DueIsClaimable(Model(), id, now); }
      if !Due(Model(), id, now) { return Rejected(ClaimConflict), None; }
      var copy := new Handle(deliveries[id]);
      ghost var db := Model();
      var token := CreateUUID();
      deliveries :=
        deliveries[id := deliveries[id].(leaseToken := Some(token), leaseUntil := Some(until), updatedAt := now)];
      copy.row := copy.row.(leaseToken := Some(token), leaseUntil := Some(until), updatedAt := now);
      return Done, Some(copy);
    }

    /** ClaimDue claims the earliest due deliveries in one transaction. */
    method ClaimDue(now: Time, lease: Time, limit: int, lockedSchedules: set<Id>, lockedRows: set<Id>)
      returns (ghost ids: seq<Id>, claimed: seq<Handle>)
      requires RowsOk(Model()) && SchedulesConsistent(Model())
      modifies this`deliveries, this`nextId
      ensures Picks(old(Model()), ids, now, Limit(limit), lockedSchedules, lockedRows)
      ensures Model() == ClaimAll(old(Model()), ids, now, now + lease)
      ensures fresh(claimed) && Mirrored(ids, claimed)
      ensures
        PicksClaimable(old(Model()), ids, now, if limit <= 0 then 50 else limit, lockedSchedules, lockedRows)
      ensures KeepsOthers(old(Model()), Model(), ids)
    {
      var due := SelectDue(now, Limit(limit), lockedSchedules, lockedRows);
      claimed := ClaimRows(due, now, now + lease);
      ids := due;
    }

    /** Every copy agrees with its row. */
    ghost predicate Mirrored(ids: seq<Id>, claimed: seq<Handle>)
      reads this, claimed
    {
      |claimed| == |ids| && forall i :: 0 <= i < |ids| ==> ids[i] in deliveries && claimed[i].row == deliveries[ids[i]]
    }

    method ClaimRows(due: seq<Id>, now: Time, until: Time) returns (claimed: seq<Handle>)
      requires Distinct(due) && forall id :: id in due ==> Due(Model(), id, now)
      modifies this`deliveries, this`nextId
      ensures Model() == ClaimAll(old(Model()), due, now, until) && KeepsOthers(old(Model()), Model(), due)
      ensures fresh(claimed) && Mirrored(due, claimed)
    {
      ghost var db := Model();
      claimed := [];
      for i := 0 to |due|
        invariant Model() == ClaimAll(db, due[..i], now, until)
        invariant fresh(claimed) && Mirrored(due[..i], claimed)
      {
        assert due[..i + 1][..i] == due[..i];
        ClaimAllKeeps(db, due[..i], now, until, due[i]);
        assert Due(db, due[i], now) && Due(Model(), due[i], now);
        var o, h := ClaimDelivery(due[i], now, until);
        claimed := claimed + [h.value];
      }
      assert due[..|due|] == due;
      ClaimAllKeepsOthers(db, due, now, until);
    }

    method ReserveAttempt(h: Handle, at: Time, max: int, c: Counter) returns (o: Outcome)
      modifies this`deliveries, h
      ensures Tx(Model(), o) == ReserveTx(old(Model()), old(h.row), at, max, c)
      ensures h.row == if o == Done then Reserved(old(h.row), c, at) else old(h.row)
      ensures o == Done ==>
        h.row.id in old(deliveries) && UnderLeaseOf(old(deliveries)[h.row.id], old(h.row), at)
      ensures o == Done ==>
        && h.row.generationAttempts == old(h.row).generationAttempts + One(c == Generation)
        && h.row.deliveryAttempts == old(h.row).deliveryAttempts + One(c == Dispatching)
        && h.row.id in old(deliveries) && deliveries[h.row.id] == Counted(old(deliveries)[h.row.id], c, at)
    {
      if !HasLease(h.row) { return Rejected(ClaimConflict); }
      if max <= 0 { return Rejected(AttemptLimitReached); }
      if !Open(Model(), h.row.scheduleId) { return Rejected(ClaimConflict); }
      if !Holds(Model(), h.row, at) { return Rejected(ClaimConflict); }
      var row := deliveries[h.row.id];
      if c.Generation? {
        if row.generationAttempts >= max { return Rejected(AttemptLimitReached); }
        deliveries := deliveries[h.row.id := row.(generationAttempts := row.generationAttempts + 1, updatedAt := at)];
        h.row := h.row.(generationAttempts := h.row.generationAttempts + 1);
      } else {
        if row.deliveryAttempts >= max { return Rejected(AttemptLimitReached); }
        deliveries := deliveries[h.row.id := row.(deliveryAttempts := row.deliveryAttempts + 1, updatedAt := at)];
        h.row := h.row.(deliveryAttempts := h.row.deliveryAttempts + 1);
      }
      h.row := h.row.(updatedAt := at);
      return Done;
    }

    method PersistGeneratedContent(h: Handle, content: Text, at: Time) returns (o: Outcome)
      modifies this`deliveries, h
      ensures Tx(Model(), o) == PersistTx(old(Model()), old(h.row), content, at)
      ensures h.row == if o == Done then old(h.row).(content := Some(content), updatedAt := at) else old(h.row)
      ensures o == Done ==>
        h.row.id in old(deliveries) && UnderLeaseOf(old(deliveries)[h.row.id], old(h.row), at)
    {
      if !HasLease(h.row) { return Rejected(ClaimConflict); }
      if !Open(Model(), h.row.scheduleId) { return Rejected(ClaimConflict); }
      if !Holds(Model(), h.row, at) { return Rejected(ClaimConflict); }
      deliveries := deliveries[h.row.id := deliveries[h.row.id].(content := Some(content), updatedAt := at)];
      h.row := h.row.(content := Some(content), updatedAt := at);
      return Done;
    }

    method RecordRetry(h: Handle, schedule: Schedule) returns (o: Outcome)
      modifies this
      ensures Tx(Model(), o) == RetryTx(old(Model()), h.row, schedule)
      ensures o == Done ==> h.row.id in deliveries && Overwritten(old(Model()), deliveries[h.row.id], h.row)
      ensures o == Done && (schedule.status != Active || schedule.nextScheduledAt.Some?) ==>
        h.row.scheduleId in schedules && TakenFrom(schedules[h.row.scheduleId], schedule)
      ensures o == Done ==>
        h.row.id in old(deliveries) && UnderLeaseOf(old(deliveries)[h.row.id], h.row, h.row.updatedAt)
    {
      if !HasLease(h.row) { return Rejected(ClaimConflict); }
      if !Open(Model(), h.row.scheduleId) { return Rejected(ClaimConflict); }
      if !Holds(Model(), h.row, h.row.updatedAt) { return Rejected(ClaimConflict); }
      deliveries := deliveries[h.row.id := RetriedRow(deliveries[h.row.id], h.row)];
      var locked := schedules[h.row.scheduleId];
      if schedule.status != locked.status || schedule.nextScheduledAt.Some? {
        schedules := schedules[h.row.scheduleId := ScheduleFrom(locked, schedule)];
      }
      return Done;
    }

    /** FinalizeOccurrence; a duplicate occurrence aborts the transaction before anything is written. */
    method FinalizeOccurrence(h: Handle, schedule: Schedule, next: Option<NewDelivery>) returns (o: Outcome)
      modifies this
      ensures Tx(Model(), o) == FinalizeTx(old(Model()), h.row, schedule, next)
      ensures o == Done ==> h.row.scheduleId in schedules && TakenFrom(schedules[h.row.scheduleId], schedule)
      ensures o == Done && h.row.id != old(nextId) ==>
        h.row.id in deliveries && FinishedAs(old(Model()), deliveries[h.row.id], h.row)
      ensures o == Done ==>
        h.row.id in old(deliveries) && UnderLeaseOf(old(deliveries)[h.row.id], h.row, h.row.updatedAt)
    {
      if !HasLease(h.row) { return Rejected(ClaimConflict); }
      o := FinalLock(Model(), h.row);
      if o != Done { return; }
      if !Holds(Model(), h.row, h.row.updatedAt) { return Rejected(ClaimConflict); }
      var sid := h.row.scheduleId;
      if next.Some? {
        var taken := FindOccurrence(sid, next.value.scheduledAt);
        if taken.Some? { return Rejected(DatabaseError); }
      }
      ghost var db := Model();
      deliveries := deliveries[h.row.id := FinalRow(deliveries[h.row.id], h.row)];
      if next.Some? {
        var id := CreateUUID();
        deliveries := deliveries[id := Delivery(id, sid, next.value.scheduledAt, next.value.content, 0, 0,
          Some(next.value.scheduledAt), None, None, Pending, None, None, schedule.updatedAt)];
      }
      schedules := schedules[sid := ScheduleFrom(schedules[sid], schedule)];
    }

    /** DispatchAndFinalize; `reply` is what the callback and the next-occurrence factory answer. */
    method DispatchAndFinalize(id: Id, token: Id, now: Time, targetValid: bool, reply: Reply, commitOk: bool)
      returns (o: Outcome, accepted: bool)
      modifies this
      ensures Dispatched(Model(), o, accepted) == DispatchTx(old(Model()), id, token, now, targetValid, reply, commitOk)
      ensures o == Done ==>
        && id in old(deliveries) && id in deliveries && reply.Accepted?
        && (id != old(nextId) ==> deliveries[id].status == Sent && deliveries[id].sentAt == Some(reply.at))
        && old(deliveries)[id].scheduleId in schedules
        && schedules[old(deliveries)[id].scheduleId].status == (if reply.plan == NoNext then ScheduleSent else Active)
    {
      accepted := false;
      o := DispatchGuard(Model(), id, token, now, targetValid);
      if o != Done { return; }
      if reply.Refused? { return Rejected(SendFailed), false; }
      accepted := true;
      var row := deliveries[id];
      if reply.plan.PlanError? || row.leaseUntil.value <= reply.at || !commitOk {
        return Rejected(DatabaseError), true;
      }
      var sid := row.scheduleId;
      if reply.plan.NextRow? {
        var taken := FindOccurrence(sid, reply.plan.row.scheduledAt);
        if taken.Some? { return Rejected(DatabaseError), true; }
      }
      deliveries := deliveries[id := SentRow(row, reply.at)];
      if reply.plan.NextRow? {
        var next := reply.plan.row;
        var n := CreateUUID();
        deliveries := deliveries[n := Delivery(n, sid, next.scheduledAt, next.content, 0, 0,
          Some(next.scheduledAt), None, None, Pending, None, None, reply.at)];
        schedules :=
          schedules[sid := schedules[sid].(nextScheduledAt := Some(next.scheduledAt), updatedAt := reply.at)];
      } else {
        schedules :=
          schedules[sid := schedules[sid].(status := ScheduleSent, nextScheduledAt := None, updatedAt := reply.at)];
      }
    }
  }
}
