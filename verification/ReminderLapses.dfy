/** When an entry of the reminder index may lag behind its row: exactly after a reschedule that
    overlaps an older value on its way to the index, and after a takeover of a claim that is held. */
module ReminderLapses {
  import opened Options
  import opened SortedSets
  import opened ReminderIndex
  import opened ReminderCoverage
  import R = Reminders

  // ------------------------------------------------ undisturbed reminders

  predicate Reschedules(s: Sys, op: Op, id: Id) {
    op.Serve? && op.call !in s.calls && IsServiceWrite(op.op) && id in Moves(s.table.db, op.op)
  }

  /** A claim by our scheduler, or by the other one. */
  predicate Claims(s: Sys, op: Op, id: Id) {
    && (op.Claim? || op.TheirClaim?) && op.lease > 0 && id in op.ids
    && R.ClaimHappens(s.table, op.ids, op.now, op.lease) && (if op.Claim? then s.held else s.theirs) == map[]
  }

  /** What the process that does not claim holds. */
  function Opponents(s: Sys, op: Op): map<Id, Time> { if op.Claim? then s.theirs else s.held }

  predicate TakesOver(s: Sys, op: Op, id: Id) { Claims(s, op, id) && id in Opponents(s, op) }

  ghost predicate Disturbs(s: Sys, op: Op, id: Id) {
    (Reschedules(s, op, id) && Overlaps(s, id)) || TakesOver(s, op, id)
  }

  ghost predicate Undisturbed(s: Sys, ops: seq<Op>, id: Id) {
    forall k :: 0 <= k < |ops| ==> !Disturbs(Run(s, ops[..k]), ops[k], id)
  }

  ghost predicate Clear(s: Sys, id: Id) { id !in s.blurred && id !in s.taken }

  lemma ServeStaysClear(s: Sys, op: Op, id: Id)
    requires Clear(s, id) && !Disturbs(s, op, id) && op.Serve?
    ensures Clear(Apply(s, op), id)
  {
  }

  lemma ClaimStaysClear(s: Sys, op: Op, id: Id)
    requires Clear(s, id) && !Disturbs(s, op, id) && (op.Claim? || op.TheirClaim?)
    ensures Clear(Apply(s, op), id)
  {
  }

  lemma WriteStaysClear(s: Sys, call: nat, reply: Reply, id: Id)
    requires Clear(s, id)
    ensures Clear(WriteStep(s, call, reply), id)
  {
  }

  lemma PassStaysClear(s: Sys, op: Op, id: Id)
    requires Clear(s, id) && Quiet(op) && (IsOurs(op) || IsTheirs(op))
    ensures Clear(Apply(s, op), id)
  {
  }

  /** No other step clouds a reminder; a reconciliation and an exact answer make more of them clear. */
  lemma IndexStaysClear(s: Sys, op: Op, id: Id)
    requires Clear(s, id) && (Reads(op) || Rebuilds(op) || op.Check? || op.Count?)
    ensures Clear(Apply(s, op), id)
  {
  }

  lemma StaysClear(s: Sys, op: Op, id: Id)
    requires Clear(s, id) && !Disturbs(s, op, id)
    ensures Clear(Apply(s, op), id)
  {
    if op.Serve? { ServeStaysClear(s, op, id); }
    else if op.Claim? || op.TheirClaim? { ClaimStaysClear(s, op, id); }
    else if IsOurs(op) || IsTheirs(op) { PassStaysClear(s, op, id); }
    else if op.WriteIndex? { WriteStaysClear(s, op.call, op.reply, id); }
    else { IndexStaysClear(s, op, id); }
  }

  lemma {:induction false} RunStaysClear(s: Sys, ops: seq<Op>, id: Id)
    requires Clear(s, id) && Undisturbed(s, ops, id)
    ensures Clear(Run(s, ops), id)
  {
    if ops != [] {
      var front := ops[..|ops| - 1];
      forall k | 0 <= k < |front| ensures !Disturbs(Run(s, front[..k]), front[k], id) {
        assert front[..k] == ops[..k];
        assert !Disturbs(Run(s, ops[..k]), ops[k], id);
      }
      RunStaysClear(s, front, id);
      StaysClear(Run(s, front), ops[|ops| - 1], id);
    }
  }

  /** Main result, for one reminder: unless a reschedule of it overlaps an older value or a held
      claim on it is taken over, an answer of "nothing due" is never wrong about it. */
  lemma UndisturbedIsNeverMissed(s: Sys, ops: seq<Op>, id: Id, now: Time)
    requires Start(s) && Undisturbed(s, ops, id)
    requires var t := Run(s, ops); t.phase.Asking? && !t.degraded && id in t.phase.known && Pending(t, id)
    ensures var t := Run(s, ops); id in t.members && (ScheduledAt(t, id) <= now ==> AnyDue(t.members, now))
  {
    RunStaysClear(s, ops, id);
    NothingDueIsNeverWrong(s, ops, id, now);
  }

  /** A policy that callers can follow: reschedule a reminder only when its earlier calls have
      returned and no reconciliation is writing, and claim with a lease that no pass outlives. */
  ghost predicate Careful(s: Sys, op: Op, id: Id) {
    && (Reschedules(s, op, id) ==> !Awaited(s, id) && !s.phase.Adding?)
    && (Claims(s, op, id) && id in Opponents(s, op) ==> op.now - op.lease <= Opponents(s, op)[id])
  }

  /** Only a claim that is older than the lease can be taken over. */
  lemma TakeoverNeedsExpiry(s: Sys, op: Op, id: Id)
    requires Inv(s) && Clear(s, id) && TakesOver(s, op, id)
    ensures Opponents(s, op)[id] < op.now - op.lease
  {
    assert R.Claimable(s.table.db, id, op.now, op.now - op.lease);
  }

  lemma CarefulIsQuiet(s: Sys, op: Op, id: Id)
    requires Inv(s) && Clear(s, id) && Careful(s, op, id)
    ensures !Disturbs(s, op, id)
  {
    if TakesOver(s, op, id) { TakeoverNeedsExpiry(s, op, id); }
    if OwesUpsert(s, id) {
      var at :| Owes(s, Upsert(id, at));
      assert Owed(Upsert(id, at), id);
    }
  }

  ghost predicate AllCareful(s: Sys, ops: seq<Op>, id: Id) {
    forall k :: 0 <= k < |ops| ==> Careful(Run(s, ops[..k]), ops[k], id)
  }

  lemma CarefulPrefix(s: Sys, ops: seq<Op>, n: nat, id: Id)
    requires AllCareful(s, ops, id) && n <= |ops|
    ensures AllCareful(s, ops[..n], id)
  {
    forall k | 0 <= k < n ensures Careful(Run(s, ops[..n][..k]), ops[..n][k], id) {
      assert ops[..n][..k] == ops[..k];
    }
  }

  /** So a run in which everybody is careful about a reminder never misses it. */
  lemma {:induction false} CarefulIsClear(s: Sys, ops: seq<Op>, id: Id)
    requires Start(s) && AllCareful(s, ops, id)
    ensures Clear(Run(s, ops), id)
  {
    if ops != [] {
      var n := |ops| - 1;
      var front := ops[..n];
      CarefulPrefix(s, ops, n, id);
      CarefulIsClear(s, front, id);
      StartKeeps(s);
      RunKeeps(s, front);
      CarefulIsQuiet(Run(s, front), ops[n], id);
      StaysClear(Run(s, front), ops[n], id);
    }
  }

  lemma CarefulIsNeverMissed(s: Sys, ops: seq<Op>, id: Id, now: Time)
    requires Start(s) && AllCareful(s, ops, id)
    requires var t := Run(s, ops); t.phase.Asking? && !t.degraded && id in t.phase.known && Pending(t, id)
    ensures var t := Run(s, ops); id in t.members && (ScheduledAt(t, id) <= now ==> AnyDue(t.members, now))
  {
    CarefulIsClear(s, ops, id);
    NothingDueIsNeverWrong(s, ops, id, now);
  }

  // ------------------------------------------------------- order of calls

  /** Behind its head a call owes only removals. */
  predicate Orderly(s: Sys) { forall call :: call in s.calls ==> InOrder(s.calls[call]) }

  predicate InOrder(writes: seq<Write>) {
    writes != [] && forall i :: 1 <= i < |writes| ==> writes[i].Remove?
  }

  lemma WithCallOrderly(s: Sys, t: Sys, call: nat, writes: seq<Write>)
    requires Orderly(s) && (writes == [] || InOrder(writes))
    requires t.calls == WithCall(s, call, writes).calls || t.calls == s.calls
    ensures Orderly(t)
  {
  }

  lemma WriteOrderly(s: Sys, call: nat, reply: Reply)
    requires Orderly(s)
    ensures Orderly(WriteStep(s, call, reply))
  {
    if call in s.calls {
      assert InOrder(s.calls[call]);
      var w, rest := s.calls[call][0], s.calls[call][1..];
      var writes := if w.Dirty? || reply.Applied? then rest else [Dirty(w.id)] + rest;
      WithCallOrderly(s, WriteStep(s, call, reply), call, writes);
    }
  }

  lemma TheirsKeepCalls(s: Sys, op: Op)
    requires IsTheirs(op)
    ensures Apply(s, op).calls == s.calls
  {
    match op
    case TheirClaim(_, _, _) =>
    case TheirDeliver(_, _) =>
    case TheirLetGo(_, _) =>
    case TheirForget(_) =>
    case TheirRemove(_, _) =>
  }

  lemma ReadsKeepCalls(s: Sys, op: Op)
    requires Reads(op)
    ensures Apply(s, op).calls == s.calls
  {
    match op
    case List(_, _) =>
    case Load =>
    case Store =>
    case Query(_) =>
  }

  lemma RebuildsKeepCalls(s: Sys, op: Op)
    requires Rebuilds(op)
    ensures Apply(s, op).calls == s.calls
  {
    match op
    case AddBatch(_, _) =>
    case AllAdded =>
    case RemoveBatch(_, _) =>
    case Done =>
  }

  lemma RestKeepsCalls(s: Sys, op: Op)
    requires op.Claim? || op.LetGo? || op.Forget? || op.Check? || op.Count?
    ensures Apply(s, op).calls == s.calls
  {
    match op
    case Claim(_, _, _) =>
    case LetGo(_, _) =>
    case Forget(_) =>
    case Check =>
    case Count(_) =>
  }

  lemma StepOrderly(s: Sys, op: Op)
    requires Orderly(s)
    ensures Orderly(Apply(s, op))
  {
    match op
    case Serve(call, op) => WithCallOrderly(s, ServeStep(s, call, op), call, WritesOf(s.table.db, op));
    case WriteIndex(call, reply) => WriteOrderly(s, call, reply);
    case Deliver(call, id, sentAt) => WithCallOrderly(s, DeliverStep(s, call, id, sentAt), call, [Remove(id)]);
    case Restart =>
    case _ =>
      if Reads(op) { ReadsKeepCalls(s, op); }
      else if Rebuilds(op) { RebuildsKeepCalls(s, op); }
      else if IsTheirs(op) { TheirsKeepCalls(s, op); }
      else { RestKeepsCalls(s, op); }
  }

  lemma {:induction false} RunOrderly(s: Sys, ops: seq<Op>)
    requires Orderly(s)
    ensures Orderly(Run(s, ops))
  {
    if ops != [] {
      RunOrderly(s, ops[..|ops| - 1]);
      StepOrderly(Run(s, ops[..|ops| - 1]), ops[|ops| - 1]);
    }
  }

  /** What a run reaches is a state to which the results below apply. */
  lemma Reaches(s: Sys, ops: seq<Op>)
    requires Start(s)
    ensures Inv(Run(s, ops)) && Orderly(Run(s, ops))
  {
    StartKeeps(s);
    RunKeeps(s, ops);
    RunOrderly(s, ops);
  }

  // ----------------------------------------------------------- quiet runs

  /** Neither a service call nor a claim. */
  predicate Quiet(op: Op) { !op.Serve? && !op.Claim? && !op.TheirClaim? }

  predicate AllQuiet(ops: seq<Op>) { forall op :: op in ops ==> Quiet(op) }

  lemma {:induction false} RunConcat(s: Sys, a: seq<Op>, b: seq<Op>)
    ensures Run(s, a + b) == Run(Run(s, a), b)
  {
    if b == [] {
      assert a + b == a;
    } else {
      assert (a + b)[..|a + b| - 1] == a + b[..|b| - 1];
      RunConcat(s, a, b[..|b| - 1]);
    }
  }

  lemma RunOne(s: Sys, op: Op)
    ensures Run(s, [op]) == Apply(s, op)
  {
    assert [op][..0] == [];
    assert Run(s, []) == s;
  }

  lemma RunFour(s: Sys, a: Op, b: Op, c: Op, d: Op)
    ensures Run(s, [a, b, c, d]) == Apply(Apply(Apply(Apply(s, a), b), c), d)
  {
    RunOne(s, a);
    RunOne(Run(s, [a]), b);
    RunOne(Run(s, [a] + [b]), c);
    RunOne(Run(s, [a] + [b] + [c]), d);
    RunConcat(s, [a], [b]);
    RunConcat(s, [a] + [b], [c]);
    RunConcat(s, [a] + [b] + [c], [d]);
    assert [a, b, c, d] == [a] + [b] + [c] + [d];
  }

  lemma WriteFrames(s: Sys, call: nat)
    requires call in s.calls && s.calls[call] != []
    ensures var t := Run(s, [WriteIndex(call, Applied)]);
      t.calls == WithCall(s, call, s.calls[call][1..]).calls && t.table == s.table && t.phase == s.phase
  {
    Writes(s, call);
  }

  /** One call performs all that it owes. */
  lemma {:induction false} DrainCall(s: Sys, call: nat) returns (ops: seq<Op>)
    requires call in s.calls && s.calls[call] != []
    ensures AllQuiet(ops)
    ensures var t := Run(s, ops); t.calls == s.calls - {call} && t.table == s.table && t.phase == s.phase
    decreases |s.calls[call]|
  {
    ops := [WriteIndex(call, Applied)];
    WriteFrames(s, call);
    if |s.calls[call]| > 1 {
      var t := Run(s, ops);
      var rest := DrainCall(t, call);
      RunConcat(s, ops, rest);
      ops := ops + rest;
    }
  }

  /** Every call but one performs all that it owes. */
  lemma {:induction false} DrainOthers(s: Sys, kept: nat) returns (ops: seq<Op>)
    requires Orderly(s) && kept in s.calls
    ensures AllQuiet(ops)
    ensures var t := Run(s, ops); t.calls == map[kept := s.calls[kept]] && t.table == s.table && t.phase == s.phase
    decreases |s.calls.Keys|
  {
    if s.calls.Keys == {kept} {
      ops := [];
    } else {
      assert !(s.calls.Keys <= {kept});
      var call :| call in s.calls && call != kept;
      var one := DrainCall(s, call);
      var t := Run(s, one);
      assert t.calls.Keys == s.calls.Keys - {call};
      var rest := DrainOthers(t, kept);
      RunConcat(s, one, rest);
      ops := one + rest;
    }
  }

  /** The scheduler has nothing under way, and neither table nor calls have changed. */
  predicate Stopped(s: Sys, t: Sys) { (t.phase.Idle? || t.phase.Starting?) && t.calls == s.calls && t.table == s.table }

  lemma StopsAtOnce(s: Sys, op: Op)
    requires match s.phase
      case Asking(_) => op == Count(Applied)
      case Stored(_) => op == Query(None)
      case Adding(_, rows, done) => done <= |rows| && op == AddBatch(0, Refused)
      case Removing(stale, done) => done <= |stale| && op == RemoveBatch(0, Refused)
      case _ => false
    ensures Stopped(s, Run(s, [op]))
  {
    RunOne(s, op);
  }

  lemma StopsLoaded(s: Sys)
    requires s.phase.Loaded?
    ensures Stopped(s, Run(s, [Store] + [Query(None)]))
  {
    var t := Run(s, [Store]);
    RunOne(s, Store);
    assert t.phase.Stored? && t.calls == s.calls && t.table == s.table;
    RunConcat(s, [Store], [Query(None)]);
    StopsAtOnce(t, Query(None));
  }

  lemma StopsListed(s: Sys)
    requires s.phase.Listed?
    ensures Stopped(s, Run(s, [Load] + ([Store] + [Query(None)])))
  {
    var t := Run(s, [Load]);
    RunOne(s, Load);
    assert t.phase.Loaded? && t.calls == s.calls && t.table == s.table;
    RunConcat(s, [Load], [Store] + [Query(None)]);
    StopsLoaded(t);
  }

  /** No more is done than there is to do. */
  predicate InRange(phase: Phase) {
    (phase.Adding? ==> phase.done <= |phase.rows|) && (phase.Removing? ==> phase.done <= |phase.stale|)
  }

  /** The scheduler gives up what it is doing. */
  lemma ToIdle(s: Sys) returns (ops: seq<Op>)
    requires InRange(s.phase)
    ensures AllQuiet(ops) && Stopped(s, Run(s, ops))
  {
    match s.phase
    case Starting => ops := [];
    case Idle => ops := [];
    case Listed(_) => ops := [Load] + ([Store] + [Query(None)]); StopsListed(s);
    case Loaded(_, _) => ops := [Store] + [Query(None)]; StopsLoaded(s);
    case Asking(_) => ops := [Count(Applied)]; StopsAtOnce(s, ops[0]);
    case Stored(_) => ops := [Query(None)]; StopsAtOnce(s, ops[0]);
    case Adding(_, _, _) => ops := [AddBatch(0, Refused)]; StopsAtOnce(s, ops[0]);
    case Removing(_, _) => ops := [RemoveBatch(0, Refused)]; StopsAtOnce(s, ops[0]);
  }

  // ------------------------------------------------- a whole reconciliation

  lemma {:induction false} Enumerated(ids: set<Id>) returns (list: seq<Id>)
    ensures Elements(list) == ids
  {
    if ids == {} {
      list := [];
    } else {
      var id :| id in ids;
      var rest := Enumerated(ids - {id});
      list := [id] + rest;
      assert Elements(list) == {id} + Elements(rest);
    }
  }

  function EntriesOf(db: R.Db, ids: seq<Id>): (rows: seq<Entry>)
    requires forall id :: id in ids ==> id in db.rows
    ensures |rows| == |ids| && forall i :: 0 <= i < |ids| ==> rows[i] == Entry(ids[i], db.rows[ids[i]].scheduledAt)
  {
    seq(|ids|, i requires 0 <= i < |ids| => Entry(ids[i], db.rows[ids[i]].scheduledAt))
  }

  /** The rows that the scheduler reads from the database. */
  lemma PendingRows(db: R.Db) returns (rows: seq<Entry>)
    ensures Answers(rows, db)
  {
    var pending := set id | id in db.rows && R.LivePending(db, id);
    var ids := Enumerated(pending);
    assert forall id :: id in ids <==> id in Elements(ids);
    rows := EntriesOf(db, ids);
    forall e | e in rows ensures R.LivePending(db, e.id) && db.rows[e.id].scheduledAt == e.at {
      var i :| 0 <= i < |rows| && rows[i] == e;
      assert ids[i] in ids;
    }
    forall id | id in pending ensures id in Ids(rows) {
      assert id in Elements(ids);
      var i :| 0 <= i < |ids| && ids[i] == id;
      assert rows[i] in rows && rows[i].id == id;
    }
  }

  /** List, version, rows: the reconciliation is ready to write, and the index is not flagged. */
  lemma Begins(s: Sys) returns (ops: seq<Op>)
    requires s.phase.Idle? || s.phase.Starting?
    ensures AllQuiet(ops)
    ensures var t := Run(s, ops);
      t.phase.Adding? && t.phase.done <= |t.phase.rows| && !Flagged(t) && t.calls == s.calls && t.table == s.table
  {
    var ids := Enumerated(s.members.Keys);
    var rows := PendingRows(s.table.db);
    ops := [List(ids, Applied), Load, Store, Query(Some(rows))];
    RunFour(s, ops[0], ops[1], ops[2], ops[3]);
    var listed := Apply(s, ops[0]);
    assert listed == s.(phase := Listed(ids));
    var stored := s.(phase := Stored(ids), reconciled := s.dirty);
    assert Apply(Apply(listed, Load), Store) == stored;
    assert Apply(stored, ops[3]).phase == Adding(ids, rows, 0);
  }

  /** A row that was read and not yet written ends up in the index with the time that was read. */
  ghost predicate Written(s: Sys, t: Sys, id: Id)
    requires s.phase.Adding? && s.phase.done <= |s.phase.rows|
  {
    id in t.members && exists e :: e in s.phase.rows[s.phase.done..] && e.id == id && t.members[id] == Score(e.at)
  }

  /** The reconciliation writes what it has read, without a failure. */
  lemma Ends(s: Sys) returns (ops: seq<Op>)
    requires s.phase.Adding? && s.phase.done <= |s.phase.rows|
    ensures AllQuiet(ops)
    ensures var t := Run(s, ops);
      && t == s.(members := t.members, phase := Idle, degraded := false)
      && forall id :: id in Ids(s.phase.rows[s.phase.done..]) ==> Written(s, t, id)
  {
    var ids, rows, done := s.phase.ids, s.phase.rows, s.phase.done;
    var stale := Stale(ids, rows);
    ops := [AddBatch(|rows|, Applied), AllAdded, RemoveBatch(|stale|, Applied), Done];
    RunFour(s, ops[0], ops[1], ops[2], ops[3]);
    var left := rows[done..];
    var added := AddAll(s.members, left);
    assert rows[done..|rows|] == left;
    assert Apply(s, ops[0]) == s.(members := added, phase := Adding(ids, rows, |rows|));
    assert Apply(Apply(s, ops[0]), AllAdded) == s.(members := added, phase := Removing(stale, 0));
    var t := s.(members := RemoveAll(added, stale), phase := Idle, degraded := false);
    RemovesAll(s.(members := added, phase := Removing(stale, 0)), stale);
    StaleIs(ids, rows);
    forall id | id in Ids(left) ensures Written(s, t, id) {
      AddedFrom(s.members, left, id);
      assert forall e :: e in left ==> e in rows;
      assert id !in Elements(stale);
    }
  }

  lemma RemovesAll(s: Sys, stale: seq<Id>)
    requires s.phase == Removing(stale, 0)
    ensures Apply(Apply(s, RemoveBatch(|stale|, Applied)), Done)
      == s.(members := RemoveAll(s.members, stale), phase := Idle, degraded := false)
  {
    assert stale[0..|stale|] == stale;
  }

  // --------------------------------------------------- rescheduled reminders

  /** HasDue would answer, and the entry is missing or says that the reminder is due later than it is. */
  ghost predicate Lapsed(s: Sys, id: Id) {
    && s.phase.Idle? && !Flagged(s) && !s.degraded && Settled(s, id)
    && (id !in s.members || Score(ScheduledAt(s, id)) < s.members[id])
  }

  /** Without any further disturbance the step ends in a lapse. */
  ghost predicate CanLapse(s: Sys, op: Op, id: Id) {
    exists ops :: Undisturbed(Apply(s, op), ops, id) && Lapsed(Run(Apply(s, op), ops), id)
  }

  lemma QuietIsUndisturbed(s: Sys, ops: seq<Op>, id: Id)
    requires AllQuiet(ops)
    ensures Undisturbed(s, ops, id)
  {
    forall k | 0 <= k < |ops| ensures !Disturbs(Run(s, ops[..k]), ops[k], id) { assert ops[k] in ops; }
  }

  /** A step that disturbs nothing never ends in a lapse. */
  lemma UndisturbedNeverLapses(s: Sys, op: Op, id: Id)
    requires Inv(s) && Clear(s, id) && !Disturbs(s, op, id)
    ensures !CanLapse(s, op, id)
  {
    forall ops | Undisturbed(Apply(s, op), ops, id) ensures !Lapsed(Run(Apply(s, op), ops), id) {
      var t := Run(Apply(s, op), ops);
      ApplyKeeps(s, op);
      RunKeeps(Apply(s, op), ops);
      StaysClear(s, op, id);
      RunStaysClear(Apply(s, op), ops, id);
      assert Settled(t, id) && t.phase.Idle? ==> Covered(t, id);
    }
  }

  lemma FreshCall(calls: map<nat, seq<Write>>) returns (call: nat)
    ensures call !in calls
  {
    call := Above(calls.Keys);
  }

  lemma {:induction false} Above(calls: set<nat>) returns (n: nat)
    ensures forall call :: call in calls ==> call < n
  {
    if calls == {} {
      n := 0;
    } else {
      var call :| call in calls;
      var m := Above(calls - {call});
      n := if call < m then m else call + 1;
      assert calls == (calls - {call}) + {call};
    }
  }

  /** One millisecond earlier. */
  function Earlier(at: Time): Time { at - 1_000_000 }

  function MoveEarlier(s: Sys, call: nat, id: Id): Op
    requires Pending(s, id)
  {
    var r := s.table.db.rows[id];
    Serve(call, R.Update(r.spaceId, id, R.UpdateFields(None, Some(Earlier(r.scheduledAt))), r.updatedAt))
  }

  lemma MovesEarlier(s: Sys, call: nat, id: Id)
    requires Pending(s, id) && call !in s.calls
    ensures var op := MoveEarlier(s, call, id); var t := ServeStep(s, call, op.op);
      && Reschedules(s, op, id) && Pending(t, id) && ScheduledAt(t, id) == Earlier(ScheduledAt(s, id))
      && t.calls == s.calls[call := [Upsert(id, Earlier(ScheduledAt(s, id)))]]
      && t == s.(table := t.table, blurred := t.blurred, calls := t.calls, phase := t.phase)
      && (InRange(s.phase) ==> InRange(t.phase)) && (s.phase.Adding? ==> t.phase == s.phase)
  {
  }

  lemma Serves(s: Sys, call: nat, op: R.Op)
    ensures Apply(s, Serve(call, op)) == ServeStep(s, call, op)
  {
  }

  lemma Writes(s: Sys, call: nat)
    ensures Run(s, [WriteIndex(call, Applied)]) == WriteStep(s, call, Applied)
  {
    RunOne(s, WriteIndex(call, Applied));
  }

  /** Every other call finishes, and then a reconciliation, before the kept call writes. */
  lemma RebuildsFirst(s: Sys, kept: nat) returns (ops: seq<Op>)
    requires Orderly(s) && InRange(s.phase) && kept in s.calls
    ensures AllQuiet(ops)
    ensures var t := Run(s, ops);
      t.phase.Idle? && !Flagged(t) && !t.degraded && t.calls == map[kept := s.calls[kept]] && t.table == s.table
  {
    var drain := DrainOthers(s, kept);
    var drained := Run(s, drain);
    var rest := ReconcilesNow(drained);
    RunConcat(s, drain, rest);
    ops := drain + rest;
  }

  /** The running pass ends, keeping whatever it still claims until the lease is over. */
  lemma {:induction false} EndPass(s: Sys) returns (ops: seq<Op>)
    ensures AllQuiet(ops)
    ensures Run(s, ops) == s.(held := map[])
    decreases |s.held|
  {
    if s.held == map[] {
      ops := [];
    } else {
      var id :| id in s.held;
      var t := Apply(s, Forget(id));
      RunOne(s, Forget(id));
      assert t == s.(held := s.held - {id});
      assert |t.held| < |s.held| by { assert t.held.Keys == s.held.Keys - {id}; }
      var rest := EndPass(t);
      RunConcat(s, [Forget(id)], rest);
      ops := [Forget(id)] + rest;
    }
  }

  /** The scheduler ends its pass, drops what it is doing and reconciles once. */
  lemma ReconcilesNow(s: Sys) returns (ops: seq<Op>)
    requires InRange(s.phase)
    ensures AllQuiet(ops)
    ensures var t := Run(s, ops);
      t.phase.Idle? && !Flagged(t) && !t.degraded && t.calls == s.calls && t.table == s.table
  {
    var end := EndPass(s);
    var ended := Run(s, end);
    var stop := ToIdle(ended);
    var begin := Begins(Run(ended, stop));
    var finish := Ends(Run(Run(ended, stop), begin));
    RunConcat(s, end, stop);
    RunConcat(s, end + stop, begin);
    RunConcat(s, end + stop + begin, finish);
    ops := end + stop + begin + finish;
  }

  lemma OldWriteIsLast(s: Sys, id: Id, kept: nat, at: Time)
    requires s.phase.Idle? && !Flagged(s) && !s.degraded && Pending(s, id) && ScheduledAt(s, id) == Earlier(at)
    requires kept in s.calls && s.calls == map[kept := s.calls[kept]] && InOrder(s.calls[kept])
    requires s.calls[kept][0] == Upsert(id, at)
    ensures Lapsed(Run(s, [WriteIndex(kept, Applied)]), id)
  {
    Writes(s, kept);
    var t := WriteStep(s, kept, Applied);
    assert forall c, w :: c in t.calls && w in t.calls[c] ==> w.Remove?;
  }

  lemma LapsesBy(s: Sys, op: Op, id: Id, a: seq<Op>, b: seq<Op>)
    requires AllQuiet(a) && AllQuiet(b) && Lapsed(Run(Run(Apply(s, op), a), b), id)
    ensures CanLapse(s, op, id)
  {
    RunConcat(Apply(s, op), a, b);
    QuietIsUndisturbed(Apply(s, op), a + b, id);
  }

  /** An older value that a call still owes can come last. */
  lemma OwedValueLapses(s: Sys, id: Id, kept: nat)
    requires Orderly(s) && InRange(s.phase) && Pending(s, id)
    requires kept in s.calls && s.calls[kept][0] == Upsert(id, ScheduledAt(s, id))
    ensures exists op :: Reschedules(s, op, id) && CanLapse(s, op, id)
  {
    var call := FreshCall(s.calls);
    var op := MoveEarlier(s, call, id);
    MovesEarlier(s, call, id);
    Serves(s, call, op.op);
    StepOrderly(s, op);
    var rebuild := RebuildsFirst(Apply(s, op), kept);
    OldWriteIsLast(Run(Apply(s, op), rebuild), id, kept, ScheduledAt(s, id));
    LapsesBy(s, op, id, rebuild, [WriteIndex(kept, Applied)]);
  }

  lemma LastWrite(s: Sys, t: Sys, calls: map<nat, seq<Write>>, call: nat, w: Write)
    requires call !in calls && s.calls == calls[call := [w]] && !w.Dirty? && t == WriteStep(s, call, Applied)
    ensures t.calls == calls && t.table == s.table && t.phase == s.phase
    ensures t.dirty == s.dirty && t.reconciled == s.reconciled
  {
    assert [w][1..] == [];
    assert s.calls - {call} == calls;
  }

  /** The call that moved the reminder writes its entry, and nothing else is owed for it. */
  lemma MoveIsAnswered(s: Sys, moved: Sys, t: Sys, call: nat, id: Id)
    requires Pending(s, id) && call !in s.calls && !Awaited(s, id) && s.phase.Adding?
    requires moved == ServeStep(s, call, MoveEarlier(s, call, id).op) && t == WriteStep(moved, call, Applied)
    ensures Settled(t, id) && ScheduledAt(t, id) == Earlier(ScheduledAt(s, id))
    ensures t.phase == s.phase && t.dirty == s.dirty && t.reconciled == s.reconciled
  {
    MovesEarlier(s, call, id);
    LastWrite(moved, t, s.calls, call, Upsert(id, Earlier(ScheduledAt(s, id))));
    assert Awaited(t, id) <==> Awaited(s, id);
  }

  /** An older row that a reconciliation has read can be written last. */
  lemma ReadRowLapses(s: Sys, id: Id)
    requires PhaseOk(s) && RowsExact(s) && Pending(s, id) && id !in s.blurred
    requires id in Ids(Unwritten(s)) && !Awaited(s, id)
    ensures exists op :: Reschedules(s, op, id) && CanLapse(s, op, id)
  {
    var call := FreshCall(s.calls);
    var op, first := MoveEarlier(s, call, id), [WriteIndex(call, Applied)];
    MovesEarlier(s, call, id);
    Serves(s, call, op.op);
    var moved := Apply(s, op);
    Writes(moved, call);
    var t := Run(moved, first);
    MoveIsAnswered(s, moved, t, call, id);
    var finish := Ends(t);
    OldRowIsLast(s, t, Run(t, finish), id);
    LapsesBy(s, op, id, first, finish);
  }

  lemma OldRowIsLast(s: Sys, t: Sys, u: Sys, id: Id)
    requires PhaseOk(s) && RowsExact(s) && Pending(s, id) && id !in s.blurred
    requires id in Ids(Unwritten(s)) && !Awaited(s, id)
    requires Settled(t, id) && ScheduledAt(t, id) == Earlier(ScheduledAt(s, id))
    requires t.phase == s.phase && t.dirty == s.dirty && t.reconciled == s.reconciled
    requires u == t.(members := u.members, phase := Idle, degraded := false) && Written(t, u, id)
    ensures Lapsed(u, id)
  {
    assert Owes(s, Dirty(id)) ==> Awaited(s, id) by {
      if Owes(s, Dirty(id)) { assert Owed(Dirty(id), id); }
    }
    assert Settled(u, id);
  }

  /** Main result on rescheduling, from every state that a run can reach: a reschedule of a clear
      reminder can lead to a lapse that nothing else causes exactly if a value of it is on its way. */
  lemma RescheduleLapsesIff(s: Sys, id: Id)
    requires Inv(s) && Orderly(s) && Pending(s, id) && Clear(s, id)
    ensures (exists op :: Reschedules(s, op, id) && CanLapse(s, op, id)) <==> Overlaps(s, id)
  {
    if OwesUpsert(s, id) {
      var at, kept :| kept in s.calls && Upsert(id, at) in s.calls[kept];
      assert InOrder(s.calls[kept]) && WriteOk(s, Upsert(id, at));
      OwedValueLapses(s, id, kept);
    } else if Overlaps(s, id) {
      NotAwaited(s, id);
      ReadRowLapses(s, id);
    } else {
      forall op | Reschedules(s, op, id) ensures !CanLapse(s, op, id) { UndisturbedNeverLapses(s, op, id); }
    }
  }

  lemma NotAwaited(s: Sys, id: Id)
    requires !OwesUpsert(s, id) && !Owes(s, Dirty(id))
    ensures !Awaited(s, id)
  {
    forall call, w | call in s.calls && w in s.calls[call] ensures !Owed(w, id) { assert Owes(s, w); }
  }

  // ------------------------------------------------------ taken-over claims

  /** HasDue would answer, and all calls about the reminder have returned. */
  ghost predicate Answering(s: Sys, id: Id) { s.phase.Idle? && !Flagged(s) && !s.degraded && Settled(s, id) }

  /** An instant at which the claim `claimed` is older than the lease and the reminder is due. */
  function Expiry(s: Sys, id: Id, claimed: Time, lease: Time): Time
    requires Pending(s, id)
  {
    var least := if s.table.clock < ScheduledAt(s, id) then ScheduledAt(s, id) else s.table.clock;
    if least <= claimed + lease then claimed + lease + 1 else least
  }

  /** The claim of the other one succeeds, and the row no longer carries the old claim. */
  lemma ClaimMovesOn(s: Sys, id: Id, claimed: Time, lease: Time)
    requires lease > 0 && Pending(s, id) && R.Owns(s.table.db, id, claimed)
    ensures var now := Expiry(s, id, claimed, lease);
      && R.ClaimHappens(s.table, {id}, now, lease)
      && var db := R.Apply(s.table, R.Claim({id}, now, lease)).db;
         R.LivePending(db, id) && db.rows[id].scheduledAt == s.table.db.rows[id].scheduledAt && !R.Owns(db, id, claimed)
  {
  }

  /** The entry is gone, and nothing else has changed that matters to the reminder. */
  lemma EntryLost(s: Sys, t: Sys, id: Id)
    requires Answering(s, id) && Pending(t, id) && id !in t.members && t.calls == s.calls
    requires t.phase == s.phase && t.dirty == s.dirty && t.reconciled == s.reconciled && t.degraded == s.degraded
    ensures Lapsed(t, id)
  {
    assert Awaited(t, id) <==> Awaited(s, id);
  }

  lemma ConflictRemoves(s: Sys, call: nat, id: Id, at: Time)
    requires id in s.held && Pending(s, id) && !R.Owns(s.table.db, id, s.held[id]) && call !in s.calls
    ensures var t := WriteStep(DeliverStep(s, call, id, at), call, Applied);
      t == s.(members := s.members - {id}, held := s.held - {id})
  {
    var u := DeliverStep(s, call, id, at);
    assert u == s.(calls := s.calls[call := [Remove(id)]], held := s.held - {id});
    assert [Remove(id)][1..] == [];
    assert u.calls - {call} == s.calls;
  }

  lemma OvertakenEntryLost(s: Sys, call: nat, id: Id, now: Time, lease: Time)
    requires Answering(s, id) && s.theirs == map[] && id in s.held && R.Owns(s.table.db, id, s.held[id])
    requires call !in s.calls && lease > 0 && now == Expiry(s, id, s.held[id], lease)
    ensures Lapsed(WriteStep(DeliverStep(TheirClaimStep(s, {id}, now, lease), call, id, now), call, Applied), id)
  {
    ClaimMovesOn(s, id, s.held[id], lease);
    var t := TheirClaimStep(s, {id}, now, lease);
    ConflictRemoves(t, call, id, now);
    EntryLost(s, WriteStep(DeliverStep(t, call, id, now), call, Applied), id);
  }

  /** Our pass, told of the conflict, removes the entry of a reminder that the other one claimed. */
  lemma HeldClaimLapses(s: Sys, id: Id, lease: Time)
    requires lease > 0
    requires Answering(s, id) && s.theirs == map[] && id in s.held && R.Owns(s.table.db, id, s.held[id])
    ensures exists op: Op :: op.TheirClaim? && op.lease == lease && Claims(s, op, id) && CanLapse(s, op, id)
  {
    var now := Expiry(s, id, s.held[id], lease);
    var call := FreshCall(s.calls);
    var op, deliver := TheirClaim({id}, now, lease), Deliver(call, id, now);
    ClaimMovesOn(s, id, s.held[id], lease);
    OvertakenEntryLost(s, call, id, now, lease);
    var t := TheirClaimStep(s, {id}, now, lease);
    Delivers(s, t, op, deliver);
    RunOne(t, deliver);
    Writes(DeliverStep(t, call, id, now), call);
    LapsesBy(s, op, id, [deliver], [WriteIndex(call, Applied)]);
  }

  lemma Delivers(s: Sys, t: Sys, op: Op, deliver: Op)
    requires op.TheirClaim? && deliver.Deliver?
    ensures Apply(s, op) == TheirClaimStep(s, op.ids, op.now, op.lease)
    ensures Apply(t, deliver) == DeliverStep(t, deliver.call, deliver.id, deliver.sentAt)
  {
  }

  lemma TheirConflictRemoves(s: Sys, id: Id, at: Time)
    requires id in s.theirs && Pending(s, id) && !R.Owns(s.table.db, id, s.theirs[id])
    ensures var t := TheirRemoveStep(TheirDeliverStep(s, id, at), id, Applied);
      t == s.(members := s.members - {id}, theirs := s.theirs - {id}, theirRemoves := t.theirRemoves)
  {
  }

  lemma TheirEntryLost(s: Sys, id: Id, now: Time, lease: Time)
    requires Answering(s, id) && s.held == map[] && id in s.theirs && R.Owns(s.table.db, id, s.theirs[id])
    requires lease > 0 && now == Expiry(s, id, s.theirs[id], lease)
    ensures Lapsed(TheirRemoveStep(TheirDeliverStep(ClaimStep(s, {id}, now, lease), id, now), id, Applied), id)
  {
    ClaimMovesOn(s, id, s.theirs[id], lease);
    var t := ClaimStep(s, {id}, now, lease);
    TheirConflictRemoves(t, id, now);
    EntryLost(s, TheirRemoveStep(TheirDeliverStep(t, id, now), id, Applied), id);
  }

  /** And the other way round. */
  lemma TheirClaimLapses(s: Sys, id: Id, lease: Time)
    requires lease > 0
    requires Answering(s, id) && s.held == map[] && id in s.theirs && R.Owns(s.table.db, id, s.theirs[id])
    ensures exists op: Op :: op.Claim? && op.lease == lease && Claims(s, op, id) && CanLapse(s, op, id)
  {
    var now := Expiry(s, id, s.theirs[id], lease);
    var op, deliver, remove := Claim({id}, now, lease), TheirDeliver(id, now), TheirRemove(id, Applied);
    ClaimMovesOn(s, id, s.theirs[id], lease);
    TheirEntryLost(s, id, now, lease);
    var t := ClaimStep(s, {id}, now, lease);
    TheyDeliver(s, t, op, deliver);
    RunOne(t, deliver);
    RunOne(TheirDeliverStep(t, id, now), remove);
    TheyRemove(TheirDeliverStep(t, id, now), id);
    LapsesBy(s, op, id, [deliver], [remove]);
  }

  lemma TheyDeliver(s: Sys, t: Sys, op: Op, deliver: Op)
    requires op.Claim? && deliver.TheirDeliver?
    ensures Apply(s, op) == ClaimStep(s, op.ids, op.now, op.lease)
    ensures Apply(t, deliver) == TheirDeliverStep(t, deliver.id, deliver.sentAt)
  {
  }

  lemma TheyRemove(s: Sys, id: Id)
    ensures Apply(s, TheirRemove(id, Applied)) == TheirRemoveStep(s, id, Applied)
  {
  }

  /** Main result on claims: a claim by either scheduler can lead to a lapse that nothing else causes
      exactly if the other one still holds the reminder. The lease may be any; the claim waits for it. */
  lemma TakeoverLapsesIff(s: Sys, id: Id, lease: Time)
    requires lease > 0 && Inv(s) && Clear(s, id) && Answering(s, id)
    ensures s.theirs == map[] ==>
      ((exists op: Op :: op.TheirClaim? && op.lease == lease && Claims(s, op, id) && CanLapse(s, op, id))
        <==> id in s.held)
    ensures s.held == map[] ==>
      ((exists op: Op :: op.Claim? && op.lease == lease && Claims(s, op, id) && CanLapse(s, op, id))
        <==> id in s.theirs)
  {
    if s.theirs == map[] && id in s.held { HeldClaimLapses(s, id, lease); }
    if s.held == map[] && id in s.theirs { TheirClaimLapses(s, id, lease); }
    forall op | Claims(s, op, id) && id !in Opponents(s, op) ensures !CanLapse(s, op, id) {
      UndisturbedNeverLapses(s, op, id);
    }
  }
}
