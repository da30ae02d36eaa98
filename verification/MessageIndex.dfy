/** The due index of scheduled deliveries: the version, in-flight and degraded protocol that decides
    when a rebuilt set may be trusted. One process, one reconciler, any number of mutations. */
module MessageIndex {
  import opened Options
  import opened SortedSets

  /** The fields that the mutex protects. */
  datatype Counters = Counters(version: nat, inFlight: nat, degraded: bool)

  function Fresh(): Counters { Counters(1, 0, true) }

  function Begun(c: Counters): Counters { c.(version := c.version + 1, inFlight := c.inFlight + 1) }

  function Ended(c: Counters, failed: bool): Counters
    requires c.inFlight > 0
  {
    Counters(c.version + 1, c.inFlight - 1, c.degraded || failed)
  }

  function Dirtied(c: Counters): Counters { c.(version := c.version + 1, degraded := true) }

  function Marked(c: Counters, v: nat): Counters { c.(degraded := !(c.version == v && c.inFlight == 0)) }

  /** How far the reconciler is; `listed` remembers the set at the time it was listed. */
  datatype Phase =
    | Idle
    | Versioned(v: nat)
    | Listed(v: nat, listed: Members, ids: seq<Id>)
    | Adding(v: nat, listed: Members, ids: seq<Id>, rows: seq<Entry>, done: nat)
    | Removing(v: nat, listed: Members, ids: seq<Id>, rows: seq<Entry>, done: nat)

  /** db: the pending rows, with their next attempt, that ListPendingForIndex would return. */
  datatype Sys = Sys(c: Counters, members: Members, db: map<Id, Time>, phase: Phase)

  datatype Op =
    | Begin
    | End(failed: bool)
    | AddOne(id: Id, at: Time, reply: Reply)
    | RemoveOne(id: Id, reply: Reply)
    | Write(db: map<Id, Time>)
    | ReadError
    | SpaceChange(db: map<Id, Time>)
    | Restart
    | ReadVersion
    | List(ids: seq<Id>)
    | Query(rows: seq<Entry>)
    | AddBatch(size: nat, reply: Reply)
    | AllAdded
    | RemoveBatch(size: nat, reply: Reply)
    | Mark
    | GiveUp

  /** A query's answer: every row once, with its next attempt. */
  ghost predicate Answers(rows: seq<Entry>, db: map<Id, Time>) {
    && Ids(rows) == db.Keys
    && forall e :: e in rows ==> e.id in db && db[e.id] == e.at
  }

  /** One step; an op whose guard fails changes nothing. Writes to rows and to the set belong to a
      mutation that has begun; a change of a space's status does not. */
  ghost function Apply(s: Sys, op: Op): Sys {
    match op
    case Begin => s.(c := Begun(s.c))
    case End(failed) => if s.c.inFlight > 0 then s.(c := Ended(s.c, failed)) else s
    case AddOne(id, at, reply) =>
      if s.c.inFlight > 0 && !reply.Refused? then s.(members := s.members[id := Score(at)]) else s
    case RemoveOne(id, reply) =>
      if s.c.inFlight > 0 && !reply.Refused? then s.(members := s.members - {id}) else s
    case Write(db) => if s.c.inFlight > 0 then s.(db := db) else s
    case ReadError => s.(c := Dirtied(s.c))
    case SpaceChange(db) => s.(db := db)
    case Restart => s.(c := Fresh(), phase := Idle)
    case ReadVersion => if s.phase.Idle? then s.(phase := Versioned(s.c.version)) else s
    case List(ids) =>
      if s.phase.Versioned? && Distinct(ids) && Elements(ids) == s.members.Keys then
        s.(phase := Listed(s.phase.v, s.members, ids))
      else s
    case Query(rows) =>
      if s.phase.Listed? && Answers(rows, s.db) then
        s.(phase := Adding(s.phase.v, s.phase.listed, s.phase.ids, rows, 0))
      else s
    case AddBatch(size, reply) =>
      if s.phase.Adding? && s.phase.done <= |s.phase.rows| then AddBatchStep(s, size, reply) else s
    case AllAdded =>
      if s.phase.Adding? && s.phase.done == |s.phase.rows| then
        s.(phase := Removing(s.phase.v, s.phase.listed, s.phase.ids, s.phase.rows, 0))
      else s
    case RemoveBatch(size, reply) =>
      if s.phase.Removing? && s.phase.done <= |Stale(s.phase.ids, s.phase.rows)| then RemoveBatchStep(s, size, reply)
      else s
    case Mark => if ReadyToMark(s) then s.(c := Marked(s.c, s.phase.v), phase := Idle) else s
    case GiveUp => s.(phase := Idle)
  }

  predicate ReadyToMark(s: Sys) { s.phase.Removing? && s.phase.done == |Stale(s.phase.ids, s.phase.rows)| }

  /** A failed batch dirties the index and ends the reconciliation. */
  function AddBatchStep(s: Sys, size: nat, reply: Reply): Sys
    requires s.phase.Adding? && s.phase.done <= |s.phase.rows|
  {
    var end := Least(s.phase.done + size, |s.phase.rows|);
    var members := if reply.Refused? then s.members else AddAll(s.members, s.phase.rows[s.phase.done..end]);
    if reply.Applied? then
      s.(members := members, phase := Adding(s.phase.v, s.phase.listed, s.phase.ids, s.phase.rows, end))
    else s.(members := members, c := Dirtied(s.c), phase := Idle)
  }

  function RemoveBatchStep(s: Sys, size: nat, reply: Reply): Sys
    requires s.phase.Removing? && s.phase.done <= |Stale(s.phase.ids, s.phase.rows)|
  {
    var stale := Stale(s.phase.ids, s.phase.rows);
    var end := Least(s.phase.done + size, |stale|);
    var members := if reply.Refused? then s.members else RemoveAll(s.members, stale[s.phase.done..end]);
    if reply.Applied? then
      s.(members := members, phase := Removing(s.phase.v, s.phase.listed, s.phase.ids, s.phase.rows, end))
    else s.(members := members, c := Dirtied(s.c), phase := Idle)
  }

  ghost function Run(s: Sys, ops: seq<Op>): Sys {
    if ops == [] then s else Apply(Run(s, ops[..|ops| - 1]), ops[|ops| - 1])
  }

  ghost predicate Start(s: Sys) { s.c == Fresh() && s.phase.Idle? }

  /** Nothing has begun, run or ended since the version was read. */
  predicate Quiet(c: Counters, v: nat) { c.version == v && c.inFlight == 0 }

  /** While all is quiet the set is what the finished part of the rebuild makes of the listed set. */
  ghost predicate Good(s: Sys) {
    match s.phase
    case Idle => true
    case Versioned(v) => v <= s.c.version
    case Listed(v, listed, ids) =>
      && v <= s.c.version && Elements(ids) == listed.Keys
      && (Quiet(s.c, v) ==> s.members == listed)
    case Adding(v, listed, ids, rows, done) =>
      && v <= s.c.version && Elements(ids) == listed.Keys && done <= |rows|
      && (Quiet(s.c, v) ==> s.members == AddAll(listed, rows[..done]))
    case Removing(v, listed, ids, rows, done) =>
      && v <= s.c.version && Elements(ids) == listed.Keys && done <= |Stale(ids, rows)|
      && (Quiet(s.c, v) ==> s.members == RemoveAll(AddAll(listed, rows), Stale(ids, rows)[..done]))
  }

  lemma AddBatchKeeps(s: Sys, size: nat, reply: Reply)
    requires Good(s) && s.phase.Adding?
    ensures Good(AddBatchStep(s, size, reply))
  {
    var rows, done := s.phase.rows, s.phase.done;
    var end := Least(done + size, |rows|);
    assert rows[..done] + rows[done..end] == rows[..end];
    AddAllConcat(s.phase.listed, rows[..done], rows[done..end]);
  }

  lemma RemoveBatchKeeps(s: Sys, size: nat, reply: Reply)
    requires Good(s) && s.phase.Removing?
    ensures Good(RemoveBatchStep(s, size, reply))
  {
  }

  /** The steps of the reconciler itself keep the invariant. */
  lemma ReconcilerKeeps(s: Sys, op: Op)
    requires Good(s) && (op.Query? || op.AllAdded? || op.AddBatch? || op.RemoveBatch?)
    ensures Good(Apply(s, op))
  {
    match op
    case Query(rows) =>
      assert rows[..0] == [];
    case AddBatch(size, reply) =>
      if s.phase.Adding? { AddBatchKeeps(s, size, reply); }
    case AllAdded =>
      if s.phase.Adding? && s.phase.done == |s.phase.rows| {
        assert s.phase.rows[..s.phase.done] == s.phase.rows;
        assert Stale(s.phase.ids, s.phase.rows)[..0] == [];
      }
    case RemoveBatch(size, reply) =>
      if s.phase.Removing? { RemoveBatchKeeps(s, size, reply); }
  }

  lemma ApplyKeeps(s: Sys, op: Op)
    requires Good(s)
    ensures Good(Apply(s, op))
  {
    if op.Query? || op.AllAdded? || op.AddBatch? || op.RemoveBatch? { ReconcilerKeeps(s, op); }
  }

  lemma {:induction false} RunKeeps(s: Sys, ops: seq<Op>)
    requires Good(s)
    ensures Good(Run(s, ops))
  {
    if ops != [] {
      RunKeeps(s, ops[..|ops| - 1]);
      ApplyKeeps(Run(s, ops[..|ops| - 1]), ops[|ops| - 1]);
    }
  }

  lemma MarkedIsExact(t: Sys)
    requires Good(t) && ReadyToMark(t) && Quiet(t.c, t.phase.v)
    ensures t.members == Exact(t.phase.rows)
  {
    var stale := Stale(t.phase.ids, t.phase.rows);
    assert stale[..|stale|] == stale;
    Rebuilt(t.phase.listed, t.phase.ids, t.phase.rows);
  }

  /** In every run, when MarkReconciled clears the degraded flag the set holds exactly the pending
      rows that were read, each with its own score. */
  lemma ClearedIsExact(s: Sys, ops: seq<Op>)
    requires Start(s) && ReadyToMark(Run(s, ops))
    ensures var t := Run(s, ops);
      !Apply(t, Mark).c.degraded ==> Apply(t, Mark).members == Exact(t.phase.rows)
  {
    RunKeeps(s, ops);
    if Quiet(Run(s, ops).c, Run(s, ops).phase.v) {
      MarkedIsExact(Run(s, ops));
    }
  }

  /** An op that is, or lies within, a mutation of the index or of the rows, or a failed read. */
  predicate Disturbs(s: Sys, op: Op) {
    match op
    case Begin => true
    case ReadError => true
    case End(_) => s.c.inFlight > 0
    case AddOne(_, _, _) => s.c.inFlight > 0
    case RemoveOne(_, _) => s.c.inFlight > 0
    case Write(_) => s.c.inFlight > 0
    case _ => false
  }

  /** No mutation is running at the start of the run, and none begins, runs or ends during it. */
  ghost predicate Undisturbed(s: Sys, ops: seq<Op>) {
    if ops == [] then s.c.inFlight == 0
    else
      var front, last := ops[..|ops| - 1], ops[|ops| - 1];
      Undisturbed(s, front) && !Disturbs(Run(s, front), last)
  }

  /** A reconciliation under way: its version was read at the start of the run. */
  ghost predicate SinceRead(ops: seq<Op>) {
    forall i :: 0 <= i < |ops| ==> ops[i] != ReadVersion && ops[i] != Restart
  }

  /** Versions only grow; the phase keeps the version that was read; and as long as the reconciler
      does not fail, an unchanged version with nothing in flight means an undisturbed run. */
  lemma {:induction false} VersionTells(s: Sys, ops: seq<Op>)
    requires SinceRead(ops) && s.phase.Versioned?
    ensures var t := Run(s, ops);
      && t.c.version >= s.c.version
      && (!t.phase.Idle? ==> t.phase.v == s.phase.v && (Undisturbed(s, ops) <==> Quiet(t.c, s.c.version)))
  {
    if ops != [] {
      var front, last := ops[..|ops| - 1], ops[|ops| - 1];
      assert SinceRead(front);
      VersionTells(s, front);
      StepTells(Run(s, front), last, s.c.version);
    }
  }

  lemma StepTells(s: Sys, op: Op, v: nat)
    requires v <= s.c.version && op != ReadVersion && op != Restart
    ensures var t := Apply(s, op);
      && t.c.version >= s.c.version
      && (!t.phase.Idle? ==> !s.phase.Idle? && t.phase.v == s.phase.v)
      && (!t.phase.Idle? ==> (Quiet(t.c, v) <==> Quiet(s.c, v) && !Disturbs(s, op)))
  {
  }

  /** MarkReconciled(v) clears the degraded flag exactly when, between ReconcileVersion returning v
      and the mark, no mutation was running, began or ended and no read failed. */
  lemma MarkClearsIff(s: Sys, ops: seq<Op>)
    requires s.phase == Versioned(s.c.version) && SinceRead(ops) && ReadyToMark(Run(s, ops))
    ensures !Apply(Run(s, ops), Mark).c.degraded <==> Undisturbed(s, ops)
  {
    VersionTells(s, ops);
  }

  ghost predicate NoSpaceChange(ops: seq<Op>) { forall i, db :: 0 <= i < |ops| ==> ops[i] != SpaceChange(db) }

  /** An undisturbed run leaves the rows alone, up to changes of spaces. */
  lemma {:induction false} UndisturbedRows(s: Sys, ops: seq<Op>)
    requires Undisturbed(s, ops) && NoSpaceChange(ops)
    ensures Run(s, ops).db == s.db
  {
    if ops != [] {
      UndisturbedRows(s, ops[..|ops| - 1]);
      assert forall db :: ops[|ops| - 1] != SpaceChange(db);
    }
  }

  ghost predicate RowsCurrent(s: Sys) {
    (s.phase.Adding? || s.phase.Removing?) ==> Answers(s.phase.rows, s.db)
  }

  /** What was read stays true for as long as nothing disturbs the run. */
  lemma {:induction false} RowsStayCurrent(s: Sys, ops: seq<Op>)
    requires s.phase.Versioned? && SinceRead(ops) && Undisturbed(s, ops) && NoSpaceChange(ops)
    ensures RowsCurrent(Run(s, ops))
  {
    if ops != [] {
      var front, last := ops[..|ops| - 1], ops[|ops| - 1];
      RowsStayCurrent(s, front);
      UndisturbedRows(s, ops);
      UndisturbedRows(s, front);
    }
  }

  /** The set is the pending rows: no id is missing, none is left over, every score is exact. */
  ghost predicate Mirrors(m: Members, db: map<Id, Time>) {
    m.Keys == db.Keys && forall id :: id in m ==> m[id] == Score(db[id])
  }

  lemma {:induction false} ExactMirrors(rows: seq<Entry>, db: map<Id, Time>)
    requires forall e :: e in rows ==> e.id in db && db[e.id] == e.at
    ensures Exact(rows).Keys == Ids(rows)
    ensures forall id :: id in Exact(rows) ==> id in db && Exact(rows)[id] == Score(db[id])
  {
    AddedKeys(map[], rows);
    if rows != [] {
      assert rows[|rows| - 1] in rows;
      ExactMirrors(rows[..|rows| - 1], db);
    }
  }

  /** Once a reconciliation has cleared the degraded flag, the set mirrors the pending rows of that
      moment; `s` is the state in which ReconcileVersion returned. */
  lemma ClearedMirrors(s: Sys, ops: seq<Op>)
    requires Good(s) && s.phase == Versioned(s.c.version) && SinceRead(ops) && NoSpaceChange(ops)
    requires ReadyToMark(Run(s, ops)) && !Apply(Run(s, ops), Mark).c.degraded
    ensures Mirrors(Run(s, ops).members, Run(s, ops).db)
  {
    var t := Run(s, ops);
    MarkClearsIff(s, ops);
    RunKeeps(s, ops);
    VersionTells(s, ops);
    MarkedIsExact(t);
    RowsStayCurrent(s, ops);
    ExactMirrors(t.phase.rows, t.db);
  }

  /** A set that mirrors the rows makes HasDue right, to the millisecond. */
  lemma MirrorsAnswers(m: Members, db: map<Id, Time>, now: Time)
    requires Mirrors(m, db)
    ensures AnyDue(m, now) <==> exists id :: id in db && Score(db[id]) <= Score(now)
    ensures (exists id :: id in db && db[id] <= now) ==> AnyDue(m, now)
  {
    if id :| id in db && Score(db[id]) <= Score(now) { assert m[id] <= Score(now); }
    if id :| id in db && db[id] <= now { DueIsCounted(m, id, db[id], now); }
  }
}
