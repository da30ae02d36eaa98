/** The due index of deliveries beside the protocol that it serves. Every mutation of the service and of
    the scheduler begins, commits one transaction, performs the index writes that it owes for it, in
    order, and ends; any number of mutations are in flight, Redis and the database may fail at any
    command, and the reconciliation runs step by step in between. */
module MessageMutations {
  import opened Options
  import opened SortedSets
  import S = ScheduledMessages
  import P = DeliveryProtocol
  import M = MessageIndex

  datatype Write = Upsert(id: Id, at: Time) | Remove(id: Id)

  /** A mutation that has not committed yet, or the index writes that it still owes. */
  datatype Call = Begun | Writing(writes: seq<Write>)

  /** One transaction of the service or the scheduler. order: the former pending rows, as an edit or an
      ending returns them. Claims: one batch, all of whose rows are claimed in one transaction. */
  datatype Mutation = Single(op: P.Op, order: seq<Id>) | Claims(ids: seq<Id>, now: Time, until: Time)

  /** expected: the set as it would be if every index write were performed at its commit. Three fields
      only remember: asleep, the pending rows that the latest query of a reconciliation did not list,
      because their space was not active; unlisted, those of the last clean one; relisted, the leased
      rows that the last clean reconciliation put into the set. */
  datatype Sys = Sys(
    limits: P.Limits, p: P.Sys, ix: M.Sys, calls: map<nat, Call>, expected: Members,
    asleep: set<Id>, unlisted: set<Id>, relisted: set<Id>)

  datatype Op =
    | Begin(call: nat)
    | Commit(call: nat, m: Mutation)
    | Abort(call: nat)
    | WriteIndex(call: nat, reply: Reply)
    | End(call: nat)
    | Other(op: P.Op)
    | ReadError
    | ReadVersion
    | List(ids: seq<Id>)
    | Query(rows: seq<Entry>)
    | AddBatch(size: nat, reply: Reply)
    | AllAdded
    | RemoveBatch(size: nat, reply: Reply)
    | Mark
    | GiveUp
    | Restart

  // --------------------------------------------------------------- rows

  /** When a pending row is to be tried next. */
  function NextTry(db: S.Db, id: Id): Option<Time> {
    if S.IsPending(db, id) then db.deliveries[id].nextAttemptAt else None
  }

  /** A worker claimed the pending row and has neither given it back nor finished it; it may be dead. */
  predicate Held(db: S.Db, id: Id) { S.IsPending(db, id) && db.deliveries[id].leaseToken.Some? }

  predicate IsListed(db: S.Db, id: Id) {
    S.IsPending(db, id) && S.Open(db, db.deliveries[id].scheduleId) && db.deliveries[id].nextAttemptAt.Some?
  }

  /** ListPendingForIndex: leased rows are listed too. */
  function Listing(db: S.Db): map<Id, Time> {
    map id | id in db.deliveries && IsListed(db, id) :: db.deliveries[id].nextAttemptAt.value
  }

  // ------------------------------------------------------- transactions

  /** What the service hands to a mutation. */
  predicate ServiceCall(op: P.Op) {
    && P.Allowed(op)
    && (op.Create? || op.Edit? || op.Terminate? || op.Retry? || op.Finish? || op.Dispatch?)
    && (op.Create? ==> op.draft.firstAttempt.None? || op.draft.firstAttempt.value == op.draft.firstAt)
  }

  /** Steps of the protocol around which no mutation of the index is begun. */
  predicate IsOther(op: P.Op) { op.SetSpace? || op.Load? || op.Reserve? || op.Persist? || op.Leave? }

  ghost predicate ListsPending(order: seq<Id>, db: S.Db, sid: Id) {
    forall id :: id in order <==> S.PendingOf(db, sid, id)
  }

  ghost predicate Enabled(p: P.Sys, m: Mutation) {
    match m
    case Single(op, order) => ServiceCall(op) && (op.Edit? || op.Terminate? ==> ListsPending(order, p.db, op.sid))
    case Claims(ids, now, _) => Distinct(ids) && forall id :: id in ids ==> S.Due(p.db, id, now)
  }

  predicate MayWrite(p: P.Sys, token: Id) { token in p.workers && p.workers[token].schedule.Some? }

  ghost function RetryResult(w: P.Worker, db: S.Db, nextAttempt: Time, category: S.Text, now: Time): S.Tx
    requires w.schedule.Some?
  {
    S.RetryTx(db, P.RetryCopy(w, nextAttempt, category, now), w.schedule.value.(updatedAt := now))
  }

  ghost function FinishResult(
    w: P.Worker, db: S.Db, status: S.DeliveryStatus, next: Option<S.NewDelivery>, category: S.Text, now: Time): S.Tx
    requires w.schedule.Some?
  {
    S.FinalizeTx(
      db, P.FinishCopy(w, status, category, now), P.FinishSchedule(w.schedule.value, status, next, now), next)
  }

  /** The transaction commits; otherwise its caller gets an error. */
  ghost predicate Succeeds(p: P.Sys, op: P.Op) {
    match op
    case Create(d, now) => S.CreateTx(p.db, d, now).outcome == S.Done
    case Edit(spaceId, sid, f, next, now) => S.UpdateActiveTx(p.db, spaceId, sid, f, next, now).outcome == S.Done
    case Terminate(spaceId, sid, member, now) => S.TerminalTx(p.db, spaceId, sid, member, now).outcome == S.Done
    case Retry(token, nextAttempt, category, now) =>
      MayWrite(p, token) && RetryResult(p.workers[token], p.db, nextAttempt, category, now).outcome == S.Done
    case Finish(token, status, next, category, now) =>
      MayWrite(p, token) && FinishResult(p.workers[token], p.db, status, next, category, now).outcome == S.Done
    case Dispatch(token, now, targetValid, reply, commitOk) =>
      && token in p.workers && p.workers[token].ticket.Some?
      && S.DispatchTx(p.db, p.workers[token].copy.id, token, now, targetValid, reply, commitOk).outcome == S.Done
    case _ => false
  }

  ghost predicate Done(p: P.Sys, m: Mutation) { m.Claims? || Succeeds(p, m.op) }

  function ClaimOps(ids: seq<Id>, now: Time, until: Time): seq<P.Op> {
    seq(|ids|, i requires 0 <= i < |ids| => P.Claim(ids[i], now, until))
  }

  ghost function Committed(limits: P.Limits, p: P.Sys, m: Mutation): P.Sys {
    match m
    case Single(op, _) => P.Apply(limits, p, op)
    case Claims(ids, now, until) => P.Run(limits, p, ClaimOps(ids, now, until))
  }

  function Removals(ids: seq<Id>): seq<Write> { seq(|ids|, i requires 0 <= i < |ids| => Remove(ids[i])) }

  /** The row that an edit makes pending: the reopened one, or a new one. */
  ghost function Target(db: S.Db, sid: Id, at: Time): Id {
    var existing := S.RowAt(db, sid, at);
    if existing.Some? then existing.value else db.nextId
  }

  /** The index writes of a mutation that committed, in the order of the service. */
  ghost function WritesOf(p: P.Sys, m: Mutation): seq<Write>
    requires Enabled(p, m) && Done(p, m)
  {
    match m
    case Claims(ids, _, _) => Removals(ids)
    case Single(op, order) =>
      match op
      case Create(d, _) => [Upsert(p.db.nextId + 1, d.firstAt)]
      case Edit(_, sid, _, next, _) =>
        Removals(order) + [Upsert(Target(p.db, sid, next.value.scheduledAt), next.value.scheduledAt)]
      case Terminate(_, _, _, _) => Removals(order)
      case Retry(token, nextAttempt, _, _) => [Upsert(p.workers[token].copy.id, nextAttempt)]
      case Finish(token, _, next, _, _) =>
        [Remove(p.workers[token].copy.id)] + if next.Some? then [Upsert(p.db.nextId, next.value.scheduledAt)] else []
      case Dispatch(token, _, _, reply, _) =>
        if reply.plan.NextRow? then [Upsert(p.db.nextId, reply.plan.row.scheduledAt)]
        else [Remove(p.workers[token].copy.id)]
      case _ => []
  }

  // --------------------------------------------------------- index writes

  function At<T>(m: map<Id, T>, id: Id): Option<T> { if id in m then Some(m[id]) else None }

  function Applies(m: Members, w: Write): Members { if w.Upsert? then m[w.id := Score(w.at)] else m - {w.id} }

  function AppliesAll(m: Members, ws: seq<Write>): Members
    decreases |ws|
  {
    if ws == [] then m else AppliesAll(Applies(m, ws[0]), ws[1..])
  }

  /** What a write leaves of the entry of its id. */
  function Leaves(w: Write): Option<int> { if w.Upsert? then Some(Score(w.at)) else None }

  /** The last of the writes about the id. */
  function Last(ws: seq<Write>, id: Id): Option<Write> {
    if ws == [] then None
    else if Last(ws[1..], id).Some? then Last(ws[1..], id)
    else if ws[0].id == id then Some(ws[0]) else None
  }

  function IdsOf(ws: seq<Write>): set<Id> { set w | w in ws :: w.id }

  // ---------------------------------------------------------------- steps

  ghost function Listed(ix: M.Sys, db: S.Db): M.Sys { ix.(db := Listing(db)) }

  function BeginStep(s: Sys, call: nat): Sys {
    if call in s.calls then s else s.(ix := s.ix.(c := M.Begun(s.ix.c)), calls := s.calls[call := Begun])
  }

  /** The transaction of the call has committed; its index writes are owed. */
  ghost function Recorded(s: Sys, call: nat, p: P.Sys, ws: seq<Write>): Sys {
    s.(p := p, ix := Listed(s.ix, p.db), calls := s.calls[call := Writing(ws)],
       expected := AppliesAll(s.expected, ws), unlisted := s.unlisted - IdsOf(ws), relisted := s.relisted - IdsOf(ws))
  }

  /** The call ends with an error, which degrades the index. */
  ghost function Errs(s: Sys, call: nat, p: P.Sys): Sys {
    if s.ix.c.inFlight == 0 then s
    else s.(p := p, ix := Listed(s.ix, p.db).(c := M.Ended(s.ix.c, true)), calls := s.calls - {call})
  }

  ghost predicate CanCommit(s: Sys, call: nat, m: Mutation) {
    call in s.calls && s.calls[call].Begun? && Enabled(s.p, m)
  }

  ghost function CommitStep(s: Sys, call: nat, m: Mutation): Sys {
    if !CanCommit(s, call, m) then s
    else if Done(s.p, m) then Recorded(s, call, Committed(s.limits, s.p, m), WritesOf(s.p, m))
    else Errs(s, call, Committed(s.limits, s.p, m))
  }

  /** Upsert and Remove are mutations of their own within the one of the call; one without an answer
      degrades the index. */
  function Commanded(ix: M.Sys, w: Write, reply: Reply): M.Sys {
    ix.(members := if reply.Refused? then ix.members else Applies(ix.members, w),
        c := M.Ended(M.Begun(ix.c), !reply.Applied?))
  }

  function WriteStep(s: Sys, call: nat, reply: Reply): Sys {
    if call !in s.calls || !s.calls[call].Writing? || s.calls[call].writes == [] then s
    else
      var ws := s.calls[call].writes;
      s.(ix := Commanded(s.ix, ws[0], reply), calls := s.calls[call := Writing(ws[1..])])
  }

  function EndStep(s: Sys, call: nat): Sys {
    if call !in s.calls || s.calls[call] != Writing([]) || s.ix.c.inFlight == 0 then s
    else s.(ix := s.ix.(c := M.Ended(s.ix.c, false)), calls := s.calls - {call})
  }

  ghost function OtherStep(s: Sys, op: P.Op): Sys {
    if !IsOther(op) then s
    else
      var p := P.Apply(s.limits, s.p, op);
      s.(p := p, ix := Listed(s.ix, p.db))
  }

  /** AllIDs failed, or the count of HasDue did. */
  function ReadErrorStep(s: Sys): Sys {
    s.(ix := s.ix.(c := M.Dirtied(s.ix.c), phase := if s.ix.phase.Versioned? then M.Idle else s.ix.phase))
  }

  function Asleep(db: S.Db): set<Id> {
    set id | id in db.deliveries && S.IsPending(db, id) && !S.Open(db, db.deliveries[id].scheduleId)
  }

  function Relisted(db: S.Db, listed: set<Id>): set<Id> {
    set id | id in db.deliveries && Held(db, id) && id in listed
  }

  /** When the mark clears the flag, the set is what was read. */
  ghost function MarkStep(s: Sys): Sys {
    var t := s.(ix := M.Apply(s.ix, M.Mark));
    if M.ReadyToMark(s.ix) && M.Quiet(s.ix.c, s.ix.phase.v) then
      var rows := s.ix.phase.rows;
      t.(expected := Exact(rows), unlisted := s.asleep, relisted := Relisted(s.p.db, Ids(rows)))
    else t
  }

  /** The query of the reconciliation failed. */
  function GiveUpStep(s: Sys): Sys { if s.ix.phase.Listed? then s.(ix := s.ix.(phase := M.Idle)) else s }

  ghost function Rebuilds(s: Sys, op: M.Op): Sys { s.(ix := M.Apply(s.ix, op)) }

  ghost function QueryStep(s: Sys, rows: seq<Entry>): Sys {
    if s.ix.phase.Listed? && M.Answers(rows, s.ix.db) then Rebuilds(s, M.Query(rows)).(asleep := Asleep(s.p.db)) else s
  }

  function RestartStep(s: Sys): Sys { s.(ix := s.ix.(c := M.Fresh(), phase := M.Idle), calls := map[]) }

  ghost function Apply(s: Sys, op: Op): Sys {
    match op
    case Begin(call) => BeginStep(s, call)
    case Commit(call, m) => CommitStep(s, call, m)
    case Abort(call) => if call in s.calls && s.calls[call].Begun? then Errs(s, call, s.p) else s
    case WriteIndex(call, reply) => WriteStep(s, call, reply)
    case End(call) => EndStep(s, call)
    case Other(op) => OtherStep(s, op)
    case ReadError => ReadErrorStep(s)
    case ReadVersion => Rebuilds(s, M.ReadVersion)
    case List(ids) => Rebuilds(s, M.List(ids))
    case Query(rows) => QueryStep(s, rows)
    case AddBatch(size, reply) => Rebuilds(s, M.AddBatch(size, reply))
    case AllAdded => Rebuilds(s, M.AllAdded)
    case RemoveBatch(size, reply) => Rebuilds(s, M.RemoveBatch(size, reply))
    case Mark => MarkStep(s)
    case GiveUp => GiveUpStep(s)
    case Restart => RestartStep(s)
  }

  ghost function Run(s: Sys, ops: seq<Op>): Sys {
    if ops == [] then s else Apply(Run(s, ops[..|ops| - 1]), ops[|ops| - 1])
  }

  /** A new table, and a set that may hold anything. */
  ghost predicate Start(s: Sys) {
    && s.p == P.Start(s.p.db.spaces) && M.Start(s.ix) && s.ix.db == map[] && s.calls == map[]
    && s.expected == map[] && s.asleep == s.unlisted == s.relisted == {}
  }

  // ------------------------------------------------------ rows and writes

  /** What a transaction makes of one row, and what its writes say of it. A row about which nothing is
      written stays as it is; only a dispatch that plans the next row leaves its own one unmentioned. */
  predicate Follows(db: S.Db, db': S.Db, ws: seq<Write>, id: Id) {
    match Last(ws, id)
    case Some(Upsert(_, at)) => NextTry(db', id) == Some(at) && !Held(db', id)
    case Some(Remove(_)) => NextTry(db', id).None? || (Held(db', id) && NextTry(db', id).Some?)
    case None =>
      || (NextTry(db', id) == NextTry(db, id) && Held(db', id) == Held(db, id))
      || (NextTry(db', id).None? && Held(db, id))
  }

  lemma {:induction false} LastIsIn(ws: seq<Write>, id: Id)
    ensures Last(ws, id).Some? <==> id in IdsOf(ws)
    ensures Last(ws, id).Some? ==> Last(ws, id).value in ws && Last(ws, id).value.id == id
  {
    if ws != [] {
      LastIsIn(ws[1..], id);
      assert ws == [ws[0]] + ws[1..];
    }
  }

  lemma {:induction false} LastOfTwo(a: seq<Write>, b: seq<Write>, id: Id)
    ensures Last(a + b, id) == if Last(b, id).Some? then Last(b, id) else Last(a, id)
  {
    if a == [] {
      assert a + b == b;
    } else {
      assert (a + b)[1..] == a[1..] + b;
      LastOfTwo(a[1..], b, id);
    }
  }

  lemma {:induction false} LastRemoval(ids: seq<Id>, id: Id)
    ensures Last(Removals(ids), id) == if id in ids then Some(Remove(id)) else None
  {
    if ids != [] {
      assert Removals(ids)[1..] == Removals(ids[1..]);
      assert ids == [ids[0]] + ids[1..];
      LastRemoval(ids[1..], id);
    }
  }

  lemma LastOfOne(w: Write, id: Id)
    ensures Last([w], id) == if w.id == id then Some(w) else None
  {
    assert [w][1..] == [];
  }

  /** The expected entry is that of the last write about the id. */
  lemma {:induction false} AppliedLast(m: Members, ws: seq<Write>, id: Id)
    ensures At(AppliesAll(m, ws), id) == if Last(ws, id).Some? then Leaves(Last(ws, id).value) else At(m, id)
    decreases |ws|
  {
    if ws != [] { AppliedLast(Applies(m, ws[0]), ws[1..], id); }
  }

  lemma CreateFollows(limits: P.Limits, p: P.Sys, op: P.Op, id: Id)
    requires P.RowsOk(p.db) && op.Create? && ServiceCall(op) && Succeeds(p, op)
    ensures Follows(p.db, P.Apply(limits, p, op).db, [Upsert(p.db.nextId + 1, op.draft.firstAt)], id)
  {
    LastOfOne(Upsert(p.db.nextId + 1, op.draft.firstAt), id);
  }

  lemma EditFollows(limits: P.Limits, p: P.Sys, op: P.Op, order: seq<Id>, id: Id)
    requires P.RowsOk(p.db) && op.Edit? && Enabled(p, Single(op, order)) && Succeeds(p, op)
    ensures Follows(p.db, P.Apply(limits, p, op).db, WritesOf(p, Single(op, order)), id)
  {
    var w := Upsert(Target(p.db, op.sid, op.next.value.scheduledAt), op.next.value.scheduledAt);
    LastOfTwo(Removals(order), [w], id);
    LastOfOne(w, id);
    LastRemoval(order, id);
    EditedRow(p.db, op, id);
  }

  /** An edit makes its target pending and free, and no other row of the schedule pending. */
  lemma EditedRow(db: S.Db, op: P.Op, id: Id)
    requires P.RowsOk(db) && op.Edit?
    requires S.UpdateActiveTx(db, op.spaceId, op.sid, op.fields, op.next, op.now).outcome == S.Done
    ensures
      var db' := S.UpdateActiveTx(db, op.spaceId, op.sid, op.fields, op.next, op.now).db;
      var at := op.next.value.scheduledAt;
      && op.next.Some?
      && (id == Target(db, op.sid, at) ==> NextTry(db', id) == Some(at) && !Held(db', id))
      && (id != Target(db, op.sid, at) && S.PendingOf(db, op.sid, id) ==> NextTry(db', id).None?)
      && (id != Target(db, op.sid, at) && !S.PendingOf(db, op.sid, id) ==>
            NextTry(db', id) == NextTry(db, id) && Held(db', id) == Held(db, id))
  {
  }

  lemma TerminateFollows(limits: P.Limits, p: P.Sys, op: P.Op, order: seq<Id>, id: Id)
    requires P.RowsOk(p.db) && op.Terminate? && Enabled(p, Single(op, order)) && Succeeds(p, op)
    ensures Follows(p.db, P.Apply(limits, p, op).db, Removals(order), id)
  {
    LastRemoval(order, id);
  }

  lemma RetryFollows(limits: P.Limits, p: P.Sys, op: P.Op, id: Id)
    requires P.RowsOk(p.db) && op.Retry? && Succeeds(p, op)
    ensures Follows(p.db, P.Apply(limits, p, op).db, [Upsert(p.workers[op.token].copy.id, op.nextAttempt)], id)
  {
    LastOfOne(Upsert(p.workers[op.token].copy.id, op.nextAttempt), id);
  }

  lemma FinishFollows(limits: P.Limits, p: P.Sys, op: P.Op, id: Id)
    requires P.RowsOk(p.db) && op.Finish? && ServiceCall(op) && Succeeds(p, op)
    ensures Follows(p.db, P.Apply(limits, p, op).db, WritesOf(p, Single(op, [])), id)
  {
    var own := Remove(p.workers[op.token].copy.id);
    LastOfOne(own, id);
    if op.next.Some? {
      var w := Upsert(p.db.nextId, op.next.value.scheduledAt);
      LastOfTwo([own], [w], id);
      LastOfOne(w, id);
    } else {
      assert [own] + [] == [own];
    }
  }

  lemma DispatchFollows(limits: P.Limits, p: P.Sys, op: P.Op, id: Id)
    requires P.RowsOk(p.db) && op.Dispatch? && ServiceCall(op) && Succeeds(p, op)
    ensures Follows(p.db, P.Apply(limits, p, op).db, WritesOf(p, Single(op, [])), id)
  {
    if op.reply.plan.NextRow? {
      LastOfOne(Upsert(p.db.nextId, op.reply.plan.row.scheduledAt), id);
    } else {
      LastOfOne(Remove(p.workers[op.token].copy.id), id);
    }
  }

  lemma ClaimSnoc(ids: seq<Id>, now: Time, until: Time)
    requires ids != []
    ensures ClaimOps(ids, now, until)
      == ClaimOps(ids[..|ids| - 1], now, until) + [P.Claim(ids[|ids| - 1], now, until)]
  {
  }

  /** A batch of claims leaves the times alone and holds exactly its own rows. */
  lemma {:induction false} ClaimedRows(limits: P.Limits, p: P.Sys, ids: seq<Id>, now: Time, until: Time)
    requires Enabled(p, Claims(ids, now, until))
    ensures
      var q := P.Run(limits, p, ClaimOps(ids, now, until));
      && q.db.spaces == p.db.spaces && q.db.schedules == p.db.schedules
      && q.db.deliveries.Keys == p.db.deliveries.Keys
      && (forall id :: id in p.db.deliveries && id !in ids ==> q.db.deliveries[id] == p.db.deliveries[id])
      && (forall id :: id in ids ==> NextTry(q.db, id) == NextTry(p.db, id) && Held(q.db, id))
    decreases |ids|
  {
    if ids != [] {
      var front, last := ids[..|ids| - 1], ids[|ids| - 1];
      ClaimSnoc(ids, now, until);
      ClaimedRows(limits, p, front, now, until);
      var q := P.Run(limits, p, ClaimOps(front, now, until));
      assert ClaimOps(ids, now, until)[..|ids| - 1] == ClaimOps(front, now, until);
      assert last !in front && last in ids;
      assert S.Due(p.db, last, now);
      assert S.Due(q.db, last, now);
      assert forall id :: id in ids <==> id in front || id == last;
    }
  }

  lemma ClaimsFollow(limits: P.Limits, p: P.Sys, ids: seq<Id>, now: Time, until: Time, id: Id)
    requires P.RowsOk(p.db) && Enabled(p, Claims(ids, now, until))
    ensures Follows(p.db, P.Run(limits, p, ClaimOps(ids, now, until)).db, Removals(ids), id)
  {
    ClaimedRows(limits, p, ids, now, until);
    LastRemoval(ids, id);
  }

  /** Every mutation tells the index what it did to each row. */
  lemma MutationFollows(limits: P.Limits, p: P.Sys, m: Mutation, id: Id)
    requires P.RowsOk(p.db) && Enabled(p, m) && Done(p, m)
    ensures Follows(p.db, Committed(limits, p, m).db, WritesOf(p, m), id)
  {
    match m
    case Claims(ids, now, until) => ClaimsFollow(limits, p, ids, now, until, id);
    case Single(op, order) =>
      match op
      case Create(_, _) => CreateFollows(limits, p, op, id);
      case Edit(_, _, _, _, _) => EditFollows(limits, p, op, order, id);
      case Terminate(_, _, _, _) => TerminateFollows(limits, p, op, order, id);
      case Retry(_, _, _, _) => RetryFollows(limits, p, op, id);
      case Finish(_, _, _, _, _) => FinishFollows(limits, p, op, id);
      case Dispatch(_, _, _, _, _) => DispatchFollows(limits, p, op, id);
  }

  /** A mutation that fails leaves the rows alone. */
  lemma FailedKeepsRows(limits: P.Limits, p: P.Sys, m: Mutation)
    requires Enabled(p, m) && !Done(p, m)
    ensures Committed(limits, p, m).db == p.db
  {
  }

  lemma OtherKeepsRows(limits: P.Limits, p: P.Sys, op: P.Op, id: Id)
    requires IsOther(op)
    ensures NextTry(P.Apply(limits, p, op).db, id) == NextTry(p.db, id)
    ensures Held(P.Apply(limits, p, op).db, id) == Held(p.db, id)
  {
  }
}
