/** What the due index of deliveries is worth, over every run of mutations, failures and
    reconciliations: whenever HasDue would answer, the entry of a row about which nothing is on its way
    is exact if and only if the row is not leased, unless two mutations of the row overlapped. */
module MessageCoverage {
  import opened Options
  import opened SortedSets
  import opened MessageMutations
  import S = ScheduledMessages
  import P = DeliveryProtocol
  import R = DeliveryRuns
  import M = MessageIndex

  // --------------------------------------------------------- invariant

  /** The reconciliation writes; whatever a mutation does meanwhile makes its mark degrade the index. */
  predicate Rewriting(s: Sys) { s.ix.phase.Adding? || s.ix.phase.Removing? }

  /** The call still owes a write about the row. */
  predicate Owes(s: Sys, call: nat, id: Id) {
    call in s.calls && s.calls[call].Writing? && Last(s.calls[call].writes, id).Some?
  }

  /** What the call leaves of the entry once it has written all that it owes. */
  function WillLeave(s: Sys, call: nat, id: Id): Option<int>
    requires Owes(s, call, id)
  {
    Leaves(Last(s.calls[call].writes, id).value)
  }

  ghost predicate Settled(s: Sys, id: Id) { forall call :: !Owes(s, call, id) }

  /** What the set is to hold of a row, given the table and what the last reconciliation found. */
  predicate MatchesAt(s: Sys, id: Id) {
    var at, e := NextTry(s.p.db, id), At(s.expected, id);
    if at.None? then id !in s.relisted ==> e.None?
    else if Held(s.p.db, id) then e == if id in s.relisted then Some(Score(at.value)) else None
    else e == if id in s.unlisted then None else Some(Score(at.value))
  }

  /** While nothing disturbs the reconciliation, the times that it read are those of the rows, and it
      read every pending row that was not asleep. */
  ghost predicate RowsFresh(s: Sys) {
    Rewriting(s) && M.Quiet(s.ix.c, s.ix.phase.v) ==>
      && (forall e :: e in s.ix.phase.rows ==> NextTry(s.p.db, e.id) == Some(e.at))
      && (forall id :: NextTry(s.p.db, id).Some? ==> id in Ids(s.ix.phase.rows) || id in s.asleep)
      && (forall id :: id in s.asleep ==> id !in Ids(s.ix.phase.rows))
  }

  ghost predicate CallsCounted(s: Sys) { |s.calls| == s.ix.c.inFlight }

  ghost predicate IndexInv(s: Sys) {
    && P.RowsOk(s.p.db) && s.ix.db == Listing(s.p.db) && M.Good(s.ix)
    && CallsCounted(s) && RowsFresh(s) && forall id :: MatchesAt(s, id)
  }

  ghost predicate Inv(s: Sys) { P.Inv(s.limits, s.p) && IndexInv(s) }

  lemma {:induction false} InFlight(s: Sys, call: nat)
    requires CallsCounted(s) && call in s.calls
    ensures s.ix.c.inFlight > 0
  {
    assert s.calls.Keys != {};
  }

  // --------------------------------------------- the table and the writes

  lemma HeldHasTime(db: S.Db, id: Id)
    requires P.RowsOk(db)
    ensures Held(db, id) ==> NextTry(db, id).Some?
  {
    if S.IsPending(db, id) { assert P.RowWellFormed(db, id); }
  }

  lemma RecordedMatches(s: Sys, call: nat, p: P.Sys, ws: seq<Write>, id: Id)
    requires MatchesAt(s, id) && Follows(s.p.db, p.db, ws, id) && P.RowsOk(s.p.db) && P.RowsOk(p.db)
    ensures MatchesAt(Recorded(s, call, p, ws), id)
  {
    AppliedLast(s.expected, ws, id);
    LastIsIn(ws, id);
    HeldHasTime(s.p.db, id);
    HeldHasTime(p.db, id);
  }

  lemma SameRowsMatch(s: Sys, t: Sys, id: Id)
    requires MatchesAt(s, id) && NextTry(t.p.db, id) == NextTry(s.p.db, id) && Held(t.p.db, id) == Held(s.p.db, id)
    requires t.expected == s.expected && t.unlisted == s.unlisted && t.relisted == s.relisted
    ensures MatchesAt(t, id)
  {
  }

  lemma CommitKeeps(s: Sys, call: nat, m: Mutation)
    requires IndexInv(s) && CanCommit(s, call, m) && Done(s.p, m) && P.RowsOk(Committed(s.limits, s.p, m).db)
    ensures IndexInv(CommitStep(s, call, m))
  {
    var p, ws := Committed(s.limits, s.p, m), WritesOf(s.p, m);
    InFlight(s, call);
    forall id ensures MatchesAt(Recorded(s, call, p, ws), id) {
      MutationFollows(s.limits, s.p, m, id);
      RecordedMatches(s, call, p, ws, id);
    }
    assert s.calls[call := Writing(ws)].Keys == s.calls.Keys;
  }

  lemma ErrsKeeps(s: Sys, call: nat, p: P.Sys)
    requires IndexInv(s) && call in s.calls && p.db == s.p.db
    ensures IndexInv(Errs(s, call, p))
  {
    InFlight(s, call);
    var t := Errs(s, call, p);
    forall id ensures MatchesAt(t, id) { SameRowsMatch(s, t, id); }
    assert t.calls.Keys == s.calls.Keys - {call};
  }

  lemma BeginKeeps(s: Sys, call: nat)
    requires IndexInv(s)
    ensures IndexInv(BeginStep(s, call))
  {
    var t := BeginStep(s, call);
    forall id ensures MatchesAt(t, id) { SameRowsMatch(s, t, id); }
    if call !in s.calls { assert t.calls.Keys == s.calls.Keys + {call}; }
  }

  lemma WriteKeeps(s: Sys, call: nat, reply: Reply)
    requires IndexInv(s)
    ensures IndexInv(WriteStep(s, call, reply))
  {
    var t := WriteStep(s, call, reply);
    forall id ensures MatchesAt(t, id) { SameRowsMatch(s, t, id); }
    if t != s {
      InFlight(s, call);
      assert t.calls.Keys == s.calls.Keys;
    }
  }

  lemma EndKeeps(s: Sys, call: nat)
    requires IndexInv(s)
    ensures IndexInv(EndStep(s, call))
  {
    var t := EndStep(s, call);
    forall id ensures MatchesAt(t, id) { SameRowsMatch(s, t, id); }
    if t != s { assert t.calls.Keys == s.calls.Keys - {call}; }
  }

  lemma OtherKeeps(s: Sys, op: P.Op)
    requires IndexInv(s) && P.RowsOk(OtherStep(s, op).p.db)
    ensures IndexInv(OtherStep(s, op))
  {
    if IsOther(op) {
      var t := OtherStep(s, op);
      forall id ensures MatchesAt(t, id) && NextTry(t.p.db, id) == NextTry(s.p.db, id) {
        OtherKeepsRows(s.limits, s.p, op, id);
        SameRowsMatch(s, t, id);
      }
    }
  }

  /** ReadError, GiveUp and Restart: the table stays, and the reconciliation is disturbed or over. */
  lemma StopKeeps(s: Sys, t: Sys)
    requires IndexInv(s) && (t == ReadErrorStep(s) || t == GiveUpStep(s) || t == RestartStep(s))
    ensures IndexInv(t)
  {
    forall id ensures MatchesAt(t, id) { SameRowsMatch(s, t, id); }
  }

  predicate IsRebuild(op: M.Op) { op.ReadVersion? || op.List? || op.AddBatch? || op.AllAdded? || op.RemoveBatch? }

  lemma RebuildKeeps(s: Sys, op: M.Op)
    requires IndexInv(s) && IsRebuild(op)
    ensures IndexInv(Rebuilds(s, op))
  {
    var t := Rebuilds(s, op);
    M.ApplyKeeps(s.ix, op);
    forall id ensures MatchesAt(t, id) { SameRowsMatch(s, t, id); }
    RebuildFrame(s.ix, op);
  }

  lemma RebuildFrame(ix: M.Sys, op: M.Op)
    requires IsRebuild(op)
    ensures var ix' := M.Apply(ix, op);
      && ix'.db == ix.db && ix'.c.inFlight == ix.c.inFlight && (ix.c.degraded ==> ix'.c.degraded)
      && ((ix'.phase.Adding? || ix'.phase.Removing?) ==>
            && (ix.phase.Adding? || ix.phase.Removing?) && ix'.c == ix.c && ix'.phase.v == ix.phase.v
            && ix'.phase.rows == ix.phase.rows)
  {
  }

  lemma QueryReads(s: Sys, rows: seq<Entry>)
    requires P.RowsOk(s.p.db) && s.ix.db == Listing(s.p.db) && M.Answers(rows, s.ix.db)
    ensures forall e :: e in rows ==> NextTry(s.p.db, e.id) == Some(e.at)
    ensures forall id :: NextTry(s.p.db, id).Some? ==> id in Ids(rows) || id in Asleep(s.p.db)
    ensures forall id :: id in Asleep(s.p.db) ==> id !in Ids(rows)
  {
  }

  lemma QueryKeeps(s: Sys, rows: seq<Entry>)
    requires IndexInv(s)
    ensures IndexInv(QueryStep(s, rows))
  {
    var t := QueryStep(s, rows);
    M.ApplyKeeps(s.ix, M.Query(rows));
    forall id ensures MatchesAt(t, id) { SameRowsMatch(s, t, id); }
    if s.ix.phase.Listed? && M.Answers(rows, s.ix.db) { QueryReads(s, rows); }
  }

  /** After a clean mark the set holds the rows that were read. */
  lemma MarkedMatches(s: Sys, id: Id)
    requires IndexInv(s) && M.ReadyToMark(s.ix) && M.Quiet(s.ix.c, s.ix.phase.v)
    ensures MatchesAt(MarkStep(s), id)
  {
    var rows := s.ix.phase.rows;
    AddedFrom(map[], rows, id);
    if id in Ids(rows) {
      var e :| e in rows && e.id == id && AddAll(map[], rows)[id] == Score(e.at);
      assert NextTry(s.p.db, id) == Some(e.at);
    }
  }

  lemma MarkKeeps(s: Sys)
    requires IndexInv(s)
    ensures IndexInv(MarkStep(s))
  {
    var t := MarkStep(s);
    M.ApplyKeeps(s.ix, M.Mark);
    if M.ReadyToMark(s.ix) && M.Quiet(s.ix.c, s.ix.phase.v) {
      forall id ensures MatchesAt(t, id) { MarkedMatches(s, id); }
    } else {
      forall id ensures MatchesAt(t, id) { SameRowsMatch(s, t, id); }
    }
  }

  // ---------------------------------------------------------------- runs

  /** The table of a run is one that the protocol of the deliveries reaches. */
  lemma TableKeeps(s: Sys, op: Op)
    requires P.Inv(s.limits, s.p)
    ensures P.Inv(s.limits, Apply(s, op).p) && Apply(s, op).limits == s.limits
  {
    match op
    case Commit(call, m) => if CanCommit(s, call, m) { CommittedKeeps(s, m); }
    case Other(op) => if IsOther(op) { R.ApplyKeeps(s.limits, s.p, op); }
    case _ =>
  }

  lemma CommittedKeeps(s: Sys, m: Mutation)
    requires P.Inv(s.limits, s.p) && Enabled(s.p, m)
    ensures P.Inv(s.limits, Committed(s.limits, s.p, m))
  {
    match m
    case Single(op, order) => R.ApplyKeeps(s.limits, s.p, op);
    case Claims(ids, now, until) => R.RunKeeps(s.limits, s.p, ClaimOps(ids, now, until));
  }

  lemma CommitStepKeeps(s: Sys, call: nat, m: Mutation)
    requires IndexInv(s) && P.RowsOk(CommitStep(s, call, m).p.db)
    ensures IndexInv(CommitStep(s, call, m))
  {
    if CanCommit(s, call, m) {
      if Done(s.p, m) {
        CommitKeeps(s, call, m);
      } else {
        FailedKeepsRows(s.limits, s.p, m);
        ErrsKeeps(s, call, Committed(s.limits, s.p, m));
      }
    }
  }

  predicate IsCall(op: Op) { op.Begin? || op.Commit? || op.Abort? || op.WriteIndex? || op.End? || op.Other? }

  lemma CallsKeep(s: Sys, op: Op)
    requires IndexInv(s) && P.RowsOk(Apply(s, op).p.db) && IsCall(op)
    ensures IndexInv(Apply(s, op))
  {
    match op
    case Begin(call) => BeginKeeps(s, call);
    case Commit(call, m) => CommitStepKeeps(s, call, m);
    case Abort(call) => if call in s.calls && s.calls[call].Begun? { ErrsKeeps(s, call, s.p); }
    case WriteIndex(call, reply) => WriteKeeps(s, call, reply);
    case End(call) => EndKeeps(s, call);
    case Other(op) => OtherKeeps(s, op);
  }

  lemma ReconcilerKeeps(s: Sys, op: Op)
    requires IndexInv(s) && !IsCall(op)
    ensures IndexInv(Apply(s, op))
  {
    match op
    case ReadError => StopKeeps(s, ReadErrorStep(s));
    case ReadVersion => RebuildKeeps(s, M.ReadVersion);
    case List(ids) => RebuildKeeps(s, M.List(ids));
    case Query(rows) => QueryKeeps(s, rows);
    case AddBatch(size, reply) => RebuildKeeps(s, M.AddBatch(size, reply));
    case AllAdded => RebuildKeeps(s, M.AllAdded);
    case RemoveBatch(size, reply) => RebuildKeeps(s, M.RemoveBatch(size, reply));
    case Mark => MarkKeeps(s);
    case GiveUp => StopKeeps(s, GiveUpStep(s));
    case Restart => StopKeeps(s, RestartStep(s));
  }

  lemma ApplyKeeps(s: Sys, op: Op)
    requires Inv(s)
    ensures Inv(Apply(s, op))
  {
    TableKeeps(s, op);
    if IsCall(op) { CallsKeep(s, op); } else { ReconcilerKeeps(s, op); }
  }

  lemma {:induction false} RunKeeps(s: Sys, ops: seq<Op>)
    requires Inv(s)
    ensures Inv(Run(s, ops))
  {
    if ops != [] {
      RunKeeps(s, ops[..|ops| - 1]);
      ApplyKeeps(Run(s, ops[..|ops| - 1]), ops[|ops| - 1]);
    }
  }

  lemma StartKeeps(s: Sys)
    requires Start(s)
    ensures Inv(s)
  {
    assert Listing(s.p.db) == map[];
  }

  // -------------------------------------------------------- one row's entry

  /** Whoever still owes a write about the row will leave the expected entry; when nobody does, it is there. */
  ghost predicate Agrees(s: Sys, id: Id) {
    && (forall call :: Owes(s, call, id) ==> WillLeave(s, call, id) == At(s.expected, id))
    && (Settled(s, id) ==> At(s.ix.members, id) == At(s.expected, id))
  }

  /** HasDue may be asked, and would answer. */
  predicate Exposed(s: Sys) { !Rewriting(s) && !s.ix.c.degraded }

  ghost predicate Sound(s: Sys, id: Id) { Exposed(s) ==> Agrees(s, id) }

  /** Another mutation still owes a write about the row that leaves another entry. */
  ghost predicate Conflicts(s: Sys, call: nat, ws: seq<Write>, id: Id) {
    && Last(ws, id).Some?
    && exists other :: other != call && Owes(s, other, id) && WillLeave(s, other, id) != Leaves(Last(ws, id).value)
  }

  ghost predicate Commits(s: Sys, op: Op) { op.Commit? && CanCommit(s, op.call, op.m) && Done(s.p, op.m) }

  /** A mutation about the row commits while another owes a different write about it. */
  ghost predicate Disturbs(s: Sys, op: Op, id: Id) {
    Commits(s, op) && Exposed(s) && Conflicts(s, op.call, WritesOf(s.p, op.m), id)
  }

  ghost predicate Undisturbed(s: Sys, ops: seq<Op>, id: Id) {
    forall k :: 0 <= k < |ops| ==> !Disturbs(Run(s, ops[..k]), ops[k], id)
  }

  lemma CommitSound(s: Sys, call: nat, p: P.Sys, ws: seq<Write>, id: Id)
    requires Sound(s, id) && call in s.calls && s.calls[call].Begun?
    requires Exposed(s) ==> !Conflicts(s, call, ws, id)
    ensures Sound(Recorded(s, call, p, ws), id)
  {
    var t := Recorded(s, call, p, ws);
    AppliedLast(s.expected, ws, id);
    assert Owes(t, call, id) <==> Last(ws, id).Some?;
    forall other | other != call ensures Owes(t, other, id) <==> Owes(s, other, id) {}
    if Exposed(s) {
      forall other | Owes(t, other, id) ensures WillLeave(t, other, id) == At(t.expected, id) {
        assert other != call ==> Owes(s, other, id) && WillLeave(t, other, id) == WillLeave(s, other, id);
      }
      assert Settled(t, id) ==> Last(ws, id).None? && Settled(s, id);
    }
  }

  lemma WriteSound(s: Sys, call: nat, reply: Reply, id: Id)
    requires Sound(s, id)
    ensures Sound(WriteStep(s, call, reply), id)
  {
    var t := WriteStep(s, call, reply);
    if t != s && Exposed(t) {
      var ws := s.calls[call].writes;
      forall other | other != call ensures Owes(t, other, id) <==> Owes(s, other, id) {}
      forall other | Owes(t, other, id) ensures WillLeave(t, other, id) == At(t.expected, id) {
        assert Owes(s, other, id) && WillLeave(t, other, id) == WillLeave(s, other, id);
      }
      if Settled(t, id) {
        assert ws[0].id == id ==> !Owes(t, call, id) && Owes(s, call, id) && WillLeave(s, call, id) == Leaves(ws[0]);
        assert ws[0].id != id ==> (Owes(s, call, id) <==> Owes(t, call, id));
        assert ws[0].id != id ==> Settled(s, id);
      }
    }
  }

  /** A call that owes nothing begins or ends. */
  lemma CallSound(s: Sys, t: Sys, call: nat, id: Id)
    requires Sound(s, id) && t.expected == s.expected && t.ix.members == s.ix.members && t.ix.phase == s.ix.phase
    requires s.ix.c.degraded ==> t.ix.c.degraded
    requires !Owes(s, call, id) && !Owes(t, call, id)
    requires forall other :: other != call ==> (other in t.calls <==> other in s.calls)
    requires forall other :: other != call && other in s.calls ==> t.calls[other] == s.calls[other]
    ensures Sound(t, id)
  {
    forall other ensures Owes(t, other, id) <==> Owes(s, other, id) {
      if other == call {}
    }
    if Exposed(t) {
      forall other | Owes(t, other, id) ensures WillLeave(t, other, id) == At(t.expected, id) {
        assert Owes(s, other, id);
      }
    }
  }

  lemma MarkSound(s: Sys, id: Id)
    requires IndexInv(s) && Sound(s, id)
    ensures Sound(MarkStep(s), id)
  {
    var t := MarkStep(s);
    if M.ReadyToMark(s.ix) && M.Quiet(s.ix.c, s.ix.phase.v) {
      M.MarkedIsExact(s.ix);
      assert |s.calls| == 0;
      assert s.calls == map[];
    }
  }

  lemma FrameSound(s: Sys, t: Sys, id: Id)
    requires Sound(s, id) && t.calls == s.calls && t.expected == s.expected
    requires Exposed(t) ==> Exposed(s) && t.ix.members == s.ix.members
    ensures Sound(t, id)
  {
    if Exposed(t) {
      forall call ensures Owes(t, call, id) <==> Owes(s, call, id) {}
      forall call | Owes(t, call, id) ensures WillLeave(t, call, id) == At(t.expected, id) {
        assert Owes(s, call, id);
      }
    }
  }

  /** The reconciliation leaves the set alone until it writes, and its writing ends in a clean mark or
      in a degraded index. */
  lemma RebuildLeaves(ix: M.Sys, op: M.Op)
    requires IsRebuild(op)
    ensures var ix' := M.Apply(ix, op);
      !ix'.c.degraded && !ix'.phase.Adding? && !ix'.phase.Removing? ==>
        ix'.members == ix.members && !ix.phase.Adding? && !ix.phase.Removing? && !ix.c.degraded
  {
  }

  lemma RebuildSound(s: Sys, op: M.Op, id: Id)
    requires Sound(s, id) && IsRebuild(op)
    ensures Sound(Rebuilds(s, op), id)
  {
    RebuildLeaves(s.ix, op);
    FrameSound(s, Rebuilds(s, op), id);
  }

  lemma CommitStepSound(s: Sys, call: nat, m: Mutation, id: Id)
    requires IndexInv(s) && Sound(s, id) && !Disturbs(s, Commit(call, m), id)
    ensures Sound(CommitStep(s, call, m), id)
  {
    if CanCommit(s, call, m) && Done(s.p, m) {
      CommitSound(s, call, Committed(s.limits, s.p, m), WritesOf(s.p, m), id);
    } else if CanCommit(s, call, m) {
      InFlight(s, call);
    }
  }

  lemma CallsSound(s: Sys, op: Op, id: Id)
    requires IndexInv(s) && Sound(s, id) && !Disturbs(s, op, id) && IsCall(op)
    ensures Sound(Apply(s, op), id)
  {
    match op
    case Begin(call) => if call !in s.calls { CallSound(s, BeginStep(s, call), call, id); }
    case Commit(call, m) => CommitStepSound(s, call, m, id);
    case Abort(call) => if call in s.calls { InFlight(s, call); }
    case WriteIndex(call, reply) => WriteSound(s, call, reply, id);
    case End(call) => if EndStep(s, call) != s { CallSound(s, EndStep(s, call), call, id); }
    case Other(op) => FrameSound(s, OtherStep(s, op), id);
  }

  lemma ReconcilerSound(s: Sys, op: Op, id: Id)
    requires IndexInv(s) && Sound(s, id) && !IsCall(op)
    ensures Sound(Apply(s, op), id)
  {
    match op
    case ReadError => FrameSound(s, ReadErrorStep(s), id);
    case ReadVersion => RebuildSound(s, M.ReadVersion, id);
    case List(ids) => RebuildSound(s, M.List(ids), id);
    case Query(rows) => FrameSound(s, QueryStep(s, rows), id);
    case AddBatch(size, reply) => RebuildSound(s, M.AddBatch(size, reply), id);
    case AllAdded => RebuildSound(s, M.AllAdded, id);
    case RemoveBatch(size, reply) => RebuildSound(s, M.RemoveBatch(size, reply), id);
    case Mark => MarkSound(s, id);
    case GiveUp => FrameSound(s, GiveUpStep(s), id);
    case Restart =>
  }

  lemma StepSound(s: Sys, op: Op, id: Id)
    requires IndexInv(s) && Sound(s, id) && !Disturbs(s, op, id)
    ensures Sound(Apply(s, op), id)
  {
    if IsCall(op) { CallsSound(s, op, id); } else { ReconcilerSound(s, op, id); }
  }

  lemma {:induction false} RunSound(s: Sys, ops: seq<Op>, id: Id)
    requires Inv(s) && Sound(s, id) && Undisturbed(s, ops, id)
    ensures Sound(Run(s, ops), id)
  {
    if ops != [] {
      var front := ops[..|ops| - 1];
      forall k | 0 <= k < |front| ensures !Disturbs(Run(s, front[..k]), front[k], id) {
        assert front[..k] == ops[..k];
        assert !Disturbs(Run(s, ops[..k]), ops[k], id);
      }
      RunSound(s, front, id);
      RunKeeps(s, front);
      StepSound(Run(s, front), ops[|ops| - 1], id);
    }
  }

  /** Main result. Over every run in which no two mutations of the row overlapped with different writes:
      whenever HasDue would answer and nothing is owed about the row, the set holds of it exactly what
      the table says. A free pending row has its own score, unless its space was inactive when the last
      reconciliation read; a leased one has no entry, unless that reconciliation found it leased. */
  lemma EntryIsExact(s: Sys, ops: seq<Op>, id: Id)
    requires Start(s) && Undisturbed(s, ops, id) && Exposed(Run(s, ops)) && Settled(Run(s, ops), id)
    ensures var t := Run(s, ops); var at := NextTry(t.p.db, id); var e := At(t.ix.members, id);
      && (at.Some? && !Held(t.p.db, id) ==> e == if id in t.unlisted then None else Some(Score(at.value)))
      && (at.Some? && Held(t.p.db, id) ==> e == if id in t.relisted then Some(Score(at.value)) else None)
      && (at.None? && id !in t.relisted ==> e.None?)
  {
    StartKeeps(s);
    RunKeeps(s, ops);
    RunSound(s, ops, id);
    assert MatchesAt(Run(s, ops), id);
  }

  /** So, apart from what the last reconciliation found so, the entry is exact if and only if the row is
      not leased: a worker that died hides its row until a reconciliation lists it. */
  lemma ExactIffFree(s: Sys, ops: seq<Op>, id: Id)
    requires Start(s) && Undisturbed(s, ops, id) && Exposed(Run(s, ops)) && Settled(Run(s, ops), id)
    requires NextTry(Run(s, ops).p.db, id).Some?
    requires id !in Run(s, ops).unlisted && id !in Run(s, ops).relisted
    ensures var t := Run(s, ops);
      At(t.ix.members, id) == Some(Score(NextTry(t.p.db, id).value)) <==> !Held(t.p.db, id)
  {
    EntryIsExact(s, ops, id);
  }

  // ------------------------------------------------------------- answers

  /** Nothing commits about the row, and no reconciliation runs: HasDue and the reconciliation are called
      by one loop, one after the other. */
  ghost predicate Untouched(s: Sys, ops: seq<Op>, id: Id) {
    forall k :: 0 <= k < |ops| ==>
      IsCall(ops[k]) && (Commits(Run(s, ops[..k]), ops[k]) ==> Last(WritesOf(Run(s, ops[..k]).p, ops[k].m), id).None?)
  }

  lemma StepLeavesEntry(s: Sys, op: Op, id: Id)
    requires Settled(s, id) && IsCall(op) && (Commits(s, op) ==> Last(WritesOf(s.p, op.m), id).None?)
    ensures Settled(Apply(s, op), id) && At(Apply(s, op).ix.members, id) == At(s.ix.members, id)
  {
    var t := Apply(s, op);
    forall call ensures !Owes(t, call, id) {
      assert !Owes(s, call, id);
    }
    if op.WriteIndex? { assert !Owes(s, op.call, id); }
  }

  lemma {:induction false} EntryStays(s: Sys, ops: seq<Op>, id: Id)
    requires Settled(s, id) && Untouched(s, ops, id)
    ensures Settled(Run(s, ops), id) && At(Run(s, ops).ix.members, id) == At(s.ix.members, id)
  {
    if ops != [] {
      var n := |ops| - 1;
      var front := ops[..n];
      assert forall k :: 0 <= k < n ==> front[..k] == ops[..k] && front[k] == ops[k];
      EntryStays(s, front, id);
      StepLeavesEntry(Run(s, front), ops[n], id);
    }
  }

  /** HasDue reads the flag after `ops` and counts after `more`. If it counts nothing, then no row is due
      that was free and settled when the flag was read and was not touched since; rows whose mutations
      overlapped, and rows of spaces that the last reconciliation found inactive, are excepted. */
  lemma NothingDueIsRight(s: Sys, ops: seq<Op>, more: seq<Op>, id: Id, now: Time)
    requires Start(s) && Undisturbed(s, ops, id) && Exposed(Run(s, ops)) && Settled(Run(s, ops), id)
    requires Untouched(Run(s, ops), more, id) && id !in Run(s, ops).unlisted
    requires NextTry(Run(s, ops).p.db, id).Some? && NextTry(Run(s, ops).p.db, id).value <= now
    requires !Held(Run(s, ops).p.db, id)
    ensures AnyDue(Run(Run(s, ops), more).ix.members, now)
  {
    EntryIsExact(s, ops, id);
    EntryStays(Run(s, ops), more, id);
    DueIsCounted(Run(Run(s, ops), more).ix.members, id, NextTry(Run(s, ops).p.db, id).value, now);
  }
}
