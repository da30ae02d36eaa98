/** When the entry of a delivery may end up wrong without a flag: exactly after a mutation that commits
    about it while another still owes a different write about it. */
module MessageLapses {
  import opened Options
  import opened SortedSets
  import opened MessageMutations
  import opened MessageCoverage
  import S = ScheduledMessages
  import P = DeliveryProtocol
  import M = MessageIndex

  /** HasDue would answer, nothing is on its way, and the entry is not the expected one. */
  ghost predicate Lapsed(s: Sys, id: Id) {
    && s.ix.phase.Idle? && !s.ix.c.degraded && Settled(s, id)
    && At(s.ix.members, id) != At(s.expected, id)
  }

  /** Without any further overlap the step ends in a lapse. */
  ghost predicate CanLapse(s: Sys, op: Op, id: Id) {
    exists ops :: Undisturbed(Apply(s, op), ops, id) && Lapsed(Run(Apply(s, op), ops), id)
  }

  // ----------------------------------------------------------- quiet runs

  /** No mutation commits. */
  predicate AllQuiet(ops: seq<Op>) { forall op :: op in ops ==> !op.Commit? }

  /** Calls perform what they owe, and every command is answered. */
  predicate AllWrites(ops: seq<Op>) { forall op :: op in ops ==> op.WriteIndex? && op.reply.Applied? }

  lemma QuietIsUndisturbed(s: Sys, ops: seq<Op>, id: Id)
    requires AllQuiet(ops)
    ensures Undisturbed(s, ops, id)
  {
    forall k | 0 <= k < |ops| ensures !Disturbs(Run(s, ops[..k]), ops[k], id) { assert ops[k] in ops; }
  }

  lemma {:induction false} RunConcat(s: Sys, a: seq<Op>, b: seq<Op>)
    ensures Run(s, a + b) == Run(Run(s, a), b)
  {
    if b == [] {
      assert a + b == a;
    } else {
      assert (a + b)[..|a + b| - 1] == a + b[..|b| - 1];
      RunConcat(s, a, b[..|b| - 1]);
    }
  }

  lemma RunOne(s: Sys, op: Op)
    ensures Run(s, [op]) == Apply(s, op)
  {
    assert [op][..0] == [];
    assert Run(s, []) == s;
  }

  /** Between two states only index writes of calls were performed, each answered. */
  predicate SameButWrites(s: Sys, t: Sys) {
    && t.p == s.p && t.expected == s.expected && t.unlisted == s.unlisted && t.relisted == s.relisted
    && t.ix.phase == s.ix.phase && t.ix.c.degraded == s.ix.c.degraded
  }

  lemma OneWrite(s: Sys, call: nat)
    requires call in s.calls && s.calls[call].Writing? && s.calls[call].writes != []
    ensures var t := Run(s, [WriteIndex(call, Applied)]); var ws := s.calls[call].writes;
      && SameButWrites(s, t) && t.calls == s.calls[call := Writing(ws[1..])]
      && t.ix.members == Applies(s.ix.members, ws[0])
  {
    RunOne(s, WriteIndex(call, Applied));
  }

  /** A call performs all that it owes. */
  lemma {:induction false} DrainCall(s: Sys, call: nat) returns (ops: seq<Op>)
    requires call in s.calls && s.calls[call].Writing?
    ensures AllWrites(ops)
    ensures var t := Run(s, ops);
      && SameButWrites(s, t) && t.calls == s.calls[call := Writing([])]
      && t.ix.members == AppliesAll(s.ix.members, s.calls[call].writes)
    decreases |s.calls[call].writes|
  {
    if s.calls[call].writes == [] {
      ops := [];
      assert s.calls[call := Writing([])] == s.calls;
    } else {
      var first := [WriteIndex(call, Applied)];
      OneWrite(s, call);
      var t := Run(s, first);
      var rest := DrainCall(t, call);
      RunConcat(s, first, rest);
      ops := first + rest;
    }
  }

  function Busy(s: Sys, kept: nat): set<nat> {
    set call | call in s.calls && call != kept && s.calls[call].Writing? && s.calls[call].writes != []
  }

  /** Every call but one performs all that it owes. */
  lemma {:induction false} DrainOthers(s: Sys, kept: nat) returns (ops: seq<Op>)
    requires kept in s.calls
    ensures AllWrites(ops)
    ensures var t := Run(s, ops);
      SameButWrites(s, t) && Busy(t, kept) == {} && kept in t.calls && t.calls[kept] == s.calls[kept]
    decreases |Busy(s, kept)|
  {
    if Busy(s, kept) == {} {
      ops := [];
    } else {
      var call :| call in Busy(s, kept);
      var one := DrainCall(s, call);
      var t := Run(s, one);
      assert Busy(t, kept) == Busy(s, kept) - {call};
      var rest := DrainOthers(t, kept);
      RunConcat(s, one, rest);
      ops := one + rest;
    }
  }

  lemma {:induction false} Enumerated(ids: set<Id>) returns (list: seq<Id>)
    ensures Elements(list) == ids && Distinct(list)
  {
    if ids == {} {
      list := [];
    } else {
      var id :| id in ids;
      var rest := Enumerated(ids - {id});
      list := [id] + rest;
      assert Elements(list) == {id} + Elements(rest);
      assert id !in Elements(rest);
    }
  }

  /** A reconciliation that has not read the rows yet fails to read them. */
  lemma ToIdle(s: Sys) returns (ops: seq<Op>)
    requires !Rewriting(s)
    ensures AllQuiet(ops) && (s.ix.phase.Idle? ==> AllWrites(ops))
    ensures Run(s, ops) == s.(ix := s.ix.(phase := M.Idle))
  {
    match s.ix.phase
    case Idle => ops := [];
    case Listed(_, _, _) => ops := [GiveUp]; RunOne(s, GiveUp);
    case Versioned(_) =>
      var ids := Enumerated(s.ix.members.Keys);
      RunOne(s, List(ids));
      RunOne(Run(s, [List(ids)]), GiveUp);
      RunConcat(s, [List(ids)], [GiveUp]);
      ops := [List(ids)] + [GiveUp];
  }

  // ------------------------------------------------------------ converses

  /** The write that is owed longest is performed last. */
  lemma LateWriteLapses(s: Sys, other: nat, id: Id) returns (ops: seq<Op>)
    requires Exposed(s) && Owes(s, other, id) && WillLeave(s, other, id) != At(s.expected, id)
    ensures AllQuiet(ops) && (s.ix.phase.Idle? ==> AllWrites(ops))
    ensures var t := Run(s, ops);
      && Lapsed(t, id) && t.p == s.p && t.expected == s.expected && t.unlisted == s.unlisted && t.relisted == s.relisted
      && At(t.ix.members, id) == WillLeave(s, other, id)
  {
    var drain := DrainOthers(s, other);
    var t := Run(s, drain);
    var last := DrainCall(t, other);
    var u := Run(t, last);
    AppliedLast(t.ix.members, t.calls[other].writes, id);
    NobodyOwes(u, other, id);
    var stop := ToIdle(u);
    RunConcat(s, drain, last);
    RunConcat(s, drain + last, stop);
    ops := drain + last + stop;
    NobodyOwes(Run(s, ops), other, id);
  }

  lemma NobodyOwes(s: Sys, kept: nat, id: Id)
    requires Busy(s, kept) == {} && kept in s.calls && s.calls[kept] == Writing([])
    ensures Settled(s, id)
  {
    forall call ensures !Owes(s, call, id) {
      assert call !in Busy(s, kept);
    }
  }

  /** Main result, from every reachable state and for every mutation about a row whose entry is sound: it
      can lead to a lapse that nothing else causes exactly if HasDue may be asked and another mutation
      in flight still owes a write about the row that leaves another entry. */
  lemma ConflictLapsesIff(s: Sys, call: nat, m: Mutation, id: Id)
    requires Inv(s) && Sound(s, id) && CanCommit(s, call, m) && Done(s.p, m)
    requires Last(WritesOf(s.p, m), id).Some?
    ensures CanLapse(s, Commit(call, m), id) <==> Exposed(s) && Conflicts(s, call, WritesOf(s.p, m), id)
  {
    var op, ws := Commit(call, m), WritesOf(s.p, m);
    if Exposed(s) && Conflicts(s, call, ws, id) {
      var other :| other != call && Owes(s, other, id) && WillLeave(s, other, id) != Leaves(Last(ws, id).value);
      ConflictLapses(s, call, m, other, id);
    } else {
      NoConflictNoLapse(s, op, id);
    }
  }

  lemma ConflictLapses(s: Sys, call: nat, m: Mutation, other: nat, id: Id)
    requires Exposed(s) && CanCommit(s, call, m) && Done(s.p, m) && other != call && Owes(s, other, id)
    requires Last(WritesOf(s.p, m), id).Some? && WillLeave(s, other, id) != Leaves(Last(WritesOf(s.p, m), id).value)
    ensures CanLapse(s, Commit(call, m), id)
  {
    var t := CommitStep(s, call, m);
    AppliedLast(s.expected, WritesOf(s.p, m), id);
    assert Owes(t, other, id) && WillLeave(t, other, id) == WillLeave(s, other, id);
    var ops := LateWriteLapses(t, other, id);
    QuietIsUndisturbed(t, ops, id);
    assert Apply(s, Commit(call, m)) == t;
  }

  lemma NoConflictNoLapse(s: Sys, op: Op, id: Id)
    requires Inv(s) && Sound(s, id) && !Disturbs(s, op, id)
    ensures !CanLapse(s, op, id)
  {
    forall ops | Undisturbed(Apply(s, op), ops, id) ensures !Lapsed(Run(Apply(s, op), ops), id) {
      ApplyKeeps(s, op);
      StepSound(s, op, id);
      RunSound(Apply(s, op), ops, id);
    }
  }

  // -------------------------------------------------------- hidden rows

  /** HasDue would answer, nothing is on its way, and a row that anybody may claim has no entry. */
  ghost predicate Hidden(s: Sys, id: Id) {
    && s.ix.phase.Idle? && !s.ix.c.degraded && Settled(s, id)
    && NextTry(s.p.db, id).Some? && !Held(s.p.db, id) && id !in s.ix.members
  }

  /** The mutation can end in a hidden row; outside of a reconciliation, by index writes alone. */
  ghost predicate CanHide(s: Sys, op: Op, id: Id) {
    exists ops :: AllQuiet(ops) && (s.ix.phase.Idle? ==> AllWrites(ops)) && Hidden(Run(Apply(s, op), ops), id)
  }

  /** An owed removal hides every row that another mutation makes free. */
  lemma OwedRemovalHides(s: Sys, call: nat, m: Mutation, other: nat, id: Id)
    requires P.RowsOk(s.p.db) && Exposed(s) && CanCommit(s, call, m) && Done(s.p, m)
    requires other != call && Owes(s, other, id) && WillLeave(s, other, id).None?
    requires Last(WritesOf(s.p, m), id).Some? && Last(WritesOf(s.p, m), id).value.Upsert?
    ensures CanHide(s, Commit(call, m), id)
  {
    var t := CommitStep(s, call, m);
    assert Apply(s, Commit(call, m)) == t;
    AppliedLast(s.expected, WritesOf(s.p, m), id);
    MutationFollows(s.limits, s.p, m, id);
    assert Owes(t, other, id) && WillLeave(t, other, id) == WillLeave(s, other, id);
    var ops := LateWriteLapses(t, other, id);
    assert Hidden(Run(t, ops), id);
  }

  /** A worker has claimed the row and still owes its removal; a person edits the schedule, which reopens
      the row; and the removal comes last. */
  lemma ClaimThenEditHides(s: Sys, claim: nat, edit: nat, op: P.Op, order: seq<Id>, id: Id)
    requires P.RowsOk(s.p.db) && Exposed(s) && op.Edit? && CanCommit(s, edit, Single(op, order)) && Succeeds(s.p, op)
    requires op.next.Some? && Target(s.p.db, op.sid, op.next.value.scheduledAt) == id
    requires claim in s.calls && s.calls[claim].Writing? && Last(s.calls[claim].writes, id) == Some(Remove(id))
    ensures CanHide(s, Commit(edit, Single(op, order)), id)
  {
    var w := Upsert(id, op.next.value.scheduledAt);
    LastOfTwo(Removals(order), [w], id);
    LastOfOne(w, id);
    OwedRemovalHides(s, edit, Single(op, order), claim, id);
  }

  lemma HidesAfter(s: Sys, front: seq<Op>, op: Op, id: Id) returns (tail: seq<Op>)
    requires CanHide(Run(s, front), op, id) && Run(s, front).ix.phase.Idle?
    ensures AllWrites(tail) && Hidden(Run(s, front + [op] + tail), id)
  {
    tail :| AllWrites(tail) && Hidden(Run(Apply(Run(s, front), op), tail), id);
    RunOne(Run(s, front), op);
    RunConcat(s, front, [op]);
    RunConcat(s, front + [op], tail);
  }
}
