/** Two concrete runs that end in a due reminder that is not counted: one reschedules it while a
    reconciliation holds its old row, the other takes a claim over that is still held. */
module ReminderRaces {
  import opened Options
  import opened SortedSets
  import opened ReminderIndex
  import R = Reminders
  import ReminderRuns

  /** One pending reminder, 0, that is due `at` and carries the claim `claimed`. */
  function Row(at: Time, claimed: Option<Time>, updated: Time): R.Reminder {
    R.Reminder(0, 7, None, "", at, R.Pending, claimed, None, None, None, updated)
  }

  function Table(r: R.Reminder, clock: Time): R.Sys { R.Sys(R.Db(map[0 := r], 1), clock, []) }

  /** No call is under way, and the other process has removed nothing. */
  function State(
    table: R.Sys, blurred: set<Id>, taken: set<Id>, members: Members, held: map<Id, Time>, theirs: map<Id, Time>,
    phase: Phase): Sys
  {
    Sys(table, blurred, taken, members, 0, 0, false, map[], held, theirs, {}, phase)
  }

  function TenMs(): Time { 10_000_000 }

  function OneMs(): Time { 1_000_000 }

  lemma RunSnoc(s: Sys, ops: seq<Op>, op: Op)
    ensures Run(s, ops + [op]) == Apply(Run(s, ops), op)
  {
  }

  /** The start: reminder 0 is due at ten milliseconds and indexed so. */
  function Begin(): Sys { State(Table(Row(TenMs(), None, 0), 0), {}, {}, map[0 := 10], map[], map[], Starting) }

  lemma BeginStarts()
    ensures Start(Begin())
  {
  }

  // ------------------------------------------------- rescheduled in between

  function Rows(): seq<Entry> { [Entry(0, TenMs())] }

  function Reschedule(): R.Op { R.Update(7, 0, R.UpdateFields(None, Some(OneMs())), 3) }

  /** The reconciliation has read reminder 0 at its old time. */
  function Snapshot(): seq<Op> { [List([0], Applied), Load, Store, Query(Some(Rows()))] }

  function AfterSnapshot(): Sys { Begin().(phase := Adding([0], Rows(), 0)) }

  lemma ReadIsListed()
    ensures Apply(Apply(Begin(), Snapshot()[0]), Snapshot()[1]) == Begin().(phase := Loaded([0], 0))
  {
    assert Elements([0]) == {0} == Begin().members.Keys;
  }

  lemma ReadIsStored()
    ensures Apply(Begin().(phase := Loaded([0], 0)), Snapshot()[2]) == Begin().(phase := Stored([0]))
  {
  }

  lemma ReadIsKept()
    ensures Apply(Begin().(phase := Stored([0])), Snapshot()[3]) == AfterSnapshot()
  {
    assert Ids(Rows()) == {0} by { assert Entry(0, TenMs()) in Rows(); }
    assert Answers(Rows(), Begin().table.db);
  }

  lemma SnapshotRuns()
    ensures Run(Begin(), Snapshot()) == AfterSnapshot()
  {
    ReadIsListed();
    ReadIsStored();
    ReadIsKept();
    RunFour(Begin(), [], Snapshot());
    assert [] + Snapshot() == Snapshot();
  }

  /** The reminder moves to one millisecond, in the table and in the index. */
  function Moved(): seq<Op> { [Serve(0, Reschedule()), WriteIndex(0, Applied)] }

  function AfterMoved(): Sys {
    State(Table(Row(OneMs(), None, 3), 0), {0}, {}, map[0 := 1], map[], map[], Adding([0], Rows(), 0))
  }

  function Served(): Sys { AfterMoved().(members := map[0 := 10], calls := map[0 := [Upsert(0, OneMs())]]) }

  lemma MoveIsServed()
    ensures Apply(AfterSnapshot(), Moved()[0]) == Served()
  {
    assert Entry(0, TenMs()) in Unwritten(AfterSnapshot());
  }

  lemma MoveIsWritten()
    ensures Apply(Served(), Moved()[1]) == AfterMoved()
  {
    assert [Upsert(0, OneMs())][1..] == [];
    assert Entry(0, TenMs()) in Unwritten(AfterMoved());
  }

  lemma MovedRuns()
    ensures Run(Begin(), Snapshot() + Moved()) == AfterMoved()
  {
    SnapshotRuns();
    MoveIsServed();
    MoveIsWritten();
    assert Snapshot() + Moved() == (Snapshot() + [Moved()[0]]) + [Moved()[1]];
    RunSnoc(Begin(), Snapshot(), Moved()[0]);
    RunSnoc(Begin(), Snapshot() + [Moved()[0]], Moved()[1]);
  }

  /** The reconciliation writes the old time over the new one and ends well. */
  function Finish(): seq<Op> { [AddBatch(1, Applied), AllAdded, Done, Check] }

  function Idle0(phase: Phase): Sys { AfterMoved().(members := map[0 := 10], phase := phase) }

  lemma OldTimeIsWritten()
    ensures Apply(AfterMoved(), Finish()[0]) == Idle0(Adding([0], Rows(), 1))
  {
    assert Rows()[0..1] == Rows() && Rows()[..0] == [];
    assert AddAll(map[0 := 1], Rows()) == map[0 := 10];
  }

  lemma NothingIsStale()
    ensures Stale([0], Rows()) == []
  {
  }

  lemma EndsWell()
    ensures Apply(Apply(Idle0(Adding([0], Rows(), 1)), Finish()[1]), Finish()[2]) == Idle0(Idle)
  {
  }

  lemma AsksWithAll()
    ensures Apply(Idle0(Idle), Finish()[3]) == Idle0(Asking({0}))
  {
    assert Settled(Idle0(Idle), 0);
    assert SettledIds(Idle0(Idle)) == {0};
  }

  lemma RunFour(s: Sys, front: seq<Op>, f: seq<Op>)
    requires |f| == 4
    ensures Run(s, front + f) == Apply(Apply(Apply(Apply(Run(s, front), f[0]), f[1]), f[2]), f[3])
  {
    assert front + f == front + [f[0]] + [f[1]] + [f[2]] + [f[3]];
    RunSnoc(s, front, f[0]);
    RunSnoc(s, front + [f[0]], f[1]);
    RunSnoc(s, front + [f[0]] + [f[1]], f[2]);
    RunSnoc(s, front + [f[0]] + [f[1]] + [f[2]], f[3]);
  }

  lemma FinishRuns()
    ensures Run(Begin(), Snapshot() + Moved() + Finish()) == Idle0(Asking({0}))
  {
    MovedRuns();
    OldTimeIsWritten();
    EndsWell();
    AsksWithAll();
    RunFour(Begin(), Snapshot() + Moved(), Finish());
  }

  /** A reminder that is rescheduled while a reconciliation holds its old row can be due without
      being counted; no claim is made in this run. */
  lemma RescheduleCanBeMissed()
    ensures exists s, ops, now, id :: Missed(s, ops, now, id)
  {
    BeginStarts();
    FinishRuns();
    assert Missed(Begin(), Snapshot() + Moved() + Finish(), 5_000_000, 0);
  }

  ghost predicate Missed(s: Sys, ops: seq<Op>, now: Time, id: Id) {
    var t := Run(s, ops);
    && Start(s) && t.taken == {} && t.phase.Asking? && !t.degraded
    && id in t.phase.known && Pending(t, id) && ScheduledAt(t, id) <= now && !AnyDue(t.members, now)
  }

  // ------------------------------------------------------ two schedulers

  /** A reconciled index and an idle scheduler, which claims reminder 0. */
  function Rebuild(): seq<Op> { [AddBatch(1, Applied), AllAdded, Done, Claim({0}, 20_000_000, 5_000_000)] }

  function AfterClaim(): Sys {
    var table := Table(Row(TenMs(), Some(20_000_000), 20_000_000), 20_000_000);
    State(table, {}, {}, map[0 := 10], map[0 := 20_000_000], map[], Idle)
  }

  lemma NothingChanges()
    ensures Apply(AfterSnapshot(), Rebuild()[0]) == Begin().(phase := Adding([0], Rows(), 1))
  {
    assert Rows()[0..1] == Rows() && Rows()[..0] == [];
    assert AddAll(map[0 := 10], Rows()) == map[0 := 10];
  }

  lemma RebuildEnds()
    ensures Apply(Apply(Begin().(phase := Adding([0], Rows(), 1)), Rebuild()[1]), Rebuild()[2]) ==
      Begin().(phase := Idle)
  {
    NothingIsStale();
  }

  lemma RebuildRuns()
    ensures Run(Begin(), Snapshot() + Rebuild()) == AfterClaim()
  {
    SnapshotRuns();
    NothingChanges();
    RebuildEnds();
    IdleClaims(Begin().(phase := Idle));
    RunFour(Begin(), Snapshot(), Rebuild());
  }

  lemma IdleClaims(idle: Sys)
    requires idle == Begin().(phase := Idle)
    ensures Apply(idle, Rebuild()[3]) == AfterClaim()
  {
  }

  /** The lease runs out while the message is being sent, the other process takes the claim over,
      and the first one, told of the conflict, removes the index entry. */
  function Overtaken(): seq<Op> {
    [TheirClaim({0}, 30_000_000, 5_000_000), Deliver(0, 0, 31_000_000), WriteIndex(0, Applied), Check]
  }

  function TakenOver(): R.Sys { Table(Row(TenMs(), Some(30_000_000), 30_000_000), 30_000_000) }

  function AfterTakeover(): Sys {
    State(TakenOver(), {}, {0}, map[0 := 10], map[0 := 20_000_000], map[0 := 30_000_000], Idle)
  }

  function AfterOvertaken(phase: Phase): Sys {
    State(TakenOver(), {}, {0}, map[], map[], map[0 := 30_000_000], phase)
  }

  lemma TakeoverHappens()
    ensures Apply(AfterClaim(), Overtaken()[0]) == AfterTakeover()
  {
  }

  lemma EntryIsRemoved()
    ensures Apply(Apply(AfterTakeover(), Overtaken()[1]), Overtaken()[2]) == AfterOvertaken(Idle)
  {
  }

  lemma OvertakenAsks()
    ensures Apply(AfterOvertaken(Idle), Overtaken()[3]) == AfterOvertaken(Asking({0}))
  {
    assert Settled(AfterOvertaken(Idle), 0);
    assert SettledIds(AfterOvertaken(Idle)) == {0};
  }

  /** A reminder that is still pending, never rescheduled and due is not in the index after its claim
      was taken over, and nothing flags it. */
  lemma SecondSchedulerLosesAnEntry()
    ensures var t := Run(Begin(), Snapshot() + Rebuild() + Overtaken());
      && Start(Begin()) && t.phase.Asking? && !t.degraded && 0 in t.phase.known && Pending(t, 0) && t.blurred == {}
      && ScheduledAt(t, 0) <= 40_000_000 && !AnyDue(t.members, 40_000_000)
  {
    BeginStarts();
    RebuildRuns();
    TakeoverHappens();
    EntryIsRemoved();
    OvertakenAsks();
    RunFour(Begin(), Snapshot() + Rebuild(), Overtaken());
  }
}
