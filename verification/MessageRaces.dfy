/** A concrete run without any failure that hides a delivery: a person edits a schedule while the
    scheduler still owes the removal of the row that it has claimed. */
module MessageRaces {
  import opened Options
  import opened SortedSets
  import opened MessageMutations
  import opened MessageCoverage
  import opened MessageLapses
  import S = ScheduledMessages
  import P = DeliveryProtocol
  import M = MessageIndex

  const DAY: int := 86_400_000_000_000

  const SECOND: int := 1_000_000_000

  /** Two minutes, the lease that the scheduler takes when none is configured. */
  const LEASE: int := 120_000_000_000

  const LIMITS := P.Limits(1, 1)

  const DRAFT: S.Draft :=
    S.Draft(S.Schedule(0, S.Fixed, "hi", S.Daily, "UTC", DAY, None, S.Active, None, None, 0), None, DAY, None, None,
            None)

  function Creation(): P.Op { P.Create(DRAFT, 0) }

  /** The text changes; the next occurrence stays where it is. */
  function Edit(): P.Op {
    P.Edit(0, 0, S.UpdateFields(None, Some("ho"), None, None, None), Some(S.NewDelivery(DAY, Some("ho"))), DAY + SECOND)
  }

  function Empty(): P.Sys { P.Start(map[0 := true]) }

  ghost function Created(): P.Sys { P.Apply(LIMITS, Empty(), Creation()) }

  ghost function Claimed(): P.Sys { P.Run(LIMITS, Created(), ClaimOps([1], DAY, DAY + LEASE)) }

  /** An index that is not degraded, between two reconciliations. */
  ghost function State(
    p: P.Sys, version: nat, inFlight: nat, members: Members, calls: map<nat, Call>, expected: Members): Sys
  {
    Sys(LIMITS, p, M.Sys(M.Counters(version, inFlight, false), members, Listing(p.db), M.Idle),
        calls, expected, {}, {}, {})
  }

  ghost function Init(): Sys {
    State(Empty(), 1, 0, map[], map[], map[]).(ix := M.Sys(M.Fresh(), map[], map[], M.Idle))
  }

  lemma InitStarts()
    ensures Start(Init())
  {
  }

  lemma RunSnoc(s: Sys, ops: seq<Op>, op: Op)
    ensures Run(s, ops + [op]) == Apply(Run(s, ops), op)
  {
  }

  lemma RunThree(s: Sys, front: seq<Op>, a: Op, b: Op, c: Op)
    ensures Run(s, front + [a, b, c]) == Apply(Apply(Apply(Run(s, front), a), b), c)
  {
    assert front + [a, b, c] == front + [a] + [b] + [c];
    RunSnoc(s, front, a);
    RunSnoc(s, front + [a], b);
    RunSnoc(s, front + [a] + [b], c);
  }

  // ------------------------------------------------ the first reconciliation

  function Reading(): seq<Op> { [ReadVersion, List([]), Query([])] }

  function Writing0(): seq<Op> { [AllAdded, Mark, Begin(0)] }

  ghost function AfterReading(): Sys { Init().(ix := Init().ix.(phase := M.Adding(1, map[], [], [], 0))) }

  lemma ReadingRuns()
    ensures Run(Init(), Reading()) == AfterReading()
  {
    assert Elements([]) == {} == Init().ix.members.Keys;
    assert Ids([]) == {};
    RunThree(Init(), [], ReadVersion, List([]), Query([]));
    assert [] + Reading() == Reading();
  }

  lemma CleanRuns()
    ensures Run(Init(), Reading() + Writing0()) == State(Empty(), 2, 1, map[], map[0 := Begun], map[])
  {
    ReadingRuns();
    RunThree(Init(), Reading(), AllAdded, Mark, Begin(0));
    NothingToMark();
    assert Listing(Empty().db) == map[];
  }

  lemma NothingToMark()
    ensures var s := Apply(AfterReading(), AllAdded);
      && s.ix.phase == M.Removing(1, map[], [], [], 0)
      && Apply(s, Mark) == State(Empty(), 1, 0, map[], map[], map[])
  {
    assert Stale([], []) == [] && Exact([]) == map[];
    assert Relisted(Empty().db, {}) == {};
    assert Ids([]) == {};
    assert Listing(Empty().db) == map[];
  }

  // ------------------------------------------------- creation and claim

  function Creates(): seq<Op> { [Commit(0, Single(Creation(), [])), WriteIndex(0, Applied), End(0)] }

  function Entries(): Members { map[1 := Score(DAY)] }

  lemma CreatedRows()
    ensures Enabled(Empty(), Single(Creation(), [])) && Succeeds(Empty(), Creation())
    ensures WritesOf(Empty(), Single(Creation(), [])) == [Upsert(1, DAY)]
    ensures Created().db.deliveries.Keys == {1} && S.Due(Created().db, 1, DAY)
    ensures Created().db.deliveries[1].scheduleId == 0 && Created().db.deliveries[1].scheduledAt == DAY
    ensures S.Open(Created().db, 0) && Created().db.schedules[0].spaceId == 0
  {
  }

  lemma CreationRuns()
    ensures Run(Init(), Reading() + Writing0() + Creates()) == State(Created(), 5, 0, Entries(), map[], Entries())
  {
    CleanRuns();
    CreatedRows();
    var s := State(Empty(), 2, 1, map[], map[0 := Begun], map[]);
    var ws := [Upsert(1, DAY)];
    CreationCommits(s, ws);
    var t := State(Created(), 2, 1, map[], map[0 := Writing(ws)], Entries());
    assert ws[1..] == [];
    assert Apply(t, WriteIndex(0, Applied)) == State(Created(), 4, 1, Entries(), map[0 := Writing([])], Entries());
    RunThree(Init(), Reading() + Writing0(), Creates()[0], Creates()[1], Creates()[2]);
  }

  lemma CreationCommits(s: Sys, ws: seq<Write>)
    requires s == State(Empty(), 2, 1, map[], map[0 := Begun], map[]) && ws == [Upsert(1, DAY)]
    ensures Apply(s, Creates()[0]) == State(Created(), 2, 1, map[], map[0 := Writing(ws)], Entries())
  {
    CreatedRows();
    assert ws[1..] == [];
    assert AppliesAll(map[], ws) == Entries();
  }

  function ClaimsOne(): seq<Op> { [Begin(1), Commit(1, Claims([1], DAY, DAY + LEASE)), Begin(2)] }

  ghost function Owing(): Sys {
    State(Claimed(), 7, 2, Entries(), map[1 := Writing([Remove(1)]), 2 := Begun], map[])
  }

  lemma ClaimCommits(s: Sys)
    requires s == State(Created(), 6, 1, Entries(), map[1 := Begun], Entries())
    ensures Apply(s, ClaimsOne()[1]) == State(Claimed(), 6, 1, Entries(), map[1 := Writing([Remove(1)])], map[])
  {
    CreatedRows();
    assert Removals([1]) == [Remove(1)];
    assert [Remove(1)][1..] == [];
    assert AppliesAll(Entries(), [Remove(1)]) == map[];
  }

  lemma ClaimRuns()
    ensures Run(Init(), Reading() + Writing0() + Creates() + ClaimsOne()) == Owing()
  {
    CreationRuns();
    ClaimCommits(State(Created(), 6, 1, Entries(), map[1 := Begun], Entries()));
    RunThree(Init(), Reading() + Writing0() + Creates(), ClaimsOne()[0], ClaimsOne()[1], ClaimsOne()[2]);
  }

  // -------------------------------------------------------------- the edit

  lemma EditMayCommit()
    ensures CanCommit(Owing(), 2, Single(Edit(), [1])) && Succeeds(Claimed(), Edit())
    ensures Target(Claimed().db, 0, DAY) == 1
  {
    CreatedRows();
    ClaimedRows(LIMITS, Created(), [1], DAY, DAY + LEASE);
    assert S.Occupies(Claimed().db, 0, DAY, 1) by { ClaimKeepsInstant(); }
    assert S.IsPending(Claimed().db, 1);
  }

  lemma ClaimKeepsInstant()
    ensures Claimed().db.deliveries.Keys == {1}
    ensures Claimed().db.deliveries[1].scheduleId == 0 && Claimed().db.deliveries[1].scheduledAt == DAY
  {
    CreatedRows();
    var ops := ClaimOps([1], DAY, DAY + LEASE);
    assert ops[..0] == [];
    assert P.Run(LIMITS, Created(), ops[..0]) == Created();
    assert Claimed() == P.Apply(LIMITS, Created(), P.Claim(1, DAY, DAY + LEASE));
  }

  /** No transaction fails, every command is answered, and nothing restarts. */
  predicate AllServed(ops: seq<Op>) {
    forall op :: op in ops ==>
      !op.Abort? && !op.ReadError? && !op.GiveUp? && !op.Restart? && (op.WriteIndex? ==> op.reply.Applied?)
  }

  function Before(): seq<Op> { Reading() + Writing0() + Creates() + ClaimsOne() }

  function EditCommit(): Op { Commit(2, Single(Edit(), [1])) }

  lemma OwingIsReached()
    ensures P.RowsOk(Claimed().db)
  {
    InitStarts();
    StartKeeps(Init());
    RunKeeps(Init(), Before());
    ClaimRuns();
  }

  lemma EditHides()
    ensures CanHide(Owing(), EditCommit(), 1)
  {
    OwingIsReached();
    EditMayCommit();
    LastOfOne(Remove(1), 1);
    ClaimThenEditHides(Owing(), 1, 2, Edit(), [1], 1);
  }

  lemma BeforeIsServed(tail: seq<Op>)
    requires AllWrites(tail)
    ensures AllServed(Before() + [EditCommit()] + tail)
  {
  }

  /** A pending row that nobody leases is missing from the set, and the index is not degraded. */
  lemma ClaimThenEditHidesARow()
    ensures exists s, ops :: Start(s) && AllServed(ops) && Hidden(Run(s, ops), 1)
  {
    InitStarts();
    ClaimRuns();
    EditHides();
    var tail := HidesAfter(Init(), Before(), EditCommit(), 1);
    BeforeIsServed(tail);
  }
}
