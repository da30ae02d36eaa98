/** The reminder due index beside the table that it speeds up. Service calls commit first and write
    the index afterwards, one command at a time; the writes may fail; and the scheduler's
    reconciliation runs step by step in between. One process serves, schedules and reconciles; a
    second one may run a scheduler that claims, delivers and removes entries on the same table. */
module ReminderIndex {
  import opened Options
  import opened SortedSets
  import R = Reminders
  import ReminderRuns

  /** What a call still has to do: index commands, and the dirty mark that follows a failed one. */
  datatype Write = Upsert(id: Id, at: Time) | Remove(id: Id) | Dirty(id: Id)

  /** Where the scheduler's goroutine is. Starting: Run has not reconciled yet. Asking: HasDue has
      compared the versions and not yet counted; `known` are the reminders settled at that time. */
  datatype Phase =
    | Starting
    | Idle
    | Asking(known: set<Id>)
    | Listed(ids: seq<Id>)
    | Loaded(ids: seq<Id>, version: nat)
    | Stored(ids: seq<Id>)
    | Adding(ids: seq<Id>, rows: seq<Entry>, done: nat)
    | Removing(stale: seq<Id>, done: nat)

  /** calls: the index writes of the calls that have not returned; held: the claims of the running
      pass; theirs and theirRemoves: the claims and the owed removals of the other process.
      Two fields only remember: blurred, the reminders whose entry may carry an old time because a
      reschedule overlapped an older value on its way to the index; taken, the reminders whose claim
      one process took over while the other still held it. */
  datatype Sys = Sys(
    table: R.Sys, blurred: set<Id>, taken: set<Id>, members: Members, dirty: nat, reconciled: nat, degraded: bool,
    calls: map<nat, seq<Write>>, held: map<Id, Time>, theirs: map<Id, Time>, theirRemoves: set<Id>, phase: Phase)

  datatype Op =
    | Serve(call: nat, op: R.Op)
    | WriteIndex(call: nat, reply: Reply)
    | Claim(ids: set<Id>, now: Time, lease: Time)
    | Deliver(call: nat, id: Id, sentAt: Time)
    | LetGo(id: Id, at: Time)
    | Forget(id: Id)
    | TheirClaim(ids: set<Id>, now: Time, lease: Time)
    | TheirDeliver(id: Id, sentAt: Time)
    | TheirLetGo(id: Id, at: Time)
    | TheirForget(id: Id)
    | TheirRemove(id: Id, reply: Reply)
    | List(listed: seq<Id>, reply: Reply)
    | Load
    | Store
    | Query(rows: Option<seq<Entry>>)
    | AddBatch(size: nat, reply: Reply)
    | AllAdded
    | RemoveBatch(size: nat, reply: Reply)
    | Done
    | Check
    | Count(reply: Reply)
    | Restart

  predicate Pending(s: Sys, id: Id) { R.LivePending(s.table.db, id) }

  function ScheduledAt(s: Sys, id: Id): Time
    requires Pending(s, id)
  {
    s.table.db.rows[id].scheduledAt
  }

  // ------------------------------------------------------- service calls

  predicate IsServiceWrite(op: R.Op) {
    (op.Add? || op.Complete? || op.Update? || op.Delete?) && R.Allowed(op)
  }

  /** The pending reminder that a creation replaces; there is at most one. */
  ghost function ReplacedId(db: R.Db, d: R.Draft, unseen: set<Id>): (r: Option<Id>)
    ensures r.Some? ==> R.Replaces(db, d, unseen, r.value)
    ensures r.None? ==> forall id :: !R.Replaces(db, d, unseen, id)
  {
    if exists id :: R.Replaces(db, d, unseen, id) then (var id :| R.Replaces(db, d, unseen, id); Some(id)) else None
  }

  /** The index writes of a call, in the order of the service. */
  ghost function WritesOf(db: R.Db, op: R.Op): seq<Write> {
    match op
    case Add(d, unseen, _) =>
      if !R.Adds(db, d, unseen) then []
      else
        var replaced := ReplacedId(db, d, unseen);
        [Upsert(db.nextId, d.scheduledAt)] + if replaced.Some? then [Remove(replaced.value)] else []
    case Complete(spaceId, id, _) => if R.Unfinished(db, spaceId, id) then [Remove(id)] else []
    case Update(spaceId, id, f, _) =>
      if R.MayUpdate(db, spaceId, id, f) && f.scheduledAt.Some? then [Upsert(id, f.scheduledAt.value)] else []
    case Delete(spaceId, id, _, _) => if R.LiveIn(db, spaceId, id) then [Remove(id)] else []
    case _ => []
  }

  function Moves(db: R.Db, op: R.Op): set<Id> {
    if op.Update? && R.MayUpdate(db, op.spaceId, op.id, op.fields) && op.fields.scheduledAt.Some? then {op.id} else {}
  }

  function WithCall(s: Sys, call: nat, writes: seq<Write>): Sys {
    s.(calls := if writes == [] then s.calls - {call} else s.calls[call := writes])
  }

  // ------------------------------------------------ values on their way

  ghost predicate Owes(s: Sys, w: Write) { exists call :: call in s.calls && w in s.calls[call] }

  ghost predicate OwesUpsert(s: Sys, id: Id) { exists at :: Owes(s, Upsert(id, at)) }

  /** The rows that a running reconciliation has read and not yet written. When the index is flagged
      they do not matter: another reconciliation must follow before HasDue answers again. */
  function Unwritten(s: Sys): seq<Entry> {
    if s.phase.Adding? && s.dirty == s.reconciled && s.phase.done <= |s.phase.rows| then s.phase.rows[s.phase.done..]
    else []
  }

  /** A value of the reminder is on its way to the index, and no dirty mark for it is on its way too. */
  ghost predicate Overlaps(s: Sys, id: Id) {
    OwesUpsert(s, id) || (id in Ids(Unwritten(s)) && !Owes(s, Dirty(id)))
  }

  /** Whatever is on its way carries the reminder's present time. */
  ghost predicate Sharp(s: Sys, id: Id) { SharpCalls(s, id) && SharpRows(s, id) }

  ghost predicate SharpCalls(s: Sys, id: Id) {
    Pending(s, id) ==> forall at :: Owes(s, Upsert(id, at)) ==> at == ScheduledAt(s, id)
  }

  predicate SharpRows(s: Sys, id: Id) {
    Pending(s, id) ==> forall e :: e in Unwritten(s) && e.id == id ==> e.at == ScheduledAt(s, id)
  }

  ghost function Blurs(s: Sys, op: R.Op): set<Id> { set id | id in Moves(s.table.db, op) && Overlaps(s, id) }

  /** HasDue does not answer for a reminder that is rescheduled after it compared the versions. */
  function Forgets(phase: Phase, moved: set<Id>): Phase {
    if phase.Asking? then Asking(phase.known - moved) else phase
  }

  ghost function ServeStep(s: Sys, call: nat, op: R.Op): Sys {
    if call in s.calls || !IsServiceWrite(op) then s
    else
      WithCall(s, call, WritesOf(s.table.db, op))
        .(table := R.Apply(s.table, op), blurred := s.blurred + Blurs(s, op),
          phase := Forgets(s.phase, Moves(s.table.db, op)))
  }

  function ApplyWrite(m: Members, w: Write, reply: Reply): Members {
    if reply.Refused? then m
    else
      match w
      case Upsert(id, at) => m[id := Score(at)]
      case Remove(id) => m - {id}
      case Dirty(_) => m
  }

  /** A write is answered: an entry with the present time is exact again, if nothing else is on its
      way that carries another. */
  ghost function Answered(s: Sys, call: nat, w: Write, rest: seq<Write>): Sys {
    var t := WithCall(s, call, rest).(members := ApplyWrite(s.members, w, Applied));
    if w.Upsert? && Pending(s, w.id) && w.at == ScheduledAt(s, w.id) && Sharp(t, w.id) then
      t.(blurred := s.blurred - {w.id})
    else t
  }

  /** One command of a call, or the dirty mark after a failed one. */
  ghost function WriteStep(s: Sys, call: nat, reply: Reply): Sys {
    if call !in s.calls || s.calls[call] == [] then s
    else
      var w, rest := s.calls[call][0], s.calls[call][1..];
      if w.Dirty? then WithCall(s, call, rest).(dirty := s.dirty + 1)
      else if reply.Applied? then Answered(s, call, w, rest)
      else WithCall(s, call, [Dirty(w.id)] + rest).(members := ApplyWrite(s.members, w, reply))
  }

  // ----------------------------------------------------------- scheduler

  /** One pass claims; it works through its claims before the next pass claims again. */
  ghost function ClaimStep(s: Sys, ids: set<Id>, now: Time, lease: Time): Sys {
    if s.held != map[] || lease <= 0 || !R.ClaimHappens(s.table, ids, now, lease) then s
    else
      s.(table := R.Apply(s.table, R.Claim(ids, now, lease)), held := map id | id in ids :: now,
         taken := s.taken + (ids * s.theirs.Keys))
  }

  /** deliver: the mark succeeds or meets a conflict, and either way the index entry is removed. */
  ghost function DeliverStep(s: Sys, call: nat, id: Id, sentAt: Time): Sys {
    if id !in s.held || call in s.calls then s
    else
      WithCall(s, call, [Remove(id)])
        .(table := R.Apply(s.table, R.Mark(id, s.held[id], sentAt)), held := s.held - {id})
  }

  ghost function LetGoStep(s: Sys, id: Id, at: Time): Sys {
    if id !in s.held then s
    else s.(table := R.Apply(s.table, R.Release(id, s.held[id], at)), held := s.held - {id})
  }

  function ForgetStep(s: Sys, id: Id): Sys { s.(held := s.held - {id}) }

  /** The other process claims, delivers and releases in the same way; a failed removal dirties its
      own index object and not this one. */
  ghost function TheirClaimStep(s: Sys, ids: set<Id>, now: Time, lease: Time): Sys {
    if s.theirs != map[] || lease <= 0 || !R.ClaimHappens(s.table, ids, now, lease) then s
    else
      s.(table := R.Apply(s.table, R.Claim(ids, now, lease)), theirs := map id | id in ids :: now,
         taken := s.taken + (ids * s.held.Keys))
  }

  ghost function TheirDeliverStep(s: Sys, id: Id, sentAt: Time): Sys {
    if id !in s.theirs then s
    else
      s.(table := R.Apply(s.table, R.Mark(id, s.theirs[id], sentAt)), theirs := s.theirs - {id},
         theirRemoves := s.theirRemoves + {id})
  }

  ghost function TheirLetGoStep(s: Sys, id: Id, at: Time): Sys {
    if id !in s.theirs then s
    else s.(table := R.Apply(s.table, R.Release(id, s.theirs[id], at)), theirs := s.theirs - {id})
  }

  function TheirForgetStep(s: Sys, id: Id): Sys { s.(theirs := s.theirs - {id}) }

  function TheirRemoveStep(s: Sys, id: Id, reply: Reply): Sys {
    if id !in s.theirRemoves then s
    else s.(members := ApplyWrite(s.members, Remove(id), reply), theirRemoves := s.theirRemoves - {id})
  }

  // ------------------------------------------------------ reconciliation

  function Failed(s: Sys, dirtied: bool): Sys {
    s.(dirty := if dirtied then s.dirty + 1 else s.dirty, degraded := true, phase := Idle)
  }

  predicate Answers(rows: seq<Entry>, db: R.Db) {
    && (forall e :: e in rows ==> R.LivePending(db, e.id) && db.rows[e.id].scheduledAt == e.at)
    && (forall id :: id in db.rows && R.LivePending(db, id) ==> id in Ids(rows))
  }

  function AddBatchStep(s: Sys, size: nat, reply: Reply): Sys {
    if !s.phase.Adding? || s.phase.done > |s.phase.rows| then s
    else
      var end := Least(s.phase.done + size, |s.phase.rows|);
      var members := if reply.Refused? then s.members else AddAll(s.members, s.phase.rows[s.phase.done..end]);
      if reply.Applied? then s.(members := members, phase := Adding(s.phase.ids, s.phase.rows, end))
      else Failed(s.(members := members), true)
  }

  function RemoveBatchStep(s: Sys, size: nat, reply: Reply): Sys {
    if !s.phase.Removing? || s.phase.done > |s.phase.stale| then s
    else
      var end := Least(s.phase.done + size, |s.phase.stale|);
      var members := if reply.Refused? then s.members else RemoveAll(s.members, s.phase.stale[s.phase.done..end]);
      if reply.Applied? then s.(members := members, phase := Removing(s.phase.stale, end))
      else Failed(s.(members := members), true)
  }

  function ListStep(s: Sys, ids: seq<Id>, reply: Reply): Sys {
    if !s.phase.Starting? && !s.phase.Idle? then s
    else if !reply.Applied? then Failed(s, true)
    else if Elements(ids) == s.members.Keys then s.(phase := Listed(ids))
    else s
  }

  /** What is read now is going to be written: an entry stays in doubt only if an older value, or a
      removal by a process that lost its claim, is still on its way. */
  ghost function StillTaken(s: Sys): set<Id> {
    set id | id in s.taken && (id in s.held || id in s.theirs || id in s.theirRemoves || Owes(s, Remove(id)))
  }

  ghost function StillBlurred(s: Sys): set<Id> { set id | id in s.blurred && !SharpCalls(s, id) }

  ghost function QueryStep(s: Sys, rows: Option<seq<Entry>>): Sys {
    if !s.phase.Stored? then s
    else if rows.None? then Failed(s, false)
    else if Answers(rows.value, s.table.db) then
      s.(phase := Adding(s.phase.ids, rows.value, 0), blurred := StillBlurred(s), taken := StillTaken(s))
    else s
  }

  ghost function CheckStep(s: Sys): Sys {
    if !s.phase.Idle? then s
    else if s.dirty != s.reconciled then s.(degraded := true)
    else s.(phase := Asking(SettledIds(s)))
  }

  function LoadStep(s: Sys): Sys {
    if s.phase.Listed? then s.(phase := Loaded(s.phase.ids, s.dirty)) else s
  }

  function StoreStep(s: Sys): Sys {
    if s.phase.Loaded? then s.(phase := Stored(s.phase.ids), reconciled := s.phase.version) else s
  }

  function AllAddedStep(s: Sys): Sys {
    if s.phase.Adding? && s.phase.done == |s.phase.rows| then
      s.(phase := Removing(Stale(s.phase.ids, s.phase.rows), 0))
    else s
  }

  function DoneStep(s: Sys): Sys {
    if s.phase.Removing? && s.phase.done == |s.phase.stale| then s.(phase := Idle, degraded := false) else s
  }

  function RestartStep(s: Sys): Sys {
    s.(dirty := 0, reconciled := 0, degraded := false, calls := map[], held := map[], phase := Starting)
  }

  function CountStep(s: Sys, reply: Reply): Sys {
    if !s.phase.Asking? then s
    else if !reply.Applied? then Failed(s, true)
    else s.(phase := Idle)
  }

  ghost function Apply(s: Sys, op: Op): Sys {
    match op
    case Serve(call, op) => ServeStep(s, call, op)
    case WriteIndex(call, reply) => WriteStep(s, call, reply)
    case Claim(ids, now, lease) => ClaimStep(s, ids, now, lease)
    case Deliver(call, id, sentAt) => DeliverStep(s, call, id, sentAt)
    case LetGo(id, at) => LetGoStep(s, id, at)
    case Forget(id) => ForgetStep(s, id)
    case TheirClaim(ids, now, lease) => TheirClaimStep(s, ids, now, lease)
    case TheirDeliver(id, sentAt) => TheirDeliverStep(s, id, sentAt)
    case TheirLetGo(id, at) => TheirLetGoStep(s, id, at)
    case TheirForget(id) => TheirForgetStep(s, id)
    case TheirRemove(id, reply) => TheirRemoveStep(s, id, reply)
    case List(ids, reply) => ListStep(s, ids, reply)
    case Load => LoadStep(s)
    case Store => StoreStep(s)
    case Query(rows) => QueryStep(s, rows)
    case AddBatch(size, reply) => AddBatchStep(s, size, reply)
    case AllAdded => AllAddedStep(s)
    case RemoveBatch(size, reply) => RemoveBatchStep(s, size, reply)
    case Done => DoneStep(s)
    case Check => CheckStep(s)
    case Count(reply) => CountStep(s, reply)
    case Restart => RestartStep(s)
  }

  ghost function Run(s: Sys, ops: seq<Op>): Sys {
    if ops == [] then s else Apply(Run(s, ops[..|ops| - 1]), ops[|ops| - 1])
  }

  /** Any table that its own runs can reach, and any index whose ids were issued before. */
  ghost predicate Start(s: Sys) {
    && ReminderRuns.Inv(s.table) && s.phase.Starting?
    && s.dirty == s.reconciled == 0 && !s.degraded && s.calls == map[] && s.held == map[] && s.theirs == map[]
    && s.blurred == s.taken == s.theirRemoves == {}
    && forall id :: id in s.members ==> id < s.table.db.nextId
  }

  // --------------------------------------------------------- settledness

  /** Some call is still to write the reminder's entry, or to report that it could not. */
  predicate Owed(w: Write, id: Id) { !w.Remove? && w.id == id }

  ghost predicate Awaited(s: Sys, id: Id) {
    exists call, w :: call in s.calls && w in s.calls[call] && Owed(w, id)
  }

  /** A pending reminder whose service calls have all returned. */
  ghost predicate Settled(s: Sys, id: Id) { Pending(s, id) && !Awaited(s, id) }

  ghost function SettledIds(s: Sys): set<Id> { set id | id in s.table.db.rows && Settled(s, id) }

  /** The entry is there, and exact unless the reminder's time is blurred. */
  ghost predicate Right(s: Sys, id: Id) {
    id in s.members && (Pending(s, id) && id !in s.blurred ==> s.members[id] == Score(ScheduledAt(s, id)))
  }

  // ------------------------------------------------- the dirty version

  /** A failed index command of this process is reported: the mark that a call owes for it, or the answer
      to a command of the scheduler itself. */
  predicate Reports(s: Sys, op: Op) {
    match op
    case WriteIndex(call, _) => call in s.calls && s.calls[call] != [] && s.calls[call][0].Dirty?
    case List(_, reply) => (s.phase.Starting? || s.phase.Idle?) && reply != Applied
    case AddBatch(_, reply) => s.phase.Adding? && s.phase.done <= |s.phase.rows| && reply != Applied
    case RemoveBatch(_, reply) => s.phase.Removing? && s.phase.done <= |s.phase.stale| && reply != Applied
    case Count(reply) => s.phase.Asking? && reply != Applied
    case _ => false
  }

  /** How many failures were reported since the process started. */
  ghost function Failures(s: Sys, ops: seq<Op>): nat {
    if ops == [] then 0
    else
      var front, last := ops[..|ops| - 1], ops[|ops| - 1];
      if last.Restart? then 0 else Failures(s, front) + if Reports(Run(s, front), last) then 1 else 0
  }

  lemma StepCounts(s: Sys, op: Op)
    ensures Apply(s, op).dirty == if op.Restart? then 0 else s.dirty + if Reports(s, op) then 1 else 0
  {
    if op.Serve? || op.WriteIndex? || op.Claim? || op.Deliver? || op.LetGo? || op.Forget? {
      ServedStepCounts(s, op);
    } else if op.TheirClaim? || op.TheirDeliver? || op.TheirLetGo? || op.TheirForget? || op.TheirRemove? {
      TheirStepCounts(s, op);
    } else if op.AddBatch? || op.RemoveBatch? || op.Query? {
      BatchStepCounts(s, op);
    } else if !op.Restart? {
      RebuildStepCounts(s, op);
    }
  }

  lemma ServedStepCounts(s: Sys, op: Op)
    requires op.Serve? || op.WriteIndex? || op.Claim? || op.Deliver? || op.LetGo? || op.Forget?
    ensures Apply(s, op).dirty == s.dirty + if Reports(s, op) then 1 else 0
  {
  }

  lemma TheirStepCounts(s: Sys, op: Op)
    requires op.TheirClaim? || op.TheirDeliver? || op.TheirLetGo? || op.TheirForget? || op.TheirRemove?
    ensures Apply(s, op).dirty == s.dirty + if Reports(s, op) then 1 else 0
  {
  }

  lemma RebuildStepCounts(s: Sys, op: Op)
    requires op.List? || op.Load? || op.Store? || op.AllAdded? || op.Done? || op.Check? || op.Count?
    ensures Apply(s, op).dirty == s.dirty + if Reports(s, op) then 1 else 0
  {
  }

  lemma BatchStepCounts(s: Sys, op: Op)
    requires op.AddBatch? || op.RemoveBatch? || op.Query?
    ensures Apply(s, op).dirty == s.dirty + if Reports(s, op) then 1 else 0
  {
    match op {
      case AddBatch(size, reply) => AddBatchCounts(s, size, reply);
      case RemoveBatch(size, reply) => RemoveBatchCounts(s, size, reply);
      case Query(_) =>
    }
  }

  lemma AddBatchCounts(s: Sys, size: nat, reply: Reply)
    ensures AddBatchStep(s, size, reply).dirty == s.dirty + if Reports(s, AddBatch(size, reply)) then 1 else 0
  {
  }

  lemma RemoveBatchCounts(s: Sys, size: nat, reply: Reply)
    ensures RemoveBatchStep(s, size, reply).dirty == s.dirty + if Reports(s, RemoveBatch(size, reply)) then 1 else 0
  {
  }

  /** Over every run the dirty version is the number of failures reported since the process started. */
  lemma {:induction false} VersionCountsFailures(s: Sys, ops: seq<Op>)
    requires s.dirty == 0
    ensures Run(s, ops).dirty == Failures(s, ops)
  {
    if ops != [] {
      var front, last := ops[..|ops| - 1], ops[|ops| - 1];
      VersionCountsFailures(s, front);
      StepCounts(Run(s, front), last);
    }
  }

  /** The scheduler learns that the index is not to be trusted: a command of its own failed, the query of
      the pending reminders did, or a count was refused because failures are not reconciled yet. */
  predicate Learns(s: Sys, op: Op) {
    match op
    case Check => s.phase.Idle? && s.dirty != s.reconciled
    case Query(rows) => s.phase.Stored? && rows == None
    case WriteIndex(_, _) => false
    case _ => Reports(s, op)
  }

  /** A reconciliation has removed the last stale entry. */
  predicate Completes(s: Sys, op: Op) { op.Done? && s.phase.Removing? && s.phase.done == |s.phase.stale| }

  /** In every step the scheduler takes the index for degraded from the moment that it learns so until a
      reconciliation completes. */
  lemma DegradedUntilReconciled(s: Sys, op: Op)
    ensures Apply(s, op).degraded <==> Learns(s, op) || (s.degraded && !Completes(s, op) && !op.Restart?)
  {
    if op.AddBatch? {
      BatchDegrades(s, op.size, op.reply);
    } else if op.RemoveBatch? {
      BatchDegrades(s, op.size, op.reply);
    } else if op.List? || op.Query? || op.Check? || op.Count? || op.Load? || op.Store? || op.AllAdded? || op.Done? {
      RebuildDegrades(s, op);
    } else if op.Serve? || op.WriteIndex? || op.Claim? || op.Deliver? || op.LetGo? || op.Forget? {
      CallKeepsDegraded(s, op);
    } else if !op.Restart? {
      TheyKeepDegraded(s, op);
    }
  }

  lemma CallKeepsDegraded(s: Sys, op: Op)
    requires op.Serve? || op.WriteIndex? || op.Claim? || op.Deliver? || op.LetGo? || op.Forget?
    ensures Apply(s, op).degraded == s.degraded
  {
  }

  lemma TheyKeepDegraded(s: Sys, op: Op)
    requires op.TheirClaim? || op.TheirDeliver? || op.TheirLetGo? || op.TheirForget? || op.TheirRemove?
    ensures Apply(s, op).degraded == s.degraded
  {
  }

  lemma RebuildDegrades(s: Sys, op: Op)
    requires op.List? || op.Query? || op.Check? || op.Count? || op.Load? || op.Store? || op.AllAdded? || op.Done?
    ensures Apply(s, op).degraded <==> Learns(s, op) || (s.degraded && !Completes(s, op))
  {
  }

  lemma BatchDegrades(s: Sys, size: nat, reply: Reply)
    ensures AddBatchStep(s, size, reply).degraded <==> Reports(s, AddBatch(size, reply)) || s.degraded
    ensures RemoveBatchStep(s, size, reply).degraded <==> Reports(s, RemoveBatch(size, reply)) || s.degraded
  {
  }
}
