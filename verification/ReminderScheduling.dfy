/** The reminder scheduler and its index as objects: where a pass looks for due reminders, how it
    repairs the index, and what it does with the reminders that it claims. */
module ReminderScheduling {
  import opened Options
  import opened SortedSets
  import R = Reminders
  import Repo = ReminderRepository

  class DueReminderIndex {
    const redis: SortedSet
    const batchSize: Size
    var dirtyVersion: nat
    var reconciledVersion: nat

    constructor (redis: SortedSet, batchSize: int)
      ensures this.redis == redis && dirtyVersion == reconciledVersion == 0
      ensures this.batchSize == if batchSize <= 0 then 1000 else batchSize
    {
      this.redis := redis;
      this.batchSize := if batchSize <= 0 then 1000 else batchSize;
      dirtyVersion, reconciledVersion := 0, 0;
    }

    /** HasDue will refuse to answer. */
    predicate Flagged()
      reads this
    {
      dirtyVersion != reconciledVersion
    }

    predicate InOrder()
      reads this
    {
      reconciledVersion <= dirtyVersion
    }

    method MarkDirty()
      modifies this`dirtyVersion
      ensures dirtyVersion == old(dirtyVersion) + 1
    {
      dirtyVersion := dirtyVersion + 1;
    }

    method Upsert(id: Id, scheduledAt: Time, reply: Reply) returns (ok: bool)
      modifies this`dirtyVersion, redis
      ensures ok <==> reply.Applied?
      ensures dirtyVersion == if ok then old(dirtyVersion) else old(dirtyVersion) + 1
      ensures redis.members == if reply.Refused? then old(redis.members)
        else old(redis.members)[id := Score(scheduledAt)]
    {
      assert [Entry(id, scheduledAt)][..0] == [];
      ok := redis.ZAdd([Entry(id, scheduledAt)], reply);
      if !ok { MarkDirty(); }
    }

    method Remove(id: Id, reply: Reply) returns (ok: bool)
      modifies this`dirtyVersion, redis
      ensures ok <==> reply.Applied?
      ensures dirtyVersion == if ok then old(dirtyVersion) else old(dirtyVersion) + 1
      ensures redis.members == if reply.Refused? then old(redis.members) else old(redis.members) - {id}
    {
      ok := redis.ZRem([id], reply);
      if !ok { MarkDirty(); }
    }

    method HasDue(now: Time, reply: Reply) returns (r: Option<bool>)
      modifies this`dirtyVersion
      ensures r.Some? <==> !old(Flagged()) && reply.Applied?
      ensures r.Some? ==> r.value == AnyDue(redis.members, now)
      ensures dirtyVersion == if old(Flagged()) || r.Some? then old(dirtyVersion) else old(dirtyVersion) + 1
    {
      if dirtyVersion != reconciledVersion { return None; }
      if !reply.Applied? {
        MarkDirty();
        return None;
      }
      return Some(AnyDue(redis.members, now));
    }

    method AllIDs(reply: Reply) returns (r: Option<seq<Id>>)
      modifies this
      ensures r.Some? <==> reply.Applied?
      ensures r.Some? ==>
        Elements(r.value) == redis.members.Keys && reconciledVersion == dirtyVersion == old(dirtyVersion)
      ensures r.None? ==> dirtyVersion == old(dirtyVersion) + 1 && reconciledVersion == old(reconciledVersion)
    {
      if !reply.Applied? {
        MarkDirty();
        return None;
      }
      var ids := redis.ZRange();
      reconciledVersion := dirtyVersion;
      return Some(ids);
    }

    method UpsertMany(rows: seq<Entry>, net: Network) returns (ok: bool)
      modifies this`dirtyVersion, redis
      ensures ok <==> AllAnswered(net, Batches(batchSize, |rows|))
      ensures ok ==> redis.members == AddAll(old(redis.members), rows)
      ensures dirtyVersion == if ok then old(dirtyVersion) else old(dirtyVersion) + 1
    {
      ok := redis.ZAddBatched(batchSize, rows, net);
      if !ok { MarkDirty(); }
    }

    method RemoveMany(ids: seq<Id>, net: Network) returns (ok: bool)
      modifies this`dirtyVersion, redis
      ensures ok <==> AllAnswered(net, Batches(batchSize, |ids|))
      ensures ok ==> redis.members == RemoveAll(old(redis.members), ids)
      ensures dirtyVersion == if ok then old(dirtyVersion) else old(dirtyVersion) + 1
    {
      if |ids| == 0 {
        assert RemoveAll(redis.members, ids) == redis.members;
        return true;
      }
      ok := redis.ZRemBatched(batchSize, ids, net);
      if !ok { MarkDirty(); }
    }
  }

  /** What one reconciliation meets: the replies of Redis and the answer of the database. */
  datatype Weather = Weather(
    first: Reply, listed: Reply, pending: Option<seq<Entry>>, adds: Network, removes: Network, second: Reply)

  /** Every pending reminder is in the set with its own score. */
  ghost predicate Covers(m: Members, pending: map<Id, Time>) {
    forall id :: id in pending ==> id in m && m[id] == Score(pending[id])
  }

  ghost predicate SomeDue(pending: map<Id, Time>, now: Time) { exists id :: id in pending && pending[id] <= now }

  /** The database answers with the pending reminders, or not at all. */
  ghost predicate Faithful(w: Weather, pending: map<Id, Time>) {
    w.pending.Some? ==>
      && Ids(w.pending.value) == pending.Keys
      && forall e :: e in w.pending.value ==> e.id in pending && pending[e.id] == e.at
  }

  /** What becomes of one claimed reminder: the message goes out; it does not; or it does and the
      mark fails in the database. */
  datatype Sending = Delivered | Undelivered | MarkError

  /** A tick of the scheduler, with what the rest of the system did to the index since the last one:
      its contents, and how often a failed write dirtied it. */
  datatype Tick = Tick(now: Time, members: Members, dirtied: nat, pending: map<Id, Time>, w: Weather)

  ghost predicate Spaced(ticks: seq<Tick>, interval: int) {
    forall i :: 0 <= i < |ticks| - 1 ==> ticks[i + 1].now - ticks[i].now >= interval
  }

  /** What a pass makes of a claimed row. */
  function AfterSending(r: R.Reminder, sending: Sending, now: Time, at: Time): R.Reminder {
    match sending
    case Delivered => r.(notifiedAt := Some(now), claimedAt := None, status := R.Sent, updatedAt := now)
    case Undelivered => r.(claimedAt := None, updatedAt := at)
    case MarkError => r
  }

  type Table = map<Id, R.Reminder>

  predicate InTable(rows: Table, claimed: seq<Id>) { forall i :: 0 <= i < |claimed| ==> claimed[i] in rows }

  /** The table after the first n claimed reminders of a pass. */
  function AfterPass(rows: Table, claimed: seq<Id>, sends: seq<Sending>, now: Time, at: Time, n: nat): (t: Table)
    requires n <= |claimed| == |sends| && InTable(rows, claimed)
    ensures t.Keys == rows.Keys
  {
    if n == 0 then rows
    else
      var t := AfterPass(rows, claimed, sends, now, at, n - 1);
      t[claimed[n - 1] := AfterSending(t[claimed[n - 1]], sends[n - 1], now, at)]
  }

  /** A pass treats every claimed reminder by its own sending, when its turn comes. */
  lemma {:induction false} PassAt(rows: Table, claimed: seq<Id>, sends: seq<Sending>, now: Time, at: Time, n: nat,
      i: nat)
    requires n <= |claimed| == |sends| && InTable(rows, claimed) && Distinct(claimed) && i < |claimed|
    ensures AfterPass(rows, claimed, sends, now, at, n)[claimed[i]]
      == if i < n then AfterSending(rows[claimed[i]], sends[i], now, at) else rows[claimed[i]]
  {
    if n > 0 {
      PassAt(rows, claimed, sends, now, at, n - 1, i);
    }
  }

  /** A pass leaves every other reminder alone. */
  lemma {:induction false} PassSpares(rows: Table, claimed: seq<Id>, sends: seq<Sending>, now: Time, at: Time, n: nat,
      id: Id)
    requires n <= |claimed| == |sends| && InTable(rows, claimed) && id in rows && id !in claimed
    ensures AfterPass(rows, claimed, sends, now, at, n)[id] == rows[id]
  {
    if n > 0 {
      PassSpares(rows, claimed, sends, now, at, n - 1, id);
    }
  }

  lemma CoversDue(m: Members, pending: map<Id, Time>, now: Time)
    requires Covers(m, pending) && SomeDue(pending, now)
    ensures AnyDue(m, now)
  {
  }

  lemma {:induction false} ExactCovers(rows: seq<Entry>, pending: map<Id, Time>)
    requires Ids(rows) == pending.Keys && forall e :: e in rows ==> e.id in pending && pending[e.id] == e.at
    ensures Covers(Exact(rows), pending) && Exact(rows).Keys == pending.Keys
  {
    AddedKeys(map[], rows);
    forall id | id in pending ensures Exact(rows)[id] == Score(pending[id]) {
      AddedFrom(map[], rows, id);
    }
  }

  class ReminderScheduler {
    const index: DueReminderIndex?
    const databaseFallbackInterval: Size
    const lease: Size
    const batchSize: Size
    var lastDatabaseFallback: Option<Time>
    var indexDegraded: bool

    constructor (index: DueReminderIndex?, fallbackInterval: int, lease: int, batchSize: int)
      ensures this.index == index && lastDatabaseFallback.None? && !indexDegraded
      ensures databaseFallbackInterval == if fallbackInterval <= 0 then 60_000_000_000 else fallbackInterval
      ensures this.lease == if lease <= 0 then 120_000_000_000 else lease
      ensures this.batchSize == if batchSize <= 0 then 50 else batchSize
    {
      this.index := index;
      this.databaseFallbackInterval := if fallbackInterval <= 0 then 60_000_000_000 else fallbackInterval;
      this.lease := if lease <= 0 then 120_000_000_000 else lease;
      this.batchSize := if batchSize <= 0 then 50 else batchSize;
      lastDatabaseFallback, indexDegraded := None, false;
    }

    /** The database may be asked at `now`. */
    predicate Ready(now: Time)
      reads this
    {
      lastDatabaseFallback.None? || now - lastDatabaseFallback.value >= databaseFallbackInterval
    }

    /** HasDue would refuse to answer, or the scheduler knows that it did. */
    predicate Impaired()
      reads this, index
    {
      indexDegraded || (index != null && index.Flagged())
    }

    method UseDatabaseFallback(now: Time) returns (use: bool)
      modifies this`lastDatabaseFallback
      ensures use == old(Ready(now))
      ensures lastDatabaseFallback == if use then Some(now) else old(lastDatabaseFallback)
    {
      if lastDatabaseFallback.Some? && now - lastDatabaseFallback.value < databaseFallbackInterval { return false; }
      lastDatabaseFallback := Some(now);
      return true;
    }

    /** reconcileReminderIndex without interference: from any set and any batch size it succeeds
        exactly when the query and every command do, and then the set is the pending reminders. */
    method ReconcileReminderIndex(w: Weather) returns (ok: bool)
      requires index != null
      modifies index, index.redis
      ensures ok ==> w.pending.Some? && index.redis.members == Exact(w.pending.value) && !index.Flagged()
      ensures old(index.InOrder()) ==> index.InOrder()
      ensures (forall k: nat :: w.adds(k).Applied? && w.removes(k).Applied?) ==>
        w.listed.Applied? && w.pending.Some? ==> ok
    {
      var ids := index.AllIDs(w.listed);
      if ids.None? || w.pending.None? { return false; }
      ghost var before := index.redis.members;
      ok := index.UpsertMany(w.pending.value, w.adds);
      if !ok { return; }
      var stale := CollectStale(ids.value, w.pending.value);
      ok := index.RemoveMany(stale, w.removes);
      if ok { Rebuilt(before, ids.value, w.pending.value); }
    }

    /** checkDueSource: a healthy index decides alone; a flagged or degraded one is repaired, or the
        database is asked, at most once per fallback interval. If the database may be asked, then a
        due reminder is never overlooked by an index that covers it, is flagged or is missing. */
    method CheckDueSource(now: Time, w: Weather, ghost pending: map<Id, Time>) returns (hasDue: bool, useDatabase: bool)
      requires Faithful(w, pending)
      modifies this, index, if index == null then null else index.redis
      ensures old(Ready(now)) && SomeDue(pending, now)
        && (index == null || old(Impaired()) || Covers(old(index.redis.members), pending))
        ==> hasDue || useDatabase
      ensures index != null && !old(Impaired()) && w.first.Applied? ==>
        hasDue == AnyDue(old(index.redis.members), now) && !useDatabase
      ensures useDatabase ==> old(Ready(now)) && lastDatabaseFallback == Some(now)
      ensures old(Ready(now)) && index != null ==> (Impaired() <==> useDatabase)
      ensures lastDatabaseFallback.None? || lastDatabaseFallback in {Some(now), old(lastDatabaseFallback)}
      ensures old(Ready(now)) ==> lastDatabaseFallback.None? || lastDatabaseFallback == Some(now)
      ensures index != null && old(index.InOrder()) ==> index.InOrder()
    {
      if index == null {
        useDatabase := UseDatabaseFallback(now);
        return false, useDatabase;
      }
      var r := index.HasDue(now, w.first);
      if r.None? { indexDegraded := true; }
      if indexDegraded {
        var use := UseDatabaseFallback(now);
        if !use { return false, false; }
        var ok := ReconcileReminderIndex(w);
        if !ok { return false, true; }
        ExactCovers(w.pending.value, pending);
        r := index.HasDue(now, w.second);
        if r.None? {
          indexDegraded := true;
          return false, true;
        }
        indexDegraded := false;
      }
      if SomeDue(pending, now) && Covers(index.redis.members, pending) {
        CoversDue(index.redis.members, pending, now);
      }
      lastDatabaseFallback := None;
      return r.value, false;
    }

    /** Ticks at least the fallback interval apart: at every tick with a due reminder the claim is
        reached, if the index covers the pending reminders or is missing, flagged or degraded when the
        tick begins. It is flagged or degraded then if it was dirtied since the tick before, or if that
        tick had to ask the database; the first tick finds it as it was. */
    method RunTicks(ticks: seq<Tick>) returns (reached: seq<bool>, asked: seq<bool>)
      requires Spaced(ticks, databaseFallbackInterval) && (ticks != [] ==> Ready(ticks[0].now))
      requires forall i :: 0 <= i < |ticks| ==> Faithful(ticks[i].w, ticks[i].pending)
      requires index != null ==> index.InOrder()
      modifies this, index, if index == null then null else index.redis
      ensures |reached| == |asked| == |ticks|
      ensures forall i :: 0 <= i < |ticks| && MustReach(ticks[i]) ==> reached[i]
      ensures forall i :: 0 < i < |ticks| && SomeDue(ticks[i].pending, ticks[i].now) && asked[i - 1] ==> reached[i]
      ensures ticks != [] && SomeDue(ticks[0].pending, ticks[0].now) && old(Impaired()) ==> reached[0]
      ensures ticks != [] && index != null ==> (Impaired() <==> asked[|ticks| - 1])
    {
      reached, asked := [], [];
      for i := 0 to |ticks|
        invariant |reached| == |asked| == i && (index != null ==> index.InOrder())
        invariant i < |ticks| ==> Ready(ticks[i].now)
        invariant forall j :: 0 <= j < i && MustReach(ticks[j]) ==> reached[j]
        invariant forall j :: 0 < j < i && SomeDue(ticks[j].pending, ticks[j].now) && asked[j - 1] ==> reached[j]
        invariant i == 0 ==> Impaired() == old(Impaired())
        invariant i > 0 && SomeDue(ticks[0].pending, ticks[0].now) && old(Impaired()) ==> reached[0]
        invariant i > 0 && index != null ==> (Impaired() <==> asked[i - 1])
      {
        if index != null {
          index.redis.members := ticks[i].members;
          index.dirtyVersion := index.dirtyVersion + ticks[i].dirtied;
        }
        var hasDue, useDatabase := CheckDueSource(ticks[i].now, ticks[i].w, ticks[i].pending);
        reached, asked := reached + [hasDue || useDatabase], asked + [useDatabase];
      }
    }

    ghost predicate MustReach(t: Tick) {
      SomeDue(t.pending, t.now) && (index == null || Covers(t.members, t.pending) || t.dirtied > 0)
    }

    /** deliver for one claimed reminder: marked sent and out of the index, released, or kept. */
    method DeliverOne(repo: Repo.Repository, id: Id, stamp: Time, sending: Sending, removal: Reply, now: Time, at: Time)
      requires R.Owns(repo.Model(), id, stamp)
      modifies repo`rows, index, if index == null then null else index.redis
      ensures repo.rows == old(repo.rows)[id := AfterSending(old(repo.rows)[id], sending, now, at)]
      ensures index != null && sending.Delivered? && !removal.Refused? ==> id !in index.redis.members
      ensures index != null && (!sending.Delivered? || removal.Refused?) ==>
        index.redis.members == old(index.redis.members)
    {
      if sending.Delivered? {
        var ok := repo.MarkNotificationSent(id, stamp, now);
        if index != null {
          var removed := index.Remove(id, removal);
        }
      } else if sending.Undelivered? {
        var ok := repo.ReleaseNotificationClaim(id, stamp, at);
      }
    }

    /** The claimed reminders of one pass, without interference: the new table is that of the pass. */
    method DeliverClaimed(repo: Repo.Repository, claimed: seq<Id>, stamp: Time, sends: seq<Sending>,
        removals: seq<Reply>, now: Time, at: Time)
      requires |sends| == |removals| == |claimed| && Distinct(claimed)
      requires forall i :: 0 <= i < |claimed| ==> R.Owns(repo.Model(), claimed[i], stamp)
      modifies repo`rows, index, if index == null then null else index.redis
      ensures InTable(old(repo.rows), claimed)
      ensures repo.rows == AfterPass(old(repo.rows), claimed, sends, now, at, |claimed|)
    {
      for i := 0 to |claimed|
        invariant repo.rows == AfterPass(old(repo.rows), claimed, sends, now, at, i)
      {
        PassAt(old(repo.rows), claimed, sends, now, at, i, i);
        DeliverOne(repo, claimed[i], stamp, sends[i], removals[i], now, at);
      }
    }
  }
}
