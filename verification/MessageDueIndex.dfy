/** The due index of scheduled deliveries as an object: its methods step the counters exactly as the
    protocol does, and one undisturbed reconciliation repairs any set. */
module MessageDueIndex {
  import opened Options
  import opened SortedSets
  import opened MessageIndex

  /** A delivery handed to UpsertMany; an empty id and a null next attempt are None. */
  datatype Row = Row(id: Option<Id>, pending: bool, nextAttempt: Option<Time>)

  predicate Indexable(r: Row) { r.pending && r.id.Some? && r.nextAttempt.Some? }

  function EntryOf(r: Row): Entry
    requires Indexable(r)
  {
    Entry(r.id.value, r.nextAttempt.value)
  }

  ghost predicate AllIndexable(rows: seq<Row>) { forall i :: 0 <= i < |rows| ==> Indexable(rows[i]) }

  function EntriesOf(rows: seq<Row>): seq<Entry>
    requires AllIndexable(rows)
  {
    seq(|rows|, i requires 0 <= i < |rows| => EntryOf(rows[i]))
  }

  class DueIndex {
    const redis: SortedSet
    const batchSize: Size
    var version: nat
    var inFlight: nat
    var degraded: bool

    function C(): Counters
      reads this
    {
      Counters(version, inFlight, degraded)
    }

    constructor (redis: SortedSet, batchSize: int)
      ensures C() == Fresh() && this.redis == redis
      ensures this.batchSize == if batchSize <= 0 then 1000 else batchSize
    {
      this.redis := redis;
      this.batchSize := if batchSize <= 0 then 1000 else batchSize;
      version, inFlight, degraded := 1, 0, true;
    }

    method BeginMutation()
      modifies this
      ensures C() == Begun(old(C()))
    {
      version, inFlight := version + 1, inFlight + 1;
    }

    method FinishMutation(failed: bool)
      requires inFlight > 0
      modifies this
      ensures C() == Ended(old(C()), failed)
    {
      version, inFlight := version + 1, inFlight - 1;
      if failed { degraded := true; }
    }

    method MarkDirty()
      modifies this
      ensures C() == Dirtied(old(C()))
    {
      version, degraded := version + 1, true;
    }

    method Upsert(id: Id, nextAttempt: Time, reply: Reply) returns (ok: bool)
      modifies this, redis
      ensures ok <==> reply.Applied?
      ensures C() == Ended(Begun(old(C())), !ok)
      ensures redis.members == if reply.Refused? then old(redis.members)
        else old(redis.members)[id := Score(nextAttempt)]
    {
      BeginMutation();
      assert [Entry(id, nextAttempt)][..0] == [];
      ok := redis.ZAdd([Entry(id, nextAttempt)], reply);
      FinishMutation(!ok);
    }

    method Remove(id: Id, reply: Reply) returns (ok: bool)
      modifies this, redis
      ensures ok <==> reply.Applied?
      ensures C() == Ended(Begun(old(C())), !ok)
      ensures redis.members == if reply.Refused? then old(redis.members) else old(redis.members) - {id}
    {
      BeginMutation();
      ok := redis.ZRem([id], reply);
      FinishMutation(!ok);
    }

    /** A degraded index never answers; otherwise the answer is that of the set. */
    method HasDue(now: Time, reply: Reply) returns (r: Option<bool>)
      modifies this
      ensures r.Some? <==> !old(degraded) && reply.Applied?
      ensures r.Some? ==> r.value == AnyDue(redis.members, now) && C() == old(C())
      ensures r.None? ==> degraded && (old(degraded) ==> C() == old(C()))
    {
      if degraded { return None; }
      if !reply.Applied? {
        MarkDirty();
        return None;
      }
      return Some(AnyDue(redis.members, now));
    }

    method AllIDs(reply: Reply) returns (r: Option<seq<Id>>)
      modifies this
      ensures r.Some? <==> reply.Applied?
      ensures r.Some? ==> Distinct(r.value) && Elements(r.value) == redis.members.Keys
      ensures C() == if r.Some? then old(C()) else Dirtied(old(C()))
    {
      if !reply.Applied? {
        MarkDirty();
        return None;
      }
      var ids := redis.ZRange();
      return Some(ids);
    }

    method UpsertMany(rows: seq<Row>, net: Network) returns (ok: bool)
      modifies this, redis
      ensures ok <==> AllIndexable(rows) && AllAnswered(net, Batches(batchSize, |rows|))
      ensures ok ==> redis.members == AddAll(old(redis.members), EntriesOf(rows))
      ensures !AllIndexable(rows) ==> redis.members == old(redis.members)
      ensures C() == if ok then old(C()) else Dirtied(old(C()))
    {
      var entries := [];
      for i := 0 to |rows|
        invariant AllIndexable(rows[..i]) && entries == EntriesOf(rows[..i])
        invariant C() == old(C()) && redis.members == old(redis.members)
      {
        if !Indexable(rows[i]) {
          MarkDirty();
          return false;
        }
        assert rows[..i + 1] == rows[..i] + [rows[i]];
        entries := entries + [EntryOf(rows[i])];
      }
      assert rows[..|rows|] == rows;
      ok := redis.ZAddBatched(batchSize, entries, net);
      if !ok { MarkDirty(); }
    }

    method RemoveMany(ids: seq<Id>, net: Network) returns (ok: bool)
      modifies this, redis
      ensures ok <==> AllAnswered(net, Batches(batchSize, |ids|))
      ensures ok ==> redis.members == RemoveAll(old(redis.members), ids)
      ensures C() == if ok then old(C()) else Dirtied(old(C()))
    {
      if |ids| == 0 {
        assert RemoveAll(redis.members, ids) == redis.members;
        return true;
      }
      ok := redis.ZRemBatched(batchSize, ids, net);
      if !ok { MarkDirty(); }
    }

    method MarkReconciled(v: nat)
      modifies this
      ensures C() == Marked(old(C()), v)
    {
      if version == v && inFlight == 0 { degraded := false; } else { degraded := true; }
    }
  }

  /** reconcileIndex without interference: from any set and any batch size it succeeds exactly when
      the query and every command do, and then the set is the pending rows; the index is trusted
      from then on unless a mutation is still in flight. */
  method ReconcileIndex(index: DueIndex, answer: Option<seq<Row>>, listed: Reply, adds: Network, removes: Network)
    returns (ok: bool)
    modifies index, index.redis
    ensures ok ==> answer.Some? && AllIndexable(answer.value) && index.redis.members == Exact(EntriesOf(answer.value))
    ensures ok ==> index.C() == old(index.C()).(degraded := old(index.inFlight) > 0)
    ensures !ok && answer.Some? ==> index.degraded
    ensures (forall k: nat :: adds(k).Applied? && removes(k).Applied?) ==>
      listed.Applied? && answer.Some? && AllIndexable(answer.value) ==> ok
  {
    var v := index.version;
    var ids := index.AllIDs(listed);
    if ids.None? { return false; }
    if answer.None? { return false; }
    ghost var before := index.redis.members;
    ok := index.UpsertMany(answer.value, adds);
    if !ok { return; }
    var entries := EntriesOf(answer.value);
    var stale := CollectStale(ids.value, entries);
    ok := index.RemoveMany(stale, removes);
    if !ok { return; }
    Rebuilt(before, ids.value, entries);
    index.MarkReconciled(v);
  }
}
