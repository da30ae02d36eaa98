/** The Redis sorted set behind both due indexes, and the batched writes to it. Scores are
    milliseconds, instants are nanoseconds. */
module SortedSets {
  import opened Options

  type Id = nat
  type Time = int
  type Members = map<Id, int>

  datatype Entry = Entry(id: Id, at: Time)

  /** A batch size */
  type Size = n: int | n > 0 witness 1

  /** What one command meets: it is applied; it is applied but its reply is lost; it is not applied. */
  datatype Reply = Applied | ReplyLost | Refused

  type Network = nat -> Reply

  /** UnixMilli of an instant */
  function Score(t: Time): int { t / 1_000_000 }

  /** ZADD of the entries, in order. */
  function AddAll(m: Members, entries: seq<Entry>): Members {
    if entries == [] then m
    else AddAll(m, entries[..|entries| - 1])[entries[|entries| - 1].id := Score(entries[|entries| - 1].at)]
  }

  function RemoveAll(m: Members, ids: seq<Id>): Members { m - (set id | id in ids) }

  function Ids(entries: seq<Entry>): set<Id> { set e | e in entries :: e.id }

  /** ZCOUNT from minus infinity to now, compared with zero. */
  predicate AnyDue(m: Members, now: Time) { exists id :: id in m && m[id] <= Score(now) }

  lemma {:induction false} AddAllConcat(m: Members, a: seq<Entry>, b: seq<Entry>)
    ensures AddAll(m, a + b) == AddAll(AddAll(m, a), b)
  {
    if b == [] {
      assert a + b == a;
    } else {
      assert (a + b)[..|a + b| - 1] == a + b[..|b| - 1];
      AddAllConcat(m, a, b[..|b| - 1]);
    }
  }

  lemma {:induction false} AddedKeys(m: Members, entries: seq<Entry>)
    ensures AddAll(m, entries).Keys == m.Keys + Ids(entries)
  {
    if entries != [] {
      var front, last := entries[..|entries| - 1], entries[|entries| - 1];
      AddedKeys(m, front);
      assert entries == front + [last];
      assert Ids(entries) == Ids(front) + {last.id};
    }
  }

  /** An instant that is due has a score that is counted, so an exact entry is never missed. */
  lemma DueIsCounted(m: Members, id: Id, at: Time, now: Time)
    requires id in m && m[id] == Score(at) && at <= now
    ensures AnyDue(m, now)
  {
  }

  function Elements(ids: seq<Id>): set<Id> { set id | id in ids }

  /** The set that holds exactly these entries. */
  function Exact(entries: seq<Entry>): Members { AddAll(map[], entries) }

  /** The listed ids that no entry has, in the order of the list. */
  function Stale(ids: seq<Id>, entries: seq<Entry>): seq<Id> {
    if ids == [] then []
    else if ids[|ids| - 1] in Ids(entries) then Stale(ids[..|ids| - 1], entries)
    else Stale(ids[..|ids| - 1], entries) + [ids[|ids| - 1]]
  }

  lemma {:induction false} StaleIs(ids: seq<Id>, entries: seq<Entry>)
    ensures Elements(Stale(ids, entries)) == Elements(ids) - Ids(entries)
  {
    if ids != [] {
      var front, last := ids[..|ids| - 1], ids[|ids| - 1];
      StaleIs(front, entries);
      assert ids == front + [last];
      assert Elements(ids) == Elements(front) + {last};
      assert Elements(Stale(front, entries) + [last]) == Elements(Stale(front, entries)) + {last};
    }
  }

  /** Whatever the set held, adding the entries and removing the stale ids leaves just the entries. */
  lemma Rebuilt(m: Members, ids: seq<Id>, entries: seq<Entry>)
    requires Elements(ids) == m.Keys
    ensures RemoveAll(AddAll(m, entries), Stale(ids, entries)) == Exact(entries)
  {
    StaleIs(ids, entries);
    AddedKeys(m, entries);
    AddedKeys(map[], entries);
    AddedValues(m, map[], entries);
  }

  /** What an entry's id maps to after ZADD does not depend on what the set held before. */
  lemma {:induction false} AddedValues(m: Members, n: Members, entries: seq<Entry>)
    ensures forall id :: id in Ids(entries) ==>
      id in AddAll(m, entries) && id in AddAll(n, entries) && AddAll(m, entries)[id] == AddAll(n, entries)[id]
  {
    if entries != [] {
      var front := entries[..|entries| - 1];
      AddedValues(m, n, front);
      assert entries == front + [entries[|entries| - 1]];
      assert Ids(entries) == Ids(front) + {entries[|entries| - 1].id};
    }
  }

  /** An id of the entries gets the score of one of its entries, any other keeps what it had. */
  lemma {:induction false} AddedFrom(m: Members, entries: seq<Entry>, id: Id)
    ensures id in AddAll(m, entries) <==> id in m || id in Ids(entries)
    ensures id in Ids(entries) ==> exists e :: e in entries && e.id == id && AddAll(m, entries)[id] == Score(e.at)
    ensures id in m && id !in Ids(entries) ==> AddAll(m, entries)[id] == m[id]
  {
    if entries != [] {
      var front, last := entries[..|entries| - 1], entries[|entries| - 1];
      AddedFrom(m, front, id);
      assert entries == front + [last];
      assert last in entries && last.id in Ids(entries);
      assert Ids(entries) == Ids(front) + {last.id};
    }
  }

  /** The ids listed before that no row has any more. */
  method CollectStale(ids: seq<Id>, entries: seq<Entry>) returns (stale: seq<Id>)
    ensures stale == Stale(ids, entries)
  {
    var active := {};
    for i := 0 to |entries|
      invariant active == Ids(entries[..i])
    {
      assert entries[..i + 1] == entries[..i] + [entries[i]];
      active := active + {entries[i].id};
    }
    assert entries[..|entries|] == entries;
    stale := [];
    for i := 0 to |ids|
      invariant stale == Stale(ids[..i], entries)
    {
      assert ids[..i + 1][..i] == ids[..i];
      if ids[i] !in active { stale := stale + [ids[i]]; }
    }
    assert ids[..|ids|] == ids;
  }

  function Least(a: int, b: int): int { if a <= b then a else b }

  /** The number of commands that carry a total of `left` values. */
  function Batches(batchSize: int, left: int): nat
    requires batchSize > 0
    decreases left
  {
    if left <= 0 then 0 else 1 + Batches(batchSize, left - batchSize)
  }

  predicate AllAnswered(net: Network, batches: nat) { forall k: nat :: k < batches ==> net(k).Applied? }

  class SortedSet {
    var members: Members

    constructor (m: Members)
      ensures members == m
    {
      members := m;
    }

    method ZAdd(entries: seq<Entry>, reply: Reply) returns (ok: bool)
      modifies this
      ensures ok <==> reply.Applied?
      ensures members == if reply.Refused? then old(members) else AddAll(old(members), entries)
    {
      if !reply.Refused? { members := AddAll(members, entries); }
      ok := reply.Applied?;
    }

    method ZRem(ids: seq<Id>, reply: Reply) returns (ok: bool)
      modifies this
      ensures ok <==> reply.Applied?
      ensures members == if reply.Refused? then old(members) else RemoveAll(old(members), ids)
    {
      if !reply.Refused? { members := RemoveAll(members, ids); }
      ok := reply.Applied?;
    }

    /** ZRANGE of the whole set; the order by score is not modelled. */
    method ZRange() returns (ids: seq<Id>)
      ensures Distinct(ids) && Elements(ids) == members.Keys
    {
      ids := [];
      var rest := members.Keys;
      while rest != {}
        invariant rest <= members.Keys && Distinct(ids) && Elements(ids) == members.Keys - rest
        decreases rest
      {
        if forall x :: x !in rest { assert false; }
        var id: Id :| id in rest;
        assert id !in Elements(ids) && Elements(ids + [id]) == Elements(ids) + {id};
        ids, rest := ids + [id], rest - {id};
      }
    }

    /** The call succeeds exactly when every batch is answered, and then it adds all values; when
        it fails it has added the values of some leading batches. */
    method ZAddBatched(batchSize: int, values: seq<Entry>, net: Network) returns (ok: bool)
      modifies this
      ensures ok <==> batchSize > 0 && AllAnswered(net, Batches(batchSize, |values|))
      ensures ok ==> members == AddAll(old(members), values)
      ensures exists n :: 0 <= n <= |values| && members == AddAll(old(members), values[..n])
    {
      if batchSize <= 0 {
        assert values[..0] == [];
        return false;
      }
      var start, batch := 0, 0;
      while start < |values|
        invariant 0 <= start && batch + Batches(batchSize, |values| - start) == Batches(batchSize, |values|)
        invariant members == AddAll(old(members), values[..Least(start, |values|)])
        invariant AllAnswered(net, batch)
        decreases |values| - start
      {
        var end := Least(start + batchSize, |values|);
        assert values[..start] + values[start..end] == values[..end];
        AddAllConcat(old(members), values[..start], values[start..end]);
        var answered := ZAdd(values[start..end], net(batch));
        if !answered { return false; }
        start, batch := start + batchSize, batch + 1;
      }
      assert values[..|values|] == values;
      return true;
    }

    method ZRemBatched(batchSize: int, ids: seq<Id>, net: Network) returns (ok: bool)
      modifies this
      ensures ok <==> batchSize > 0 && AllAnswered(net, Batches(batchSize, |ids|))
      ensures ok ==> members == RemoveAll(old(members), ids)
      ensures exists n :: 0 <= n <= |ids| && members == RemoveAll(old(members), ids[..n])
    {
      if batchSize <= 0 {
        assert members == RemoveAll(old(members), ids[..0]);
        return false;
      }
      var start, batch := 0, 0;
      while start < |ids|
        invariant 0 <= start && batch + Batches(batchSize, |ids| - start) == Batches(batchSize, |ids|)
        invariant members == RemoveAll(old(members), ids[..Least(start, |ids|)])
        invariant AllAnswered(net, batch)
        decreases |ids| - start
      {
        var end := Least(start + batchSize, |ids|);
        assert ids[..start] + ids[start..end] == ids[..end];
        var answered := ZRem(ids[start..end], net(batch));
        if !answered { return false; }
        start, batch := start + batchSize, batch + 1;
      }
      assert ids[..|ids|] == ids;
      return true;
    }
  }
}
