/** Which feeding a report is about, said of the stored details and the times alone. */
module FeedingChoices {
  import opened Options
  import opened FeedingDetails
  import opened FeedingSelection

  /** A text that is not empty is stored as the outcome. */
  predicate HasOutcome(f: Feeding) {
    "outcome" in f.details && match f.details["outcome"]
      case Text(s) => s != ""
      case Stamp(_) => true
      case _ => false
  }

  const MINUTE: int := 60_000_000_000

  /** Meant by a report without an id: within twenty minutes of the time that it names; or, if it names
      none, without an outcome and at most three hours before the message. */
  predicate Meant(f: Feeding, sel: Selector) {
    if sel.feedingTime.Some? then
      sel.feedingTime.value - 20 * MINUTE <= f.occurredAt <= sel.feedingTime.value + 20 * MINUTE
    else
      !HasOutcome(f) && sel.messageAt - 180 * MINUTE <= f.occurredAt <= sel.messageAt
  }

  lemma MatchesIffMeant(f: Feeding, sel: Selector)
    ensures Matches(f, sel) <==> Meant(f, sel)
  {
    assert OUTCOME == "outcome";
  }

  predicate MeantAt(list: seq<Feeding>, sel: Selector, i: nat) { i < |list| && Meant(list[i], sel) }

  ghost predicate OnlyMeantAt(list: seq<Feeding>, sel: Selector, i: nat) {
    MeantAt(list, sel, i) && forall j: nat :: MeantAt(list, sel, j) ==> j == i
  }

  function Meants(list: seq<Feeding>, sel: Selector): seq<Feeding> { Filter(list, (f: Feeding) => Matches(f, sel)) }

  /** How many are meant tells which positions are. */
  lemma {:induction false} MeantsCount(list: seq<Feeding>, sel: Selector)
    ensures |Meants(list, sel)| == 0 <==> forall i: nat :: !MeantAt(list, sel, i)
    ensures |Meants(list, sel)| == 1 ==> exists i: nat :: OnlyMeantAt(list, sel, i) && Meants(list, sel) == [list[i]]
    ensures |Meants(list, sel)| > 1 ==> exists i: nat, j: nat :: i < j && MeantAt(list, sel, i) && MeantAt(list, sel, j)
  {
    if list != [] {
      var front, n := list[..|list| - 1], |list| - 1;
      MeantsCount(front, sel);
      MatchesIffMeant(list[n], sel);
      assert forall i: nat :: i < n ==> (MeantAt(list, sel, i) <==> MeantAt(front, sel, i));
      assert MeantAt(list, sel, n) <==> Matches(list[n], sel);
      if Matches(list[n], sel) {
        if |Meants(front, sel)| == 0 {
          assert forall i: nat :: !MeantAt(front, sel, i);
          assert OnlyMeantAt(list, sel, n);
        } else {
          var i: nat :| MeantAt(front, sel, i);
          assert i < n && MeantAt(list, sel, i);
        }
      } else if |Meants(front, sel)| == 1 {
        var i: nat :| OnlyMeantAt(front, sel, i) && Meants(front, sel) == [front[i]];
        assert OnlyMeantAt(list, sel, i);
      } else if |Meants(front, sel)| > 1 {
        var i: nat, j: nat :| i < j && MeantAt(front, sel, i) && MeantAt(front, sel, j);
        assert MeantAt(list, sel, i) && MeantAt(list, sel, j);
      }
    }
  }

  /** Without an id, a feeding is chosen if and only if it is the only one that is meant; with one, if
      and only if it is the first with that id. */
  lemma ChosenIff(list: seq<Feeding>, sel: Selector, f: Feeding)
    ensures sel.feedingId.None? ==>
      (Select(list, sel) == Chosen(f) <==> exists i: nat :: OnlyMeantAt(list, sel, i) && list[i] == f)
    ensures sel.feedingId.Some? ==>
      (Select(list, sel) == Chosen(f) <==>
        exists i :: 0 <= i < |list| && list[i] == f && f.id == sel.feedingId.value
                    && forall j :: 0 <= j < i ==> list[j].id != f.id)
  {
    if sel.feedingId.None? {
      MeantsCount(list, sel);
      forall i: nat | OnlyMeantAt(list, sel, i) ensures |Meants(list, sel)| == 1 {}
    } else {
      FirstWithId(list, sel.feedingId.value);
    }
  }

  lemma {:induction false} FirstWithId(list: seq<Feeding>, id: Id)
    ensures var found := Filter(list, (f: Feeding) => f.id == id);
      if found == [] then forall i :: 0 <= i < |list| ==> list[i].id != id
      else exists i :: 0 <= i < |list| && list[i] == found[0] && list[i].id == id
                       && forall j :: 0 <= j < i ==> list[j].id != id
  {
    if list != [] {
      FirstWithId(list[..|list| - 1], id);
    }
  }

  /** Without an id, the answer is ambiguous if and only if two are meant, and that none was found if
      and only if none is. */
  lemma UndecidedIff(list: seq<Feeding>, sel: Selector)
    requires sel.feedingId.None?
    ensures Select(list, sel).Ambiguous? <==>
      exists i: nat, j: nat :: i < j && MeantAt(list, sel, i) && MeantAt(list, sel, j)
    ensures Select(list, sel).NoneFound? <==> forall i: nat :: !MeantAt(list, sel, i)
    ensures !Select(list, sel).NotFound?
  {
    MeantsCount(list, sel);
    forall i: nat | OnlyMeantAt(list, sel, i)
      ensures !exists j: nat, k: nat :: j < k && MeantAt(list, sel, j) && MeantAt(list, sel, k)
    {
    }
  }

  // --------------------------------------------------- what is offered

  /** What the caller is told of a feeding: its id and time, its volume if that is a whole number, and
      that it is open if and only if no outcome is stored. */
  predicate Describes(c: Candidate, f: Feeding) {
    && c.id == f.id && c.occurredAt == f.occurredAt && (c.open <==> !HasOutcome(f))
    && c.volume ==
         if "volume_ml" in f.details && f.details["volume_ml"].Int? then Some(f.details["volume_ml"].n) else None
  }

  lemma CandidateDescribes(f: Feeding)
    ensures Describes(CandidateOf(f), f)
  {
    assert OUTCOME == "outcome" && VOLUME == "volume_ml";
  }

  /** Earliest first, and by id at the same time. */
  predicate Earlier(a: Candidate, b: Candidate) {
    a.occurredAt < b.occurredAt || (a.occurredAt == b.occurredAt && a.id < b.id)
  }

  ghost predicate EarliestFirst(list: seq<Candidate>) {
    forall i, j :: 0 <= i < j < |list| ==> Earlier(list[i], list[j])
  }

  lemma {:induction false} InsertKeepsOrder(list: seq<Candidate>, c: Candidate)
    requires EarliestFirst(list) && forall x :: x in list ==> x.id < c.id
    ensures var r := Insert(list, c, false);
      EarliestFirst(r) && forall x :: x in r <==> x in list || x == c
  {
    if list != [] && c.occurredAt < list[|list| - 1].occurredAt {
      var front, last := list[..|list| - 1], list[|list| - 1];
      assert list == front + [last];
      assert last in list;
      InsertKeepsOrder(front, c);
      var r := Insert(front, c, false);
      forall i | 0 <= i < |r| ensures Earlier(r[i], last) {
        assert r[i] in r;
        assert r[i] in front ==> exists k :: 0 <= k < |front| && list[k] == r[i];
      }
    } else {
      assert list != [] ==> list[|list| - 1] in list;
      forall i | 0 <= i < |list| ensures Earlier(list[i], c) { assert list[i] in list; }
    }
  }

  lemma {:induction false} SortKeepsOrder(list: seq<Candidate>)
    requires forall i, j :: 0 <= i < j < |list| ==> list[i].id < list[j].id
    ensures EarliestFirst(Sort(list, false)) && forall x :: x in Sort(list, false) <==> x in list
  {
    if list != [] {
      var front, last := list[..|list| - 1], list[|list| - 1];
      assert list == front + [last];
      SortKeepsOrder(front);
      forall x | x in Sort(front, false) ensures x.id < last.id {
        var i :| 0 <= i < |front| && front[i] == x;
        assert list[i] == x;
      }
      InsertKeepsOrder(Sort(front, false), last);
    }
  }

  /** The order of the query: by id. */
  ghost predicate ById(list: seq<Feeding>) { forall i, j :: 0 <= i < j < |list| ==> list[i].id < list[j].id }

  lemma {:induction false} FilterKeepsIds(list: seq<Feeding>, p: Feeding -> bool)
    requires ById(list)
    ensures ById(Filter(list, p))
    ensures forall x :: x in Filter(list, p) <==> x in list && p(x)
  {
    if list != [] {
      var front, last := list[..|list| - 1], list[|list| - 1];
      assert list == front + [last];
      FilterKeepsIds(front, p);
      forall x | x in Filter(front, p) ensures x.id < last.id {
        var i :| 0 <= i < |front| && front[i] == x;
        assert list[i] == x;
      }
      var r := Filter(front, p);
      forall i | 0 <= i < |r| ensures r[i].id < last.id { assert r[i] in r; }
      assert ById(r + if p(last) then [last] else []);
    }
  }

  /** An ambiguous answer lists exactly the feedings that are meant, each described as it is stored,
      the earliest first. */
  lemma AmbiguousLists(list: seq<Feeding>, sel: Selector)
    requires ById(list) && sel.feedingId.None? && Select(list, sel).Ambiguous?
    ensures var offered := Select(list, sel).list;
      && EarliestFirst(offered)
      && (forall c :: c in offered ==> exists f :: f in list && Meant(f, sel) && Describes(c, f))
      && (forall f :: f in list && Meant(f, sel) ==> exists c :: c in offered && Describes(c, f))
  {
    var meants := Meants(list, sel);
    var cs := seq(|meants|, i requires 0 <= i < |meants| => CandidateOf(meants[i]));
    FilterKeepsIds(list, (f: Feeding) => Matches(f, sel));
    forall i, j | 0 <= i < j < |cs| ensures cs[i].id < cs[j].id {
      assert meants[i].id < meants[j].id;
    }
    SortKeepsOrder(cs);
    var offered := Select(list, sel).list;
    assert offered == Sort(cs, false);
    forall c | c in offered ensures exists f :: f in list && Meant(f, sel) && Describes(c, f) {
      var i :| 0 <= i < |cs| && cs[i] == c;
      CandidateDescribes(meants[i]);
      MatchesIffMeant(meants[i], sel);
      assert meants[i] in meants;
    }
    forall f | f in list && Meant(f, sel) ensures exists c :: c in offered && Describes(c, f) {
      MatchesIffMeant(f, sel);
      var i :| 0 <= i < |meants| && meants[i] == f;
      CandidateDescribes(f);
      assert cs[i] in offered;
    }
  }

  /** If none is meant, the five latest are offered as they are stored. */
  lemma NoneListDescribes(list: seq<Feeding>, c: Candidate)
    requires Apart(CandidateSet(list)) && Distinct(seq(|list|, i requires 0 <= i < |list| => CandidateOf(list[i])))
    requires c in Recent(list)
    ensures exists f :: f in list && Describes(c, f)
  {
    RecentIsFiveLatest(list);
    assert c in Members(Recent(list));
    var f :| f in list && CandidateOf(f) == c;
    CandidateDescribes(f);
  }
}
