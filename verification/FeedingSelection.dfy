/** Choosing the feeding that a report refers to, from the locked candidates and from all the live
    feedings of the space. */
module FeedingSelection {
  import opened Options
  import opened FeedingDetails

  type Id = nat

  datatype Feeding = Feeding(id: Id, occurredAt: Time, details: Details)

  /** Twenty minutes, three hours and forty-eight hours in nanoseconds. */
  const TIME_TOLERANCE: int := 1_200_000_000_000
  const OPEN_LOOKBACK: int := 10_800_000_000_000
  const MAX_CANDIDATES: nat := 5

  datatype Selector = Selector(feedingId: Option<Id>, feedingTime: Option<Time>, messageAt: Time)

  datatype Candidate = Candidate(id: Id, occurredAt: Time, volume: Option<int>, open: bool)

  datatype Choice =
    | Chosen(feeding: Feeding)
    | Ambiguous(list: seq<Candidate>)
    | NoneFound(list: seq<Candidate>)
    | NotFound

  predicate IsOpen(f: Feeding) { StringOf(Get(f.details, OUTCOME)) == "" }

  function CandidateOf(f: Feeding): Candidate {
    Candidate(f.id, f.occurredAt, ToInt(Get(f.details, VOLUME)), IsOpen(f))
  }

  function Distance(a: Time, b: Time): int { if a - b < 0 then b - a else a - b }

  /** Which feedings a selector without an id matches. */
  predicate Matches(f: Feeding, sel: Selector) {
    if sel.feedingTime.Some? then Distance(f.occurredAt, sel.feedingTime.value) <= TIME_TOLERANCE
    else IsOpen(f) && f.occurredAt <= sel.messageAt && sel.messageAt - f.occurredAt <= OPEN_LOOKBACK
  }

  function Filter<T>(list: seq<T>, p: T -> bool): seq<T> {
    if list == [] then []
    else Filter(list[..|list| - 1], p) + if p(list[|list| - 1]) then [list[|list| - 1]] else []
  }

  // ------------------------------------------------------------- sorting

  predicate Precedes(a: Candidate, b: Candidate, latestFirst: bool) {
    if latestFirst then a.occurredAt > b.occurredAt else a.occurredAt < b.occurredAt
  }

  /** Puts c behind all that c does not precede: a stable insertion. */
  function Insert(list: seq<Candidate>, c: Candidate, latestFirst: bool): seq<Candidate> {
    if list != [] && Precedes(c, list[|list| - 1], latestFirst) then
      Insert(list[..|list| - 1], c, latestFirst) + [list[|list| - 1]]
    else list + [c]
  }

  /** sort.SliceStable by time */
  function Sort(list: seq<Candidate>, latestFirst: bool): seq<Candidate> {
    if list == [] then [] else Insert(Sort(list[..|list| - 1], latestFirst), list[|list| - 1], latestFirst)
  }

  function Candidates(list: seq<Feeding>): seq<Candidate> {
    Sort(seq(|list|, i requires 0 <= i < |list| => CandidateOf(list[i])), false)
  }

  function Recent(list: seq<Feeding>): seq<Candidate> {
    var sorted := Sort(Candidates(list), true);
    if |sorted| > MAX_CANDIDATES then sorted[..MAX_CANDIDATES] else sorted
  }

  // ----------------------------------------------------------- selection

  function Pick(matches: seq<Feeding>, feedings: seq<Feeding>): Choice {
    if |matches| == 0 then NoneFound(Recent(feedings))
    else if |matches| == 1 then Chosen(matches[0])
    else Ambiguous(Candidates(matches))
  }

  function Select(feedings: seq<Feeding>, sel: Selector): Choice {
    if sel.feedingId.Some? then
      var byId := Filter(feedings, (f: Feeding) => f.id == sel.feedingId.value);
      if byId != [] then Chosen(byId[0]) else NoneFound(Recent(feedings))
    else Pick(Filter(feedings, (f: Feeding) => Matches(f, sel)), feedings)
  }

  /** SelectFeeding */
  method SelectFeeding(feedings: seq<Feeding>, sel: Selector) returns (r: Choice)
    ensures r == Select(feedings, sel)
  {
    if sel.feedingId.Some? {
      for i := 0 to |feedings|
        invariant Filter(feedings[..i], (f: Feeding) => f.id == sel.feedingId.value) == []
      {
        assert feedings[..i + 1][..i] == feedings[..i];
        if feedings[i].id == sel.feedingId.value {
          FilterKeepsFirst(feedings, (f: Feeding) => f.id == sel.feedingId.value, i);
          return Chosen(feedings[i]);
        }
      }
      assert feedings[..|feedings|] == feedings;
      return NoneFound(Recent(feedings));
    }
    var matches := [];
    for i := 0 to |feedings|
      invariant matches == Filter(feedings[..i], (f: Feeding) => Matches(f, sel))
    {
      assert feedings[..i + 1][..i] == feedings[..i];
      var f := feedings[i];
      if sel.feedingTime.Some? {
        var d := f.occurredAt - sel.feedingTime.value;
        if d < 0 { d := -d; }
        if d <= TIME_TOLERANCE { matches := matches + [f]; }
      } else if !(!IsOpen(f) || f.occurredAt > sel.messageAt || sel.messageAt - f.occurredAt > OPEN_LOOKBACK) {
        matches := matches + [f];
      }
    }
    assert feedings[..|feedings|] == feedings;
    return Pick(matches, feedings);
  }

  lemma {:induction false} FilterKeepsFirst<T>(list: seq<T>, p: T -> bool, i: nat)
    requires i < |list| && p(list[i]) && Filter(list[..i], p) == []
    ensures Filter(list, p) != [] && Filter(list, p)[0] == list[i]
  {
    if i == |list| - 1 {
    } else {
      assert list[..|list| - 1][..i] == list[..i];
      FilterKeepsFirst(list[..|list| - 1], p, i);
    }
  }

  // ------------------------------------------------- the locked candidates

  function Lower(sel: Selector): Time {
    var open := sel.messageAt - OPEN_LOOKBACK;
    if sel.feedingTime.Some? && sel.feedingTime.value - TIME_TOLERANCE < open then
      sel.feedingTime.value - TIME_TOLERANCE
    else open
  }

  function Upper(sel: Selector): Time {
    if sel.feedingTime.Some? && sel.feedingTime.value + TIME_TOLERANCE > sel.messageAt then
      sel.feedingTime.value + TIME_TOLERANCE
    else sel.messageAt
  }

  /** ORDER BY occurred_at DESC LIMIT 5 among the feedings up to the upper bound: as many as there
      are, at most five, and none left out is later than one taken. */
  ghost predicate IsTopFive(recent: set<Id>, all: seq<Feeding>, upper: Time) {
    && (forall id :: id in recent ==> exists f :: f in all && f.id == id && f.occurredAt <= upper)
    && |recent| <= MAX_CANDIDATES
    && (forall f, g :: f in all && g in all && f.occurredAt <= upper && f.id !in recent && g.id in recent ==>
          f.occurredAt <= g.occurredAt)
    && ((exists f :: f in all && f.occurredAt <= upper && f.id !in recent) ==> |recent| == MAX_CANDIDATES)
  }

  predicate IsLocked(f: Feeding, sel: Selector, recent: set<Id>) {
    (Lower(sel) <= f.occurredAt <= Upper(sel)) || f.id in recent
  }

  /** lockFeedingCandidates: without an id, the feedings of the window and the five latest, in the
      order of the ids; with one, that feeding or none. */
  function Locked(all: seq<Feeding>, sel: Selector, recent: set<Id>): seq<Feeding> {
    if sel.feedingId.Some? then Filter(all, (f: Feeding) => f.id == sel.feedingId.value)
    else Filter(all, (f: Feeding) => IsLocked(f, sel, recent))
  }

  /** ReportFeeding's choice: an id that is not there is reported as not found. */
  function SelectLocked(all: seq<Feeding>, sel: Selector, recent: set<Id>): Choice {
    if sel.feedingId.Some? && Locked(all, sel, recent) == [] then NotFound
    else Select(Locked(all, sel, recent), sel)
  }

  lemma {:induction false} FilterTwice<T>(list: seq<T>, p: T -> bool, q: T -> bool)
    requires forall x :: x in list && p(x) ==> q(x)
    ensures Filter(Filter(list, q), p) == Filter(list, p)
  {
    if list != [] {
      var front, last := list[..|list| - 1], list[|list| - 1];
      FilterTwice(front, p, q);
      if q(last) {
        assert (Filter(front, q) + [last])[..|Filter(front, q)|] == Filter(front, q);
      } else {
        assert Filter(list, q) == Filter(front, q);
      }
    }
  }

  lemma MatchesAreLocked(f: Feeding, sel: Selector, recent: set<Id>)
    requires Matches(f, sel)
    ensures IsLocked(f, sel, recent)
  {
  }

  /** By time or by open window, the locked candidates give the same chosen feeding, or the same
      ambiguous list, as all the live feedings; by id, the same chosen feeding. */
  lemma LockedSelectsTheSame(all: seq<Feeding>, sel: Selector, recent: set<Id>)
    ensures var full, locked := Select(all, sel), SelectLocked(all, sel, recent);
      && (full.Chosen? || full.Ambiguous? ==> locked == full)
      && (full.NoneFound? ==>
        locked == if sel.feedingId.Some? then NotFound else NoneFound(Recent(Locked(all, sel, recent))))
  {
    if sel.feedingId.Some? {
      var p := (f: Feeding) => f.id == sel.feedingId.value;
      FilterTwice(all, p, p);
    } else {
      var p, q := (f: Feeding) => Matches(f, sel), (f: Feeding) => IsLocked(f, sel, recent);
      forall f | f in all && p(f) ensures q(f) { MatchesAreLocked(f, sel, recent); }
      FilterTwice(all, p, q);
    }
  }

  // ------------------------------------------------------ the five latest

  function Members(list: seq<Candidate>): set<Candidate> { set c | c in list }

  function Ids(list: seq<Candidate>): set<Id> { set c | c in list :: c.id }

  function CandidateSet(list: seq<Feeding>): set<Candidate> { set f | f in list :: CandidateOf(f) }

  /** No two candidates share an id or a time. */
  ghost predicate Apart(s: set<Candidate>) {
    forall a, b :: a in s && b in s && (a.id == b.id || a.occurredAt == b.occurredAt) ==> a == b
  }

  ghost predicate Ordered(list: seq<Candidate>, latestFirst: bool) {
    forall i, j :: 0 <= i < j < |list| ==> !Precedes(list[j], list[i], latestFirst)
  }

  ghost predicate StrictlyLatestFirst(list: seq<Candidate>) {
    forall i, j :: 0 <= i < j < |list| ==> list[i].occurredAt > list[j].occurredAt
  }

  /** The five latest of a set, or all of it, latest first. */
  ghost predicate FiveLatest(list: seq<Candidate>, s: set<Candidate>) {
    && StrictlyLatestFirst(list) && Members(list) <= s && |list| <= MAX_CANDIDATES
    && forall c, x :: c in s && c !in list ==> |list| == MAX_CANDIDATES && (x in list ==> c.occurredAt < x.occurredAt)
  }

  lemma {:induction false} InsertSorts(list: seq<Candidate>, c: Candidate, latestFirst: bool)
    requires Ordered(list, latestFirst) && Distinct(list) && c !in list
    ensures var r := Insert(list, c, latestFirst);
      Ordered(r, latestFirst) && Distinct(r) && Members(r) == Members(list) + {c} && |r| == |list| + 1
  {
    if list != [] && Precedes(c, list[|list| - 1], latestFirst) {
      var front, last := list[..|list| - 1], list[|list| - 1];
      assert list == front + [last];
      InsertSorts(front, c, latestFirst);
      var r := Insert(front, c, latestFirst);
      assert last !in front by { assert forall i :: 0 <= i < |front| ==> front[i] == list[i] != last; }
      assert last !in Members(r);
      forall i | 0 <= i < |r| ensures !Precedes(last, r[i], latestFirst) {
        assert r[i] in Members(r);
        assert r[i] in front ==> exists k :: 0 <= k < |front| && list[k] == r[i];
      }
    }
  }

  lemma {:induction false} SortSorts(list: seq<Candidate>, latestFirst: bool)
    requires Distinct(list)
    ensures var r := Sort(list, latestFirst);
      Ordered(r, latestFirst) && Distinct(r) && Members(r) == Members(list) && |r| == |list|
  {
    if list != [] {
      var front, last := list[..|list| - 1], list[|list| - 1];
      assert list == front + [last];
      SortSorts(front, latestFirst);
      assert last !in Members(front);
      InsertSorts(Sort(front, latestFirst), last, latestFirst);
    }
  }

  lemma RecentIsFiveLatest(list: seq<Feeding>)
    requires Apart(CandidateSet(list)) && Distinct(seq(|list|, i requires 0 <= i < |list| => CandidateOf(list[i])))
    ensures FiveLatest(Recent(list), CandidateSet(list))
  {
    var cs := seq(|list|, i requires 0 <= i < |list| => CandidateOf(list[i]));
    assert Members(cs) == CandidateSet(list) by {
      forall f | f in list ensures CandidateOf(f) in cs {
        var i :| 0 <= i < |list| && list[i] == f;
        assert cs[i] == CandidateOf(f);
      }
    }
    SortSorts(cs, false);
    SortSorts(Candidates(list), true);
    FrontIsFiveLatest(Sort(Candidates(list), true), CandidateSet(list));
  }

  lemma FrontIsFiveLatest(sorted: seq<Candidate>, s: set<Candidate>)
    requires Ordered(sorted, true) && Distinct(sorted) && Members(sorted) == s && Apart(s)
    ensures FiveLatest(if |sorted| > MAX_CANDIDATES then sorted[..MAX_CANDIDATES] else sorted, s)
  {
  }

  lemma {:induction false} IdsCount(list: seq<Candidate>)
    ensures |Ids(list)| <= |list|
    ensures (forall i, j :: 0 <= i < j < |list| ==> list[i].id != list[j].id) ==> |Ids(list)| == |list|
  {
    if list != [] {
      var front, last := list[..|list| - 1], list[|list| - 1];
      assert list == front + [last];
      IdsCount(front);
      assert Ids(list) == Ids(front) + {last.id};
    }
  }

  /** A list of at most five cannot hold the five ids of a set and one more. */
  lemma SixDoNotFit(list: seq<Candidate>, five: set<Id>, x: Candidate)
    requires |list| <= MAX_CANDIDATES == |five| && five <= Ids(list) && x in list
    ensures x.id in five
  {
    IdsCount(list);
    if x.id !in five {
      var six := five + {x.id};
      assert six <= Ids(list);
      SubsetCount(six, Ids(list));
    }
  }

  lemma StrictIdsCount(list: seq<Candidate>, s: set<Candidate>)
    requires StrictlyLatestFirst(list) && Members(list) <= s && Apart(s)
    ensures |Ids(list)| == |list|
  {
    forall i, j | 0 <= i < j < |list| ensures list[i].id != list[j].id {
      assert list[i] in Members(list) && list[j] in Members(list);
    }
    IdsCount(list);
  }

  lemma FiveLatestWithin(a: seq<Candidate>, b: seq<Candidate>, s: set<Candidate>)
    requires Apart(s) && FiveLatest(a, s) && FiveLatest(b, s)
    ensures Members(a) <= Members(b)
  {
    forall x | x in a ensures x in b {
      assert x in Members(a);
      if x !in b {
        forall y | y in b ensures y in a {
          assert y in Members(b);
          assert y !in a ==> y.occurredAt < x.occurredAt;
        }
        StrictIdsCount(b, s);
        SixDoNotFit(a, Ids(b), x);
      } else {
        assert x.id in Ids(b);
      }
      var y :| y in b && y.id == x.id;
      assert y in Members(b);
    }
  }

  /** The five latest are determined by the set. */
  lemma FiveLatestUnique(a: seq<Candidate>, b: seq<Candidate>, s: set<Candidate>)
    requires Apart(s) && FiveLatest(a, s) && FiveLatest(b, s)
    ensures a == b
  {
    FiveLatestWithin(a, b, s);
    FiveLatestWithin(b, a, s);
    StrictUnique(a, b);
  }

  lemma {:induction false} StrictUnique(a: seq<Candidate>, b: seq<Candidate>)
    requires StrictlyLatestFirst(a) && StrictlyLatestFirst(b) && Members(a) == Members(b)
    ensures a == b
  {
    if a == [] {
      assert forall i :: 0 <= i < |b| ==> b[i] in Members(b);
    } else {
      assert a[0] in Members(b) && (b == [] || b[0] in Members(a));
      var i :| 0 <= i < |b| && b[i] == a[0];
      var j :| 0 <= j < |a| && a[j] == b[0];
      assert i == 0;
      assert Members(a[1..]) == Members(a) - {a[0]} by { assert a == [a[0]] + a[1..]; assert a[0] !in a[1..]; }
      assert Members(b[1..]) == Members(b) - {b[0]} by { assert b == [b[0]] + b[1..]; assert b[0] !in b[1..]; }
      StrictUnique(a[1..], b[1..]);
    }
  }

  /** Feedings up to the upper bound. */
  function UpTo(all: seq<Feeding>, upper: Time): seq<Feeding> { Filter(all, (f: Feeding) => f.occurredAt <= upper) }

  /** The live feedings of a space: no id twice, and no two at the same time. */
  ghost predicate AllApart(all: seq<Feeding>) {
    Distinct(all) && forall f, g :: f in all && g in all && (f.id == g.id || f.occurredAt == g.occurredAt) ==> f == g
  }

  lemma {:induction false} FilterIs<T>(list: seq<T>, p: T -> bool)
    ensures forall x :: x in Filter(list, p) <==> x in list && p(x)
    ensures Distinct(list) ==> Distinct(Filter(list, p))
  {
    if list != [] {
      var front, last := list[..|list| - 1], list[|list| - 1];
      assert list == front + [last];
      FilterIs(front, p);
    }
  }

  lemma FilteredApart(all: seq<Feeding>, p: Feeding -> bool)
    requires AllApart(all)
    ensures var list := Filter(all, p);
      && Apart(CandidateSet(list))
      && Distinct(seq(|list|, i requires 0 <= i < |list| => CandidateOf(list[i])))
  {
    FilterIs(all, p);
    var list := Filter(all, p);
    forall i, j | 0 <= i < j < |list| ensures CandidateOf(list[i]) != CandidateOf(list[j]) {
      assert list[i] in list && list[j] in list && list[i] != list[j];
    }
  }

  /** A list that is the five latest of the locked feedings is the five latest of all of them up to
      the bound. */
  lemma LockedFiveAreFive(all: seq<Feeding>, sel: Selector, recent: set<Id>, list: seq<Candidate>)
    requires sel.feedingId.None? && AllApart(all) && IsTopFive(recent, all, Upper(sel))
    requires FiveLatest(list, CandidateSet(Locked(all, sel, recent)))
    ensures FiveLatest(list, CandidateSet(UpTo(all, Upper(sel))))
  {
    var upper := Upper(sel);
    var p, q := (f: Feeding) => f.occurredAt <= upper, (f: Feeding) => IsLocked(f, sel, recent);
    FilterIs(all, p);
    FilterIs(all, q);
    var locked, upTo := CandidateSet(Locked(all, sel, recent)), CandidateSet(UpTo(all, upper));
    forall f | f in all && q(f) ensures p(f) { RecentAreUpTo(f, all, sel, recent); }
    assert locked <= upTo;
    forall c, x | c in upTo && c !in list
      ensures |list| == MAX_CANDIDATES && (x in list ==> c.occurredAt < x.occurredAt)
    {
      if c !in locked {
        var f :| f in all && p(f) && CandidateOf(f) == c;
        LeftOutIsEarlier(all, sel, recent, list, f, x);
      }
    }
  }

  lemma RecentAreUpTo(f: Feeding, all: seq<Feeding>, sel: Selector, recent: set<Id>)
    requires f in all && AllApart(all) && IsTopFive(recent, all, Upper(sel)) && IsLocked(f, sel, recent)
    ensures f.occurredAt <= Upper(sel)
  {
  }

  /** A feeding that is neither in the window nor among the five of the query is earlier than each of
      the five latest that are. */
  lemma LeftOutIsEarlier(all: seq<Feeding>, sel: Selector, recent: set<Id>, list: seq<Candidate>, f: Feeding,
      x: Candidate)
    requires sel.feedingId.None? && AllApart(all) && IsTopFive(recent, all, Upper(sel))
    requires FiveLatest(list, CandidateSet(Locked(all, sel, recent)))
    requires f in all && f.occurredAt <= Upper(sel) && !IsLocked(f, sel, recent)
    ensures |list| == MAX_CANDIDATES && (x in list ==> f.occurredAt < x.occurredAt)
  {
    FilterIs(all, (f: Feeding) => IsLocked(f, sel, recent));
    if |list| < MAX_CANDIDATES {
      RecentAreListed(all, sel, recent, list, f);
      IdsCount(list);
      SubsetCount(recent, Ids(list));
    }
    if x in list {
      assert x in Members(list);
      var h :| h in Locked(all, sel, recent) && CandidateOf(h) == x;
      assert IsLocked(h, sel, recent) && h != f;
    }
  }

  lemma RecentAreListed(all: seq<Feeding>, sel: Selector, recent: set<Id>, list: seq<Candidate>, f: Feeding)
    requires sel.feedingId.None? && AllApart(all) && IsTopFive(recent, all, Upper(sel))
    requires FiveLatest(list, CandidateSet(Locked(all, sel, recent)))
    requires f in all && f.occurredAt <= Upper(sel) && !IsLocked(f, sel, recent)
    requires |list| < MAX_CANDIDATES
    ensures recent <= Ids(list)
  {
    var locked := Locked(all, sel, recent);
    FilterIs(all, (f: Feeding) => IsLocked(f, sel, recent));
    forall id | id in recent ensures id in Ids(list) {
      var g :| g in all && g.id == id && g.occurredAt <= Upper(sel);
      assert g in locked && CandidateOf(g) in CandidateSet(locked);
      assert CandidateOf(g) in list;
    }
  }

  /** When nothing matches and no two feedings are at the same time, the list that is offered is that
      of the five latest feedings not after the upper bound, as if none had been filtered out. */
  lemma NoneListIsFiveLatest(all: seq<Feeding>, sel: Selector, recent: set<Id>)
    requires sel.feedingId.None? && AllApart(all) && IsTopFive(recent, all, Upper(sel))
    requires Select(all, sel).NoneFound?
    ensures SelectLocked(all, sel, recent) == NoneFound(Recent(UpTo(all, Upper(sel))))
    ensures FiveLatest(Recent(UpTo(all, Upper(sel))), CandidateSet(UpTo(all, Upper(sel))))
  {
    var upper := Upper(sel);
    var p, q := (f: Feeding) => f.occurredAt <= upper, (f: Feeding) => IsLocked(f, sel, recent);
    LockedSelectsTheSame(all, sel, recent);
    FilteredApart(all, p);
    FilteredApart(all, q);
    RecentIsFiveLatest(UpTo(all, upper));
    RecentIsFiveLatest(Locked(all, sel, recent));
    LockedFiveAreFive(all, sel, recent, Recent(Locked(all, sel, recent)));
    FiveLatestUnique(Recent(Locked(all, sel, recent)), Recent(UpTo(all, upper)), CandidateSet(UpTo(all, upper)));
  }
}
