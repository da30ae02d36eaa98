/** Calendar recurrence over an arbitrary UTC-offset history.

    An instant is a number of nanoseconds, and a zone maps every instant to the UTC offset, in
    seconds, that is in force at it. A civil date is a day number and a wall clock is the number
    of nanoseconds since local midnight. */
module Recurrence {
  import opened Options

  const SECOND: int := 1_000_000_000
  const HOUR: int := 3_600_000_000_000
  const DAY: int := 86_400_000_000_000
  const HALF_HOUR: int := 1_800_000_000_000

  /** 47 h 30 min: the widest offset for which the half-hour search of two days is exhaustive.
      RFC 8536 (section 3.2) recommends offsets below 26 hours. */
  const MAX_SHIFT: int := 171_000_000_000_000

  type Zone = int -> int

  datatype Rule = Once | Daily | Weekly | UnknownRule

  datatype Error = InvalidTimezone | InvalidRecurrence | AmbiguousLocalTime | NonexistentLocalTime

  /** What one calendar date contributes: nothing, an instant, or an error. */
  datatype Decision = Skip | At(instant: int) | Failed(error: Error)

  datatype NextResult = NoNext | Next(instant: int) | NextError(error: Error)

  /** hour, minute, second and nanosecond of a local time */
  datatype WallClock = WallClock(hour: int, minute: int, second: int, nano: int)

  function Local(z: Zone, t: int): int { t + z(t) * 1_000_000_000 }

  function CivilDay(z: Zone, t: int): int { Local(z, t) / 86_400_000_000_000 }

  function Clock(z: Zone, t: int): int { Local(z, t) % 86_400_000_000_000 }

  function Wall(day: int, clock: int): int { day * 86_400_000_000_000 + clock }

  function ClockFields(c: int): WallClock {
    WallClock(c / 3_600_000_000_000, c / 60_000_000_000 % 60, c / 1_000_000_000 % 60, c % 1_000_000_000)
  }

  /** At t the local date and clock in z are the requested ones. */
  predicate ShowsWall(z: Zone, t: int, day: int, clock: int) {
    CivilDay(z, t) == day && Clock(z, t) == clock
  }

  /** wallClockPassed: field-by-field comparison of two local clocks. */
  predicate WallClockPassed(wall: WallClock, local: WallClock) {
    if local.hour != wall.hour then local.hour > wall.hour
    else if local.minute != wall.minute then local.minute > wall.minute
    else if local.second != wall.second then local.second > wall.second
    else local.nano >= wall.nano
  }

  // ---------------------------------------------------------------- zones

  ghost predicate Bounded(z: Zone) {
    forall t :: -171_000 <= z(t) <= 171_000
  }

  /** t lies in [a, b), at least half an hour long, over which the offset does not change. */
  ghost predicate InRegime(z: Zone, t: int, a: int, b: int) {
    a <= t < b && b - a >= 1_800_000_000_000 && forall u :: a <= u < b ==> z(u) == z(t)
  }

  ghost predicate HasRegime(z: Zone, t: int) { exists a, b :: InRegime(z, t, a, b) }

  ghost predicate Regimes(z: Zone) {
    forall t :: HasRegime(z, t)
  }

  /** The local civil date never runs backwards. */
  ghost predicate MonotoneDates(z: Zone) {
    forall t, u :: t <= u ==> CivilDay(z, t) <= CivilDay(z, u)
  }

  ghost predicate ZoneOk(z: Zone) { Bounded(z) && Regimes(z) }

  lemma ClockFieldsInjective(a: int, b: int)
    requires 0 <= a && 0 <= b
    ensures ClockFields(a) == ClockFields(b) <==> a == b
    ensures WallClockPassed(ClockFields(a), ClockFields(b)) <==> a <= b
  {
    ClockFieldsCompose(a);
    ClockFieldsCompose(b);
  }

  lemma ClockFieldsCompose(c: int)
    ensures var f := ClockFields(c);
      c == f.hour * 3_600_000_000_000 + f.minute * 60_000_000_000 + f.second * 1_000_000_000 + f.nano
      && 0 <= f.minute < 60 && 0 <= f.second < 60 && 0 <= f.nano < 1_000_000_000
  {
    var s := c / 1_000_000_000;
    var m := c / 60_000_000_000;
    assert m == s / 60;
    assert c / 3_600_000_000_000 == m / 60;
  }

  lemma ShowsWallIsLocal(z: Zone, t: int, day: int, clock: int)
    requires 0 <= clock < DAY
    ensures ShowsWall(z, t, day, clock) <==> Local(z, t) == Wall(day, clock)
  {
  }

  // ------------------------------------------------- the wall-time search

  /** Every instant whose local date and clock are the requested ones. */
  ghost function Matches(z: Zone, day: int, clock: int): set<int> {
    set t | Wall(day, clock) - 171_000_000_000_000 <= t <= Wall(day, clock) + 171_000_000_000_000
            && ShowsWall(z, t, day, clock) :: t
  }

  lemma MatchesAreAll(z: Zone, day: int, clock: int)
    requires Bounded(z) && 0 <= clock < DAY
    ensures forall t :: t in Matches(z, day, clock) <==> ShowsWall(z, t, day, clock)
  {
  }

  function Sample(wall: int, i: int): int { wall - 172_800_000_000_000 + i * 1_800_000_000_000 }

  /** The half-hour sampling of two days on either side meets the regime of every match. */
  lemma SamplingFindsOffset(z: Zone, t: int, day: int, clock: int)
    requires ZoneOk(z) && 0 <= clock < DAY && ShowsWall(z, t, day, clock)
    ensures exists i :: 0 <= i <= 192 && z(Sample(Wall(day, clock), i)) == z(t)
  {
    var wall := Wall(day, clock);
    ShowsWallIsLocal(z, t, day, clock);
    assert HasRegime(z, t);
    var a, b :| InRegime(z, t, a, b);
    var i := (t - Sample(wall, 0)) / 1_800_000_000_000;
    assert Sample(wall, i) <= t < Sample(wall, i + 1);
    if Sample(wall, i) >= a {
      assert z(Sample(wall, i)) == z(t);
    } else {
      assert z(Sample(wall, i + 1)) == z(t);
    }
  }

  function Candidate(wall: int, offset: int): int { wall - offset * 1_000_000_000 }

  /** wallTimeMatches: samples the offsets around the wall time, then tests one candidate for
      each offset, in whatever order the offsets come. */
  method WallTimeMatches(z: Zone, day: int, clock: int) returns (matches: seq<int>)
    requires ZoneOk(z) && 0 <= clock < DAY
    ensures Distinct(matches)
    ensures forall t :: t in matches <==> ShowsWall(z, t, day, clock)
  {
    var offsets: set<int> := {};
    for i := 0 to 193
      invariant forall j :: 0 <= j < i ==> z(Sample(Wall(day, clock), j)) in offsets
    {
      offsets := offsets + {z(Sample(Wall(day, clock), i))};
    }
    matches := TestCandidates(z, day, clock, offsets);
    forall t | ShowsWall(z, t, day, clock) ensures t in matches {
      SamplingFindsOffset(z, t, day, clock);
    }
  }

  method TestCandidates(z: Zone, day: int, clock: int, offsets: set<int>) returns (matches: seq<int>)
    requires 0 <= clock < DAY
    ensures Distinct(matches)
    ensures forall t :: t in matches <==> ShowsWall(z, t, day, clock) && z(t) in offsets
  {
    matches := [];
    var remaining := offsets;
    while remaining != {}
      invariant remaining <= offsets
      invariant Distinct(matches)
      invariant forall t :: t in matches <==> ShowsWall(z, t, day, clock) && z(t) in offsets - remaining
      decreases remaining
    {
      if forall o :: o !in remaining { assert false; }
      var offset: int :| offset in remaining;
      var candidate := Candidate(Wall(day, clock), offset);
      var passes := PassesTest(z, candidate, day, clock);
      OneCandidate(z, day, clock, offset);
      if passes {
        matches := matches + [candidate];
      }
      remaining := remaining - {offset};
    }
  }

  /** The only instant with this offset that can match is the candidate. */
  lemma OneCandidate(z: Zone, day: int, clock: int, offset: int)
    requires 0 <= clock < DAY
    ensures var c := Candidate(Wall(day, clock), offset);
      && (forall t :: z(t) == offset && ShowsWall(z, t, day, clock) ==> t == c)
      && (ShowsWall(z, c, day, clock) ==> z(c) == offset)
  {
  }

  /** The field-by-field test of a candidate. */
  predicate PassesTest(z: Zone, t: int, day: int, clock: int): (passes: bool)
    requires 0 <= clock < DAY
    ensures passes <==> ShowsWall(z, t, day, clock)
  {
    ClockFieldsInjective(Clock(z, t), clock);
    CivilDay(z, t) == day && ClockFields(Clock(z, t)) == ClockFields(clock)
  }

  lemma {:induction false} DistinctCount<T>(s: seq<T>)
    requires Distinct(s)
    ensures |set x | x in s| == |s|
  {
    if s == [] {
    } else {
      var rest := s[..|s| - 1];
      DistinctCount(rest);
      assert (set x | x in s) == (set x | x in rest) + {s[|s| - 1]};
    }
  }

  // ------------------------------------------------------------ one date

  /** What a date decides, said of the set of its matching instants. */
  ghost function Decide(z: Zone, day: int, clock: int, after: int): Decision {
    var m := Matches(z, day, clock);
    if m == {} then
      if CivilDay(z, after) == day && clock <= Clock(z, after) then Skip else Failed(NonexistentLocalTime)
    else if |m| == 1 then
      var t :| t in m; if t > after then At(t) else Skip
    else if |m| == 2 && forall t :: t in m ==> t <= after then Skip
    else Failed(AmbiguousLocalTime)
  }

  /** occurrenceOnDate */
  method OccurrenceOnDate(z: Zone, day: int, clock: int, after: int) returns (r: Decision)
    requires ZoneOk(z) && 0 <= clock < DAY
    ensures r == Decide(z, day, clock, after)
  {
    var matches := WallTimeMatches(z, day, clock);
    MatchesAreAll(z, day, clock);
    DistinctCount(matches);
    assert Matches(z, day, clock) == set t | t in matches;
    if |matches| == 0 {
      ClockFieldsInjective(clock, Clock(z, after));
      if CivilDay(z, after) == day && WallClockPassed(ClockFields(clock), ClockFields(Clock(z, after))) {
        return Skip;
      }
      return Failed(NonexistentLocalTime);
    } else if |matches| == 1 {
      assert Matches(z, day, clock) == {matches[0]};
      if matches[0] > after { return At(matches[0]); }
      return Skip;
    } else if |matches| == 2 {
      for i := 0 to 2
        invariant forall j :: 0 <= j < i ==> matches[j] <= after
      {
        if matches[i] > after {
          assert matches[i] in Matches(z, day, clock);
          return Failed(AmbiguousLocalTime);
        }
      }
      return Skip;
    }
    return Failed(AmbiguousLocalTime);
  }

  /** A date is passed over only if none of its matching instants is still to come, and only
      while it is not too far ahead of `after`. */
  lemma SkipMeansPast(z: Zone, day: int, clock: int, after: int)
    requires Bounded(z) && 0 <= clock < DAY && Decide(z, day, clock, after) == Skip
    ensures forall t :: ShowsWall(z, t, day, clock) ==> t <= after
    ensures Wall(day, clock) <= after + MAX_SHIFT
  {
    var m := Matches(z, day, clock);
    MatchesAreAll(z, day, clock);
    if m == {} {
      assert Wall(day, clock) <= Local(z, after);
    } else {
      if |m| == 1 { OnlyElement(m); }
      var t :| t in m;
      ShowsWallIsLocal(z, t, day, clock);
    }
  }

  // ------------------------------------------------------------ the steps

  function StepDays(rule: Rule, k: int): int { if rule.Weekly? then 7 * k else k }

  function StepDay(z: Zone, rule: Rule, start: int, k: int): int {
    CivilDay(z, start) + StepDays(rule, k)
  }

  /** The ceiling shortcut: the first step that NextOccurrence looks at. */
  function FirstStep(rule: Rule, daysAfterStart: int): nat {
    if daysAfterStart <= 0 then 0
    else if rule.Weekly? then daysAfterStart / 7 + (if daysAfterStart % 7 != 0 then 1 else 0)
    else daysAfterStart
  }

  lemma FirstStepIsCeiling(rule: Rule, days: int)
    ensures var s := FirstStep(rule, days);
      StepDays(rule, s) >= days && (s > 0 ==> StepDays(rule, s - 1) < days)
  {
  }

  /** What the dates of the steps decide, as a function of the step. */
  ghost function Decisions(z: Zone, rule: Rule, start: int, after: int): int -> Decision {
    (k: int) => Decide(z, StepDay(z, rule, start, k), Clock(z, start), after)
  }

  /** k is the first step from `from` on that is not passed over. */
  ghost predicate StopsAt(ds: int -> Decision, from: nat, k: nat) {
    k >= from && ds(k) != Skip && forall j :: from <= j < k ==> ds(j) == Skip
  }

  ghost function Stop(ds: int -> Decision, bound: nat, from: nat): (k: nat)
    requires forall j :: j >= bound ==> ds(j) != Skip
    ensures StopsAt(ds, from, k)
    decreases bound - from
  {
    if ds(from) != Skip then from else Stop(ds, bound, from + 1)
  }

  ghost function FarStep(z: Zone, start: int, after: int): nat {
    var far := (after + MAX_SHIFT) / 86_400_000_000_000 - CivilDay(z, start) + 1;
    if far < 0 then 0 else far
  }

  /** The offset is bounded, so a step far enough ahead always decides. */
  lemma EventuallyDecides(z: Zone, rule: Rule, start: int, after: int)
    requires Bounded(z)
    ensures forall j :: j >= FarStep(z, start, after) ==> Decisions(z, rule, start, after)(j) != Skip
  {
    forall j | j >= FarStep(z, start, after) ensures Decisions(z, rule, start, after)(j) != Skip {
      FarWall(CivilDay(z, start), StepDays(rule, j), Clock(z, start), after + MAX_SHIFT);
      FarDecides(z, StepDay(z, rule, start, j), Clock(z, start), after);
    }
  }

  lemma FarDecides(z: Zone, day: int, clock: int, after: int)
    requires Bounded(z) && 0 <= clock < DAY && Wall(day, clock) > after + MAX_SHIFT
    ensures Decide(z, day, clock, after) != Skip
  {
  }

  lemma FarWall(day: int, days: int, clock: int, limit: int)
    requires days >= limit / 86_400_000_000_000 - day + 1 && clock >= 0
    ensures Wall(day + days, clock) > limit
  {
  }

  /** firstFutureOccurrence: the loop without a bound terminates, since the offset is bounded. */
  method FirstFutureOccurrence(z: Zone, rule: Rule, start: int, after: int, first: nat)
    returns (r: Decision)
    requires ZoneOk(z)
    ensures exists k: nat ::
      StopsAt(Decisions(z, rule, start, after), first, k) && r == Decisions(z, rule, start, after)(k)
  {
    var step := first;
    while true
      invariant step >= first
      invariant forall j :: first <= j < step ==> Decisions(z, rule, start, after)(j) == Skip
      decreases after + MAX_SHIFT - Wall(StepDay(z, rule, start, step), Clock(z, start))
    {
      r := OccurrenceOnDate(z, StepDay(z, rule, start, step), Clock(z, start), after);
      if r != Skip {
        assert StopsAt(Decisions(z, rule, start, after), first, step);
        return;
      }
      SkipMeansPast(z, StepDay(z, rule, start, step), Clock(z, start), after);
      step := step + 1;
    }
  }

  ghost function Expected(timezone: string, zone: Option<Zone>, rule: Rule, start: int, after: int): NextResult
    requires zone.Some? ==> Bounded(zone.value)
  {
    if timezone == "Local" || zone.None? then NextError(InvalidTimezone)
    else if rule.Once? then NoNext
    else if rule.UnknownRule? then NextError(InvalidRecurrence)
    else
      match Search(zone.value, rule, start, after)
      case At(t) => Next(t)
      case Failed(e) => NextError(e)
      case Skip => NoNext
  }

  /** The step at which the search ends. */
  ghost function SearchStep(z: Zone, rule: Rule, start: int, after: int): (k: nat)
    requires Bounded(z)
    ensures StopsAt(Decisions(z, rule, start, after), FirstStep(rule, CivilDay(z, after) - CivilDay(z, start)), k)
  {
    EventuallyDecides(z, rule, start, after);
    Stop(Decisions(z, rule, start, after), FarStep(z, start, after),
      FirstStep(rule, CivilDay(z, after) - CivilDay(z, start)))
  }

  ghost function Search(z: Zone, rule: Rule, start: int, after: int): (d: Decision)
    requires Bounded(z)
    ensures d != Skip
  {
    Decisions(z, rule, start, after)(SearchStep(z, rule, start, after))
  }

  /** NextOccurrence; `zone` is the location that the timezone database has for the name. */
  method NextOccurrence(rule: Rule, start: int, after: int, timezone: string, zone: Option<Zone>)
    returns (r: NextResult)
    requires zone.Some? ==> ZoneOk(zone.value)
    ensures r == Expected(timezone, zone, rule, start, after)
    ensures r == NoNext <==> timezone != "Local" && zone.Some? && rule.Once?
    ensures r == NextError(InvalidTimezone) <==> timezone == "Local" || zone == None
    ensures r == NextError(InvalidRecurrence) <==> timezone != "Local" && zone.Some? && rule == UnknownRule
    ensures r.Next? && MonotoneDates(zone.value) ==> IsEarliest(zone.value, rule, start, after, r.instant)
  {
    if timezone == "Local" || zone.None? { return NextError(InvalidTimezone); }
    if rule.Once? { return NoNext; }
    if rule.UnknownRule? { return NextError(InvalidRecurrence); }
    var z := zone.value;
    var step := FirstStep(rule, CivilDay(z, after) - CivilDay(z, start));
    var d := FirstFutureOccurrence(z, rule, start, after, step);
    ghost var k: nat :| StopsAt(Decisions(z, rule, start, after), step, k) && d == Decisions(z, rule, start, after)(k);
    assert k == SearchStep(z, rule, start, after);
    if MonotoneDates(z) { NextIsEarliest(z, rule, start, after); }
    r := if d.At? then Next(d.instant) else NextError(d.error);
  }

  // ------------------------------------------------------- main theorems

  /** u shows the wall clock of `start` on the date of step k. */
  ghost predicate OnStep(z: Zone, rule: Rule, start: int, k: nat, u: int) {
    ShowsWall(z, u, StepDay(z, rule, start, k), Clock(z, start))
  }

  /** u is one of the instants that the recurrence names. */
  ghost predicate InSeries(z: Zone, rule: Rule, start: int, u: int) {
    exists k: nat :: OnStep(z, rule, start, k, u)
  }

  /** t is the earliest instant of the series strictly after `after`, and no other instant shows its
      wall time. */
  ghost predicate IsEarliest(z: Zone, rule: Rule, start: int, after: int, t: int) {
    && t > after && InSeries(z, rule, start, t)
    && (forall u :: u > after && InSeries(z, rule, start, u) ==> t <= u)
    && (forall u :: Local(z, u) == Local(z, t) ==> u == t)
  }

  /** Whatever the shortcut jumps over lies on a date before the date of `after`. */
  lemma SkippedDateIsPast(z: Zone, rule: Rule, start: int, after: int, j: nat, u: int)
    requires MonotoneDates(z) && OnStep(z, rule, start, j, u)
    requires j < FirstStep(rule, CivilDay(z, after) - CivilDay(z, start))
    ensures u <= after
  {
  }

  /** The search ends at the least step that is not past: every earlier step, including all those
      the shortcut never looks at, has no instant left. */
  lemma StepsBeforeArePast(z: Zone, rule: Rule, start: int, after: int, j: nat, u: int)
    requires Bounded(z) && MonotoneDates(z)
    requires j < SearchStep(z, rule, start, after) && OnStep(z, rule, start, j, u)
    ensures u <= after
  {
    if j < FirstStep(rule, CivilDay(z, after) - CivilDay(z, start)) {
      SkippedDateIsPast(z, rule, start, after, j, u);
    } else {
      assert Decisions(z, rule, start, after)(j) == Skip;
      SkipMeansPast(z, StepDay(z, rule, start, j), Clock(z, start), after);
    }
  }

  /** In this zone the search never passes over an instant that is still to come. */
  ghost predicate NothingSkipped(z: Zone)
    requires Bounded(z)
  {
    forall rule: Rule, start, after, j: nat, u ::
      j < SearchStep(z, rule, start, after) && OnStep(z, rule, start, j, u) ==> u <= after
  }

  /** A date that runs backwards does so from one instant to the next. */
  lemma {:induction false} DescentHasStep(z: Zone, t: int, u: int) returns (s: int)
    requires t <= u && CivilDay(z, t) > CivilDay(z, u)
    ensures CivilDay(z, s) > CivilDay(z, s + 1)
    decreases u - t
  {
    if CivilDay(z, u - 1) > CivilDay(z, u) { s := u - 1; } else { s := DescentHasStep(z, t, u - 1); }
  }

  /** Exactly in the zones whose civil date never runs backwards does NextOccurrence, for all rules,
      starts and times, pass over nothing that is still to come. */
  lemma NothingSkippedIff(z: Zone)
    requires Bounded(z)
    ensures NothingSkipped(z) <==> MonotoneDates(z)
  {
    if MonotoneDates(z) {
      forall rule: Rule, start, after, j: nat, u | j < SearchStep(z, rule, start, after) && OnStep(z, rule, start, j, u)
        ensures u <= after
      {
        StepsBeforeArePast(z, rule, start, after, j, u);
      }
    } else {
      var t, u :| t <= u && CivilDay(z, t) > CivilDay(z, u);
      var s := DescentHasStep(z, t, u);
      assert OnStep(z, Daily, s + 1, 0, s + 1);
      assert 0 < SearchStep(z, Daily, s + 1, s);
    }
  }

  /** NextOccurrence returns the earliest instant of the series strictly after `after`. */
  lemma NextIsEarliest(z: Zone, rule: Rule, start: int, after: int)
    requires ZoneOk(z) && MonotoneDates(z) && (rule.Daily? || rule.Weekly?)
    ensures var r := Search(z, rule, start, after); r.At? ==> IsEarliest(z, rule, start, after, r.instant)
  {
    var k := SearchStep(z, rule, start, after);
    var r := Search(z, rule, start, after);
    var day, clock := StepDay(z, rule, start, k), Clock(z, start);
    if r.At? {
      var t := r.instant;
      MatchesAreAll(z, day, clock);
      OnlyElement(Matches(z, day, clock));
      assert OnStep(z, rule, start, k, t);
      ShowsWallIsLocal(z, t, day, clock);
      forall u | Local(z, u) == Local(z, t) ensures u == t {
        ShowsWallIsLocal(z, u, day, clock);
      }
      forall u | u > after && InSeries(z, rule, start, u) ensures t <= u {
        var j: nat :| OnStep(z, rule, start, j, u);
        if j < k {
          StepsBeforeArePast(z, rule, start, after, j, u);
        } else if j == k {
          assert u == t;
        } else {
          assert CivilDay(z, u) > CivilDay(z, t);
        }
      }
    }
  }

  /** Step k is settled: nothing on it is still to come and it raises no error. */
  ghost predicate Settled(z: Zone, rule: Rule, start: int, after: int, k: nat) {
    var day, clock := StepDay(z, rule, start, k), Clock(z, start);
    var m := Matches(z, day, clock);
    || day < CivilDay(z, after)
    || (day == CivilDay(z, after) && |m| <= 2 && (forall t :: t in m ==> t <= after)
        && (m == {} ==> clock <= Clock(z, after)))
  }

  /** Exactly when NextOccurrence finds t: t is to come, is alone on the date of some step k, and
      every earlier step is settled. */
  lemma NextFoundIff(z: Zone, rule: Rule, start: int, after: int, t: int)
    requires ZoneOk(z) && MonotoneDates(z) && (rule.Daily? || rule.Weekly?)
    ensures Search(z, rule, start, after) == At(t) <==>
      exists k: nat ::
        && Matches(z, StepDay(z, rule, start, k), Clock(z, start)) == {t} && t > after
        && forall j: nat :: j < k ==> Settled(z, rule, start, after, j)
  {
    var k := SearchStep(z, rule, start, after);
    StepIsFirstUnsettled(z, rule, start, after);
    var clock := Clock(z, start);
    var m := Matches(z, StepDay(z, rule, start, k), clock);
    MatchesAreAll(z, StepDay(z, rule, start, k), clock);
    if Search(z, rule, start, after) == At(t) {
      OnlyElement(m);
      assert m == {t};
    }
    if i: nat :| && Matches(z, StepDay(z, rule, start, i), clock) == {t} && t > after
                 && forall j: nat :: j < i ==> Settled(z, rule, start, after, j) {
      MatchesAreAll(z, StepDay(z, rule, start, i), clock);
      assert t in Matches(z, StepDay(z, rule, start, i), clock);
      assert CivilDay(z, t) == StepDay(z, rule, start, i);
      assert !Settled(z, rule, start, after, i);
      assert i == k;
    }
  }

  /** Step k is the first that is not settled. */
  ghost predicate FirstUnsettled(z: Zone, rule: Rule, start: int, after: int, k: nat) {
    !Settled(z, rule, start, after, k) && forall j: nat :: j < k ==> Settled(z, rule, start, after, j)
  }

  /** And exactly when it fails, and how: on the first step that is not settled, no instant shows the
      wall time, or more than one does. */
  lemma NextFailsIff(z: Zone, rule: Rule, start: int, after: int)
    requires ZoneOk(z) && MonotoneDates(z) && (rule.Daily? || rule.Weekly?)
    ensures Search(z, rule, start, after) == Failed(NonexistentLocalTime) <==>
      exists k: nat :: FirstUnsettled(z, rule, start, after, k) && forall u :: !OnStep(z, rule, start, k, u)
    ensures Search(z, rule, start, after) == Failed(AmbiguousLocalTime) <==>
      exists k: nat, t, u ::
        && FirstUnsettled(z, rule, start, after, k)
        && t != u && OnStep(z, rule, start, k, t) && OnStep(z, rule, start, k, u)
    ensures Search(z, rule, start, after).Failed? ==>
      Search(z, rule, start, after).error in {NonexistentLocalTime, AmbiguousLocalTime}
  {
    var k := SearchStep(z, rule, start, after);
    StepIsFirstUnsettled(z, rule, start, after);
    assert FirstUnsettled(z, rule, start, after, k);
    assert forall i: nat :: FirstUnsettled(z, rule, start, after, i) ==> i == k;
    StepMatches(z, rule, start, k);
  }

  /** None, one or several instants show the wall time on step k. */
  lemma StepMatches(z: Zone, rule: Rule, start: int, k: nat)
    requires Bounded(z)
    ensures var m := Matches(z, StepDay(z, rule, start, k), Clock(z, start));
      && (forall u :: u in m <==> OnStep(z, rule, start, k, u))
      && (|m| == 1 <==> exists t :: m == {t})
      && (|m| > 1 <==> exists t, u :: t != u && OnStep(z, rule, start, k, t) && OnStep(z, rule, start, k, u))
  {
    var m := Matches(z, StepDay(z, rule, start, k), Clock(z, start));
    MatchesAreAll(z, StepDay(z, rule, start, k), Clock(z, start));
    if |m| == 1 {
      OnlyElement(m);
      var t :| t in m;
      assert m == {t};
    } else if |m| > 1 {
      var t :| t in m;
      assert |m - {t}| == |m| - 1;
      var u :| u in m - {t};
      assert OnStep(z, rule, start, k, t) && OnStep(z, rule, start, k, u);
    }
  }

  /** Where every date of the series shows its wall time exactly once, NextOccurrence never fails. */
  lemma RegularSeriesSucceeds(z: Zone, rule: Rule, start: int, after: int)
    requires Bounded(z)
    requires forall k: nat :: |Matches(z, StepDay(z, rule, start, k), Clock(z, start))| == 1
    ensures Search(z, rule, start, after).At?
  {
    var k := SearchStep(z, rule, start, after);
    assert |Matches(z, StepDay(z, rule, start, k), Clock(z, start))| == 1;
  }

  /** The step that decides the search is the least one that is not settled. */
  lemma StepIsFirstUnsettled(z: Zone, rule: Rule, start: int, after: int)
    requires Bounded(z) && MonotoneDates(z)
    ensures var k := SearchStep(z, rule, start, after);
      && !Settled(z, rule, start, after, k)
      && forall j: nat :: j < k ==> Settled(z, rule, start, after, j)
  {
    var days := CivilDay(z, after) - CivilDay(z, start);
    var first := FirstStep(rule, days);
    FirstStepIsCeiling(rule, days);
    var k := SearchStep(z, rule, start, after);
    SettledIffSkipped(z, rule, start, after, k);
    forall j: nat | j < k ensures Settled(z, rule, start, after, j) {
      if j >= first { SettledIffSkipped(z, rule, start, after, j); }
    }
  }

  lemma SettledIffSkipped(z: Zone, rule: Rule, start: int, after: int, k: nat)
    requires Bounded(z) && MonotoneDates(z) && StepDay(z, rule, start, k) >= CivilDay(z, after)
    ensures Settled(z, rule, start, after, k) <==> Decisions(z, rule, start, after)(k) == Skip
  {
    var day, clock := StepDay(z, rule, start, k), Clock(z, start);
    var m := Matches(z, day, clock);
    MatchesAreAll(z, day, clock);
    if |m| == 1 { OnlyElement(m); }
    if m != {} && forall t :: t in m ==> t <= after {
      var t :| t in m;
      assert CivilDay(z, t) <= CivilDay(z, after);
    }
  }

  // --------------------------------------------------- fixed-offset zones

  ghost predicate Fixed(z: Zone, offset: int) { forall t :: z(t) == offset }

  lemma FixedDecides(z: Zone, offset: int, rule: Rule, start: int, after: int, k: int)
    requires Bounded(z) && Fixed(z, offset)
    ensures var t := start + StepDays(rule, k) * DAY;
      Decisions(z, rule, start, after)(k) == if t > after then At(t) else Skip
  {
    var day, clock := StepDay(z, rule, start, k), Clock(z, start);
    var t := start + StepDays(rule, k) * DAY;
    MatchesAreAll(z, day, clock);
    forall u ensures u in Matches(z, day, clock) <==> u == t {
      ShowsWallIsLocal(z, u, day, clock);
    }
    assert Matches(z, day, clock) == {t};
  }

  /** With a fixed offset the result is the first multiple of the period after `after`, and the
      search looks at no more than two steps. */
  lemma FixedOffsetNext(z: Zone, offset: int, rule: Rule, start: int, after: int)
    requires Bounded(z) && Fixed(z, offset) && (rule.Daily? || rule.Weekly?)
    ensures
      var first := FirstStep(rule, CivilDay(z, after) - CivilDay(z, start));
      var k := FixedSteps(rule, start, after);
      && Search(z, rule, start, after) == At(start + StepDays(rule, k) * DAY)
      && first <= k <= first + 1
  {
    FixedSearch(z, offset, rule, start, after);
    DaysApart(Local(z, start), Local(z, after));
    FixedStepsIs(rule, start, after, CivilDay(z, after) - CivilDay(z, start), SearchStep(z, rule, start, after));
  }

  lemma FixedSearch(z: Zone, offset: int, rule: Rule, start: int, after: int)
    requires Bounded(z) && Fixed(z, offset)
    ensures
      var k := SearchStep(z, rule, start, after);
      var first := FirstStep(rule, CivilDay(z, after) - CivilDay(z, start));
      && Search(z, rule, start, after) == At(start + StepDays(rule, k) * DAY)
      && k >= first && start + StepDays(rule, k) * DAY > after
      && forall j :: first <= j < k ==> start + StepDays(rule, j) * DAY <= after
  {
    forall k ensures
      var t := start + StepDays(rule, k) * DAY;
      Decisions(z, rule, start, after)(k) == if t > after then At(t) else Skip
    {
      FixedDecides(z, offset, rule, start, after, k);
    }
  }

  lemma DaysApart(a: int, b: int)
    ensures var days := b / 86_400_000_000_000 - a / 86_400_000_000_000;
      (days - 1) * 86_400_000_000_000 < b - a < (days + 1) * 86_400_000_000_000
  {
  }

  lemma FixedStepsIs(rule: Rule, start: int, after: int, days: int, k: nat)
    requires (days - 1) * DAY < after - start < (days + 1) * DAY
    requires var first := FirstStep(rule, days);
      && k >= first && start + StepDays(rule, k) * DAY > after
      && (k > first ==> start + StepDays(rule, first) * DAY <= after)
      && (k > first + 1 ==> start + StepDays(rule, first + 1) * DAY <= after)
    ensures FirstStep(rule, days) <= k <= FirstStep(rule, days) + 1
    ensures k == FixedSteps(rule, start, after)
  {
  }

  /** How many whole periods after `start` the first instant after `after` is. */
  function FixedSteps(rule: Rule, start: int, after: int): int {
    if after < start then 0
    else if rule.Weekly? then (after - start) / 604_800_000_000_000 + 1
    else (after - start) / 86_400_000_000_000 + 1
  }

  // ------------------------------------- why dates must not run backwards

  /** One minute past midnight of day 1 the clock goes back one hour, into day 0 again. */
  function BackwardZone(t: int): int { if t < 86_460_000_000_000 then 0 else -3_600 }

  /** A half past eleven reminder, asked for at half a minute past midnight, skips the half past
      eleven that is still to come on the repeated evening. */
  lemma BackwardDateSkipsAnInstant()
    ensures
      var z: Zone := BackwardZone;
      var start := 23 * HOUR + HALF_HOUR;
      var after := DAY + 30 * SECOND;
      var missed := DAY + HALF_HOUR;
      && ZoneOk(z) && !MonotoneDates(z)
      && Search(z, Daily, start, after) == At(2 * DAY + HALF_HOUR)
      && missed > after && InSeries(z, Daily, start, missed)
  {
    var z: Zone := BackwardZone;
    var start, after, missed := 23 * HOUR + HALF_HOUR, DAY + 30 * SECOND, DAY + HALF_HOUR;
    forall t ensures HasRegime(z, t) {
      if t < 86_460_000_000_000 {
        assert InRegime(z, t, t - HALF_HOUR, 86_460_000_000_000);
      } else {
        assert InRegime(z, t, 86_460_000_000_000, t + HALF_HOUR);
      }
    }
    assert CivilDay(z, missed) < CivilDay(z, after);
    assert OnStep(z, Daily, start, 0, missed);
    var found := 2 * DAY + HALF_HOUR;
    MatchesAreAll(z, 1, Clock(z, start));
    forall u ensures u in Matches(z, 1, Clock(z, start)) <==> u == found {
      ShowsWallIsLocal(z, u, 1, Clock(z, start));
    }
    assert Matches(z, 1, Clock(z, start)) == {found};
    assert FirstStep(Daily, CivilDay(z, after) - CivilDay(z, start)) == 1;
  }
}
