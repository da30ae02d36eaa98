/** Merging a leftover or outcome report into the details of a feeding. */
module FeedingReports {
  import opened Options
  import opened FeedingDetails

  datatype Report = Report(leftover: Option<int>, expired: Option<int>, outcome: string)

  /** The merged details and whether anything changed, or the field that is complained about. */
  datatype Outcome = Reported(details: Details, changed: bool) | Rejected(field: string)

  predicate Negative(o: Option<int>) { o.Some? && o.value < 0 }

  /** The checks of the report alone. The two amounts are checked in no particular order. */
  function ReportProblem(r: Report, leftoverFirst: bool): Option<string> {
    if r.leftover.None? && r.outcome == "" then Some("report")
    else if r.outcome != "" && r.outcome != FINISHED && r.outcome != EXPIRED_OUTCOME then Some(OUTCOME)
    else if Negative(r.leftover) && (leftoverFirst || !Negative(r.expired)) then Some(LEFTOVER)
    else if Negative(r.expired) then Some(EXPIRED)
    else None
  }

  /** The expired amount that the report leaves behind, or a complaint about it. */
  datatype Amount = Removed | Is(n: int) | Bad

  function ExpiredAfter(current: Details, r: Report): Amount {
    if r.outcome == "" then
      if r.expired.Some? then Bad else Removed
    else if r.outcome == FINISHED then
      if r.expired.Some? && r.expired.value != 0 then Bad else Is(0)
    else if r.expired.Some? then Is(r.expired.value)
    else
      var stored := ToInt(Get(current, EXPIRED));
      if stored.None? || (StringOf(Get(current, OUTCOME)) == FINISHED && stored.value == 0) then Bad
      else Is(stored.value)
  }

  function LeftoverAfter(current: Details, r: Report): Option<Value> {
    if r.leftover.Some? then Some(Int(r.leftover.value)) else Get(current, LEFTOVER)
  }

  /** The reported values after the merge, and every other key as it was. */
  ghost predicate IsMerge(next: Details, current: Details, r: Report) {
    && Get(next, LEFTOVER) == LeftoverAfter(current, r)
    && Get(next, OUTCOME) == (if r.outcome == "" then None else Some(Text(r.outcome)))
    && Get(next, EXPIRED) == (if ExpiredAfter(current, r).Is? then Some(Int(ExpiredAfter(current, r).n)) else None)
    && (forall k :: k != LEFTOVER && k != OUTCOME && k != EXPIRED ==> Get(next, k) == Get(current, k))
  }

  function Merged(current: Details, r: Report): (next: Details)
    ensures IsMerge(next, current, r)
  {
    var expired := ExpiredAfter(current, r);
    Patched(current, map[
      LEFTOVER := LeftoverAfter(current, r),
      OUTCOME := if r.outcome == "" then None else Some(Text(r.outcome)),
      EXPIRED := if expired.Is? then Some(Int(expired.n)) else None])
  }

  predicate SameReport(current: Details, next: Details) {
    && SameInt(Get(current, LEFTOVER), Get(next, LEFTOVER))
    && StringOf(Get(current, OUTCOME)) == StringOf(Get(next, OUTCOME))
    && SameInt(Get(current, EXPIRED), Get(next, EXPIRED))
  }

  function ApplyReport(current: Details, r: Report, at: Time, leftoverFirst: bool): Outcome {
    var problem := ReportProblem(r, leftoverFirst);
    if problem.Some? then Rejected(problem.value)
    else if ExpiredAfter(current, r).Bad? then Rejected(EXPIRED)
    else
      var next := Merged(current, r);
      if !ValidFeeding(next) then Rejected(FeedingProblem(next).value)
      else if SameReport(current, next) then Reported(current, false)
      else if && SameInt(Get(current, LEFTOVER), Get(next, LEFTOVER))
              && StringOf(Get(current, OUTCOME)) == StringOf(Get(next, OUTCOME)) then
        Reported(next, true)
      else Reported(next[REPORTED_AT := Stamp(at)], true)
  }

  /** The edits of the copied details, key by key; None if the expired amount is refused. */
  method EditCopy(current: Details, r: Report) returns (edited: Option<Details>)
    requires r.outcome == "" || r.outcome == FINISHED || r.outcome == EXPIRED_OUTCOME
    ensures edited == if ExpiredAfter(current, r).Bad? then None else Some(Merged(current, r))
  {
    var next := ApplyDetailsPatch(current, map[]);
    assert next == current;
    if r.leftover.Some? { next := next[LEFTOVER := Int(r.leftover.value)]; }
    if r.outcome == "" {
      if r.expired.Some? { return None; }
      next := next - {OUTCOME};
      next := next - {EXPIRED};
    } else if r.outcome == FINISHED {
      if r.expired.Some? && r.expired.value != 0 { return None; }
      next := next[OUTCOME := Text(FINISHED)];
      next := next[EXPIRED := Int(0)];
    } else {
      next := next[OUTCOME := Text(EXPIRED_OUTCOME)];
      if r.expired.Some? {
        next := next[EXPIRED := Int(r.expired.value)];
      } else {
        var stored := ToInt(Get(current, EXPIRED));
        if stored.None? || (StringOf(Get(current, OUTCOME)) == FINISHED && stored.value == 0) { return None; }
        next := next[EXPIRED := Int(stored.value)];
      }
    }
    MergeIsUnique(next, Merged(current, r), current, r);
    return Some(next);
  }

  /** ApplyFeedingReport, which edits a copy of the details. */
  method ApplyFeedingReport(current: Details, r: Report, reportedAt: Time, leftoverFirst: bool) returns (o: Outcome)
    ensures o == ApplyReport(current, r, reportedAt, leftoverFirst)
  {
    if r.leftover.None? && r.outcome == "" { return Rejected("report"); }
    if r.outcome != "" && r.outcome != FINISHED && r.outcome != EXPIRED_OUTCOME { return Rejected(OUTCOME); }
    if leftoverFirst && Negative(r.leftover) { return Rejected(LEFTOVER); }
    if Negative(r.expired) { return Rejected(EXPIRED); }
    if Negative(r.leftover) { return Rejected(LEFTOVER); }
    var edited := EditCopy(current, r);
    if edited.None? { return Rejected(EXPIRED); }
    var next := edited.value;
    var problem := FeedingProblem(next);
    if problem.Some? { return Rejected(problem.value); }
    var leftoverChanged := !SameInt(Get(current, LEFTOVER), Get(next, LEFTOVER));
    var outcomeChanged := StringOf(Get(current, OUTCOME)) != StringOf(Get(next, OUTCOME));
    var expiredChanged := !SameInt(Get(current, EXPIRED), Get(next, EXPIRED));
    if !leftoverChanged && !outcomeChanged && !expiredChanged {
      var copy := ApplyDetailsPatch(current, map[]);
      assert copy == current;
      return Reported(copy, false);
    }
    if leftoverChanged || outcomeChanged { next := next[REPORTED_AT := Stamp(reportedAt)]; }
    return Reported(next, true);
  }

  lemma MergeIsUnique(a: Details, b: Details, current: Details, r: Report)
    requires IsMerge(a, current, r) && IsMerge(b, current, r)
    ensures a == b
  {
    forall k ensures Get(a, k) == Get(b, k) {
      assert k == LEFTOVER || k == OUTCOME || k == EXPIRED || Get(a, k) == Get(current, k) == Get(b, k);
    }
    forall k ensures (k in a <==> k in b) && (k in a ==> a[k] == b[k]) {
      assert Get(a, k) == Get(b, k);
    }
  }

  // ------------------------------------------------------------ theorems

  /** Stored values that count as "nothing reported" and that a report without an outcome would
      remove: an outcome that is not a non-empty string, an amount that is not a whole number. */
  predicate Junk(current: Details) {
    || (OUTCOME in current && StringOf(Get(current, OUTCOME)) == "")
    || (EXPIRED in current && ToInt(Get(current, EXPIRED)).None?)
  }

  /** A successful report that changes something yields valid details. */
  lemma ChangedIsValid(current: Details, r: Report, at: Time, leftoverFirst: bool)
    ensures var o := ApplyReport(current, r, at, leftoverFirst);
      o.Reported? && o.changed ==> ValidFeeding(o.details)
  {
    var o := ApplyReport(current, r, at, leftoverFirst);
    if o.Reported? && o.changed {
      var next := Merged(current, r);
      assert forall k :: k != REPORTED_AT ==> Get(o.details, k) == Get(next, k);
      SameKeysSameRules(next, o.details);
    }
  }

  lemma SameKeysSameRules(a: Details, b: Details)
    requires ValidFeeding(a) && (REPORTED_AT in b ==> b[REPORTED_AT].Stamp?)
    requires forall k :: k != REPORTED_AT ==> Get(b, k) == Get(a, k)
    ensures ValidFeeding(b)
  {
    assert Get(b, VOLUME) == Get(a, VOLUME) && Get(b, LEFTOVER) == Get(a, LEFTOVER);
    assert Get(b, EXPIRED) == Get(a, EXPIRED) && Get(b, OUTCOME) == Get(a, OUTCOME);
  }

  /** The report names no outcome and repeats the stored leftover of details that hold, as far as the
      merge reads them, no outcome and no expired amount. */
  predicate Repeats(current: Details, r: Report) {
    && r.outcome == "" && r.leftover.Some? && ToInt(Get(current, LEFTOVER)) == Some(r.leftover.value)
    && StringOf(Get(current, OUTCOME)) == "" && ToInt(Get(current, EXPIRED)).None?
  }

  /** Exactly when a successful report yields valid details; both sides of the condition can be
      checked before the call. */
  lemma ReportYieldsValidIff(current: Details, r: Report, at: Time, leftoverFirst: bool)
    ensures var o := ApplyReport(current, r, at, leftoverFirst);
      o.Reported? ==> (ValidFeeding(o.details) <==> !(Repeats(current, r) && Junk(current)))
  {
    var o := ApplyReport(current, r, at, leftoverFirst);
    if o.Reported? && o.changed {
      ChangedIsValid(current, r, at, leftoverFirst);
    } else if o.Reported? && !Junk(current) {
      UnchangedIsMerge(current, r);
    }
  }

  lemma UnchangedIsMerge(current: Details, r: Report)
    requires SameReport(current, Merged(current, r)) && !Junk(current) && !ExpiredAfter(current, r).Bad?
    requires ValidFeeding(Merged(current, r))
    ensures Merged(current, r) == current
  {
  }

  /** The condition is needed: an outcome that is no string survives an unchanged leftover report. */
  lemma JunkSurvives()
    ensures var current: Details, r := map[LEFTOVER := Int(30), OUTCOME := Opaque(0)], Report(Some(30), None, "");
      && Repeats(current, r) && Junk(current)
      && ApplyReport(current, r, 0, true) == Reported(current, false) && !ValidFeeding(current)
  {
    var current: Details := map[LEFTOVER := Int(30), OUTCOME := Opaque(0)];
    var next := Merged(current, Report(Some(30), None, ""));
    assert Get(next, VOLUME) == Get(current, VOLUME) && Get(next, REPORTED_AT) == Get(current, REPORTED_AT);
    assert Get(next, EXPIRED) == None && Get(next, OUTCOME) == None && Get(next, LEFTOVER) == Some(Int(30));
    assert ValidFeeding(next);
  }

  /** Valid details hold no junk, so only details that were stored without validation can be such. */
  lemma ValidHasNoJunk(d: Details)
    requires ValidFeeding(d)
    ensures !Junk(d)
  {
  }

  /** What the report asks for is what is stored afterwards. */
  predicate Holds(d: Details, r: Report) {
    && (r.leftover.Some? ==> Get(d, LEFTOVER) == Some(Int(r.leftover.value)))
    && StringOf(Get(d, OUTCOME)) == r.outcome
    && (r.outcome == FINISHED ==> Get(d, EXPIRED) == Some(Int(0)))
    && (r.outcome == "" ==> ToInt(Get(d, EXPIRED)).None?)
    && (r.expired.Some? ==> Get(d, EXPIRED) == Some(Int(r.expired.value)))
  }

  lemma ReportHolds(current: Details, r: Report, at: Time, leftoverFirst: bool)
    ensures var o := ApplyReport(current, r, at, leftoverFirst);
      o.Reported? ==>
        && Holds(o.details, r) && ReportProblem(r, leftoverFirst).None?
        && (r.outcome == EXPIRED_OUTCOME ==> ToInt(Get(o.details, EXPIRED)).Some?)
        && !ExpiredAfter(o.details, r).Bad?
  {
    var o := ApplyReport(current, r, at, leftoverFirst);
    if o.Reported? {
      var next := Merged(current, r);
      if o.changed {
        assert Get(o.details, LEFTOVER) == Get(next, LEFTOVER);
        assert Get(o.details, OUTCOME) == Get(next, OUTCOME);
        assert Get(o.details, EXPIRED) == Get(next, EXPIRED);
      }
    }
  }

  /** Whole numbers as they are stored. */
  function Stored(d: Details, k: string): Option<int> { if k in d && d[k].Int? then Some(d[k].n) else None }

  /** The expired amount that a report asks for: none without an outcome, zero when finished, and when
      milk expired the given amount or the stored one, unless that is the zero of a finished feeding. */
  predicate AsksExpired(current: Details, r: Report, expired: Option<int>) {
    if r.outcome == "" then r.expired == None && expired == None
    else if r.outcome == "finished" then (r.expired == None || r.expired == Some(0)) && expired == Some(0)
    else if r.outcome == "expired" then
      if r.expired.Some? then expired == r.expired
      else
        && expired.Some? && expired == Stored(current, "expired_ml")
        && !("outcome" in current && current["outcome"] == Text("finished") && expired == Some(0))
    else false
  }

  /** Amounts within the limits, expired <= leftover <= volume where they are known. */
  predicate Fit(volume: Option<int>, leftover: Option<int>, expired: Option<int>) {
    && (leftover.Some? ==> 0 <= leftover.value <= 100_000)
    && (expired.Some? ==> 0 <= expired.value <= 100_000)
    && (leftover.Some? && volume.Some? ==> leftover.value <= volume.value)
    && (expired.Some? && volume.Some? ==> expired.value <= volume.value)
    && (expired.Some? && leftover.Some? ==> expired.value <= leftover.value)
  }

  function LeftoverWanted(current: Details, r: Report): Option<int> {
    if r.leftover.Some? then r.leftover else Stored(current, "leftover_ml")
  }

  /** A report on valid details is accepted if and only if it says something, asks for an expired amount
      that its outcome allows, and the amounts then fit. */
  lemma ReportAcceptedIff(current: Details, r: Report, at: Time, leftoverFirst: bool)
    requires ValidFeeding(current)
    ensures ApplyReport(current, r, at, leftoverFirst).Reported? <==>
      && (r.leftover.Some? || r.outcome != "")
      && (r.expired.Some? ==> r.expired.value >= 0)
      && exists expired :: AsksExpired(current, r, expired)
           && Fit(Stored(current, "volume_ml"), LeftoverWanted(current, r), expired)
  {
    var next := Merged(current, r);
    var expired := if ExpiredAfter(current, r).Is? then Some(ExpiredAfter(current, r).n) else None;
    assert forall e :: AsksExpired(current, r, e) ==> e == expired;
    assert Get(next, VOLUME) == Get(current, VOLUME) && Get(next, REPORTED_AT) == Get(current, REPORTED_AT);
    if ReportProblem(r, leftoverFirst).None? && !ExpiredAfter(current, r).Bad? {
      assert AsksExpired(current, r, expired);
      MergedFits(current, r, expired);
    }
  }

  lemma MergedFits(current: Details, r: Report, expired: Option<int>)
    requires ValidFeeding(current) && AsksExpired(current, r, expired)
    requires Get(Merged(current, r), VOLUME) == Get(current, VOLUME)
    requires Get(Merged(current, r), REPORTED_AT) == Get(current, REPORTED_AT)
    ensures ValidFeeding(Merged(current, r)) <==>
      Fit(Stored(current, "volume_ml"), LeftoverWanted(current, r), expired)
  {
    var next := Merged(current, r);
    assert Stored(next, EXPIRED) == expired && (EXPIRED in next <==> expired.Some?);
    assert Stored(next, LEFTOVER) == LeftoverWanted(current, r);
    assert LEFTOVER in next <==> LeftoverWanted(current, r).Some?;
  }

  /** The field that a refusal names: an empty report, then an unknown outcome, come first. */
  lemma ReportRefusals(current: Details, r: Report, at: Time, leftoverFirst: bool)
    ensures var o := ApplyReport(current, r, at, leftoverFirst);
      && (o == Rejected("report") <==> r.leftover == None && r.outcome == "")
      && (o == Rejected("outcome") <==> r.outcome !in ["", "finished", "expired"])
      && (r.outcome in ["", "finished", "expired"] && (r.leftover.Some? || r.outcome != "") ==>
            && (r.leftover.Some? && r.leftover.value < 0 && (r.expired.Some? ==> r.expired.value >= 0) ==>
                  o == Rejected("leftover_ml"))
            && (r.expired.Some? && r.expired.value < 0 && (r.leftover.Some? ==> r.leftover.value >= 0) ==>
                  o == Rejected("expired_ml")))
  {
    var next := Merged(current, r);
    assert Get(next, OUTCOME) == if r.outcome == "" then None else Some(Text(r.outcome));
  }

  /** The time of the report is stored exactly when the leftover or the outcome changes, and the keys
      that no report touches stay. */
  lemma ReportStamps(current: Details, r: Report, at: Time, leftoverFirst: bool, k: string)
    ensures var o := ApplyReport(current, r, at, leftoverFirst);
      o.Reported? ==>
        && Get(o.details, "leftover_reported_at") ==
             (if Stored(o.details, "leftover_ml") != Stored(current, "leftover_ml")
                 || StringOf(Get(o.details, "outcome")) != StringOf(Get(current, "outcome")) then Some(Stamp(at))
              else Get(current, "leftover_reported_at"))
        && (k !in ["leftover_ml", "outcome", "expired_ml", "leftover_reported_at"] ==>
              Get(o.details, k) == Get(current, k))
  {
    var o := ApplyReport(current, r, at, leftoverFirst);
    if o.Reported? && o.changed {
      var next := Merged(current, r);
      assert Get(o.details, LEFTOVER) == Get(next, LEFTOVER) && Get(o.details, OUTCOME) == Get(next, OUTCOME);
      assert Get(next, REPORTED_AT) == Get(current, REPORTED_AT);
    }
  }

  /** Reporting the same again, at any later time, succeeds and changes nothing. */
  lemma ReportIsIdempotent(current: Details, r: Report, at: Time, again: Time, leftoverFirst: bool)
    ensures var o := ApplyReport(current, r, at, leftoverFirst);
      o.Reported? ==> ApplyReport(o.details, r, again, leftoverFirst) == Reported(o.details, false)
  {
    var o := ApplyReport(current, r, at, leftoverFirst);
    if o.Reported? && o.changed {
      ReportHolds(current, r, at, leftoverFirst);
      ChangedIsValid(current, r, at, leftoverFirst);
      MergedAgain(o.details, current, r);
    }
  }

  lemma MergedAgain(d: Details, current: Details, r: Report)
    requires Holds(d, r) && !ExpiredAfter(d, r).Bad? && ReportProblem(r, true).None? && ValidFeeding(d)
    requires Get(d, OUTCOME) == (if r.outcome == "" then None else Some(Text(r.outcome)))
    requires r.outcome == "" ==> EXPIRED !in d
    ensures Merged(d, r) == d
  {
  }

  /** FeedingReportOverwrites: a reported value that existed before is another one now. */
  predicate Overwrites(previous: Details, next: Details) {
    || (LEFTOVER in previous && !SameInt(Get(previous, LEFTOVER), Get(next, LEFTOVER)))
    || (EXPIRED in previous && !SameInt(Get(previous, EXPIRED), Get(next, EXPIRED)))
    || (OUTCOME in previous && StringOf(Get(previous, OUTCOME)) != StringOf(Get(next, OUTCOME)))
  }

  /** A report that overwrites has changed something; one that changes something without overwriting
      has only added values that were not there before. */
  lemma OverwritesImpliesChanged(current: Details, r: Report, at: Time, leftoverFirst: bool)
    ensures var o := ApplyReport(current, r, at, leftoverFirst);
      o.Reported? ==>
        && (Overwrites(current, o.details) ==> o.changed)
        && (!o.changed ==> o.details == current)
        && (o.changed && !Overwrites(current, o.details) ==>
              || (LEFTOVER !in current && LEFTOVER in o.details)
              || (EXPIRED !in current && EXPIRED in o.details)
              || (OUTCOME !in current && OUTCOME in o.details))
  {
    var o := ApplyReport(current, r, at, leftoverFirst);
    if o.Reported? && o.changed {
      var next := Merged(current, r);
      assert Get(o.details, LEFTOVER) == Get(next, LEFTOVER);
      assert Get(o.details, OUTCOME) == Get(next, OUTCOME);
      assert Get(o.details, EXPIRED) == Get(next, EXPIRED);
    }
  }
}
