/** Stored feedings over whole runs of creations, updates and reports: the generated note follows the
    details, a person's note is never touched, and the details stay valid. */
module FeedingRows {
  import opened Options
  import opened Texts
  import opened FeedingDetails
  import opened FeedingReports
  import opened FeedingNotes

  /** An activity kind: a feeding, a stored alias of it, or another kind. */
  datatype Kind = Feeding | FeedingAlias | OtherKind(name: string)

  function NormalizeKind(k: Kind): Kind { if k.FeedingAlias? then Feeding else k }

  datatype Activity = Activity(
    kind: Kind, subject: string, note: string, details: Details, occurredAt: Time, updatedAt: Time)

  datatype UpdateFields = UpdateFields(
    kind: Option<Kind>, subject: Option<string>, note: Option<string>, patch: Patch, occurredAt: Option<Time>)

  /** What ValidateDetails demands besides the rules of a feeding: the size of the details, the range
      of their numbers, and the rules of the other kinds. */
  type Rules = (Kind, Details) -> bool

  predicate Accepts(rules: Rules, kind: Kind, d: Details) {
    rules(kind, d) && (NormalizeKind(kind).Feeding? ==> ValidFeeding(d))
  }

  /** The keys that only a report may set. */
  const REPORTED_KEYS: set<string> := {LEFTOVER, REPORTED_AT, OUTCOME, EXPIRED}

  predicate NoReport(keys: set<string>) { keys !! REPORTED_KEYS }

  // -------------------------------------------------------------- update

  function Resulting(a: Activity, f: UpdateFields): Kind { GetOr(f.kind, NormalizeKind(a.kind)) }

  predicate PassesRules(a: Activity, f: UpdateFields, rules: Rules) {
    (f.kind.Some? || f.patch != map[]) ==> Accepts(rules, Resulting(a, f), Patched(a.details, f.patch))
  }

  /** prepareDetailsUpdate with the hook of feedings: the fields to write, if the update may be made. */
  function Prepared(a: Activity, f: UpdateFields, rules: Rules): Option<UpdateFields> {
    var stored := NormalizeKind(a.kind);
    var merged := Patched(a.details, f.patch);
    if !Resulting(a, f).Feeding? then
      if PassesRules(a, f, rules) then Some(f) else None
    else if !NoReport(if stored.Feeding? then f.patch.Keys else merged.Keys) then None
    else if !PassesRules(a, f, rules) then None
    else if f.note.None? && IsGenerated(a.subject, a.details, a.note) then
      Some(f.(note := Some(NoteOf(GetOr(f.subject, a.subject), merged))))
    else Some(f)
  }

  method FindReportedKey(keys: set<string>) returns (found: bool)
    ensures found <==> !NoReport(keys)
  {
    var reported := [LEFTOVER, REPORTED_AT, OUTCOME, EXPIRED];
    for i := 0 to |reported|
      invariant forall j :: 0 <= j < i ==> reported[j] !in keys
    {
      if reported[i] in keys {
        assert reported[i] in REPORTED_KEYS;
        return true;
      }
    }
    assert forall k :: k in REPORTED_KEYS ==>
      k == reported[0] || k == reported[1] || k == reported[2] || k == reported[3];
    return false;
  }

  method PrepareDetailsUpdate(a: Activity, f: UpdateFields, rules: Rules) returns (r: Option<UpdateFields>)
    ensures r == Prepared(a, f, rules)
  {
    var stored := NormalizeKind(a.kind);
    var kind := if f.kind.Some? then f.kind.value else stored;
    var merged := ApplyDetailsPatch(a.details, f.patch);
    if !kind.Feeding? {
      if (f.kind.Some? || |f.patch| > 0) && !Accepts(rules, kind, merged) { return None; }
      return Some(f);
    }
    var found := FindReportedKey(if stored.Feeding? then f.patch.Keys else merged.Keys);
    if found { return None; }
    if (f.kind.Some? || |f.patch| > 0) && !Accepts(rules, kind, merged) { return None; }
    if f.note.None? && IsGenerated(a.subject, a.details, a.note) {
      var subject := if f.subject.Some? then f.subject.value else a.subject;
      var note := FeedingNote(subject, merged);
      return Some(f.(note := Some(note)));
    }
    return Some(f);
  }

  /** The row after an update: what was given is written, trimmed. */
  function Written(a: Activity, f: UpdateFields, now: Time): Activity {
    Activity(GetOr(f.kind, a.kind),
             if f.subject.Some? then Trim(f.subject.value) else a.subject,
             if f.note.Some? then Trim(f.note.value) else a.note,
             Patched(a.details, f.patch), GetOr(f.occurredAt, a.occurredAt), now)
  }

  predicate WritesNothing(f: UpdateFields) {
    f.kind.None? && f.subject.None? && f.note.None? && f.patch == map[] && f.occurredAt.None?
  }

  /** applyUpdate: the details are merged by the SQL expression. */
  method ApplyUpdate(a: Activity, f: UpdateFields, now: Time) returns (r: Option<Activity>)
    ensures r == if WritesNothing(f) then None else Some(Written(a, f, now))
  {
    if f.kind.None? && f.subject.None? && f.note.None? && |f.patch| == 0 && f.occurredAt.None? { return None; }
    var row := a.(updatedAt := now);
    if f.kind.Some? { row := row.(kind := f.kind.value); }
    if f.subject.Some? { row := row.(subject := Trim(f.subject.value)); }
    if f.note.Some? { row := row.(note := Trim(f.note.value)); }
    if f.occurredAt.Some? { row := row.(occurredAt := f.occurredAt.value); }
    if |f.patch| > 0 {
      var set_, remove := DetailsPatchExpr(f.patch);
      row := row.(details := SqlMerge(a.details, set_, remove));
    } else {
      PatchedOnce(a.details, Patched(a.details, f.patch), a.details, f.patch);
    }
    return Some(row);
  }

  /** UpdateLocked */
  function UpdateRow(a: Activity, f: UpdateFields, rules: Rules, now: Time): Option<Activity> {
    var p := Prepared(a, f, rules);
    if p.None? || WritesNothing(p.value) then None else Some(Written(a, p.value, now))
  }

  // -------------------------------------------------------------- report

  /** ReportFeeding on the feeding that was picked. */
  function ReportRow(a: Activity, r: Report, at: Time, leftoverFirst: bool, now: Time): Option<Activity> {
    var o := ApplyReport(a.details, r, at, leftoverFirst);
    if o.Rejected? then None
    else if !o.changed then Some(a)
    else
      var note := if IsGenerated(a.subject, a.details, a.note) then NoteOf(a.subject, o.details) else a.note;
      Some(a.(details := o.details, note := note, updatedAt := now))
  }

  // ------------------------------------------------------------ creation

  function Base(d: Details): Details { d - REPORTED_KEYS }

  /** splitFeedingReport */
  function ReportIn(d: Details): Report {
    Report(ToInt(Get(d, LEFTOVER)), ToInt(Get(d, EXPIRED)), StringOf(Get(d, OUTCOME)))
  }

  predicate HasReport(d: Details) { LEFTOVER in d || EXPIRED in d || OUTCOME in d }

  /** What a person sends to create a feeding. */
  datatype Input = Input(subject: string, details: Details, note: string, occurredAt: Time)

  /** createDetails for a feeding: the stored details and note, or nothing. */
  function Created(i: Input, at: Time, rules: Rules, leftoverFirst: bool, now: Time): Option<Activity> {
    var d, note := i.details, Trim(i.note);
    if REPORTED_AT in d || !Accepts(rules, Feeding, d) then None
    else if VOLUME !in d then
      if HasReport(d) || note == "" then None else Some(Activity(Feeding, i.subject, note, d, i.occurredAt, now))
    else
      var o := if HasReport(d) then ApplyReport(Base(d), ReportIn(d), at, leftoverFirst) else Reported(d, true);
      if o.Rejected? then None
      else
        Some(Activity(Feeding, i.subject, if note == "" then NoteOf(i.subject, o.details) else note, o.details,
                      i.occurredAt, now))
  }

  /** A created feeding with a volume and no note of its own carries the generated one. */
  lemma CreatedIsGenerated(i: Input, at: Time, rules: Rules, leftoverFirst: bool, now: Time)
    requires VOLUME in i.details && Trim(i.note) == ""
    ensures var a := Created(i, at, rules, leftoverFirst, now);
      a.Some? ==> IsGenerated(a.value.subject, a.value.details, a.value.note)
  {
    var a := Created(i, at, rules, leftoverFirst, now);
    if a.Some? { NoteIsStable(i.subject, a.value.details); }
  }

  /** Splitting the report off and merging it in again gives back the details, with an expired amount
      of zero when finished. */
  lemma SplitMerges(d: Details, k: string)
    requires ValidFeeding(d) && REPORTED_AT !in d && !ExpiredAfter(Base(d), ReportIn(d)).Bad?
    ensures Get(Merged(Base(d), ReportIn(d)), k) ==
      if k == EXPIRED && StringOf(Get(d, OUTCOME)) == FINISHED then Some(Int(0)) else Get(d, k)
  {
  }

  /** A report on a feeding that has none yet changes something, and is stamped. */
  lemma FirstReport(base: Details, r: Report, at: Time, leftoverFirst: bool)
    requires NoReport(base.Keys)
    ensures var o := ApplyReport(base, r, at, leftoverFirst);
      o.Reported? ==>
        && ValidFeeding(o.details) && o.changed && !ExpiredAfter(base, r).Bad?
        && o.details == Merged(base, r)[REPORTED_AT := Stamp(at)]
  {
  }

  /** A created feeding has the details that were sent, plus the time of the report and, when
      finished, an expired amount of zero; and they are valid. */
  lemma CreationKeepsDetails(i: Input, at: Time, rules: Rules, leftoverFirst: bool, now: Time, k: string)
    ensures var a, d := Created(i, at, rules, leftoverFirst, now), i.details;
      a.Some? ==>
        && ValidFeeding(a.value.details)
        && Get(a.value.details, k) ==
          if k == REPORTED_AT then (if HasReport(d) then Some(Stamp(at)) else None)
          else if k == EXPIRED && StringOf(Get(d, OUTCOME)) == FINISHED then Some(Int(0))
          else Get(d, k)
  {
    var a, d := Created(i, at, rules, leftoverFirst, now), i.details;
    if a.Some? && VOLUME in d && HasReport(d) {
      FirstReport(Base(d), ReportIn(d), at, leftoverFirst);
      SplitMerges(d, k);
    }
  }

  // ---------------------------------------------------------------- runs

  datatype Step =
    | UpdateStep(fields: UpdateFields, now: Time)
    | ReportStep(report: Report, at: Time, leftoverFirst: bool, now: Time)

  /** A step that is refused leaves the row as it is; reports reach rows of the very kind only. */
  function Apply(a: Activity, step: Step, rules: Rules): Activity {
    match step
    case UpdateStep(f, now) => GetOr(UpdateRow(a, f, rules, now), a)
    case ReportStep(r, at, leftoverFirst, now) =>
      if a.kind.Feeding? then GetOr(ReportRow(a, r, at, leftoverFirst, now), a) else a
  }

  function Run(a: Activity, steps: seq<Step>, rules: Rules): Activity {
    if steps == [] then a else Apply(Run(a, steps[..|steps| - 1], rules), steps[|steps| - 1], rules)
  }

  predicate NoteLess(step: Step) { step.UpdateStep? ==> step.fields.note.None? }

  /** The service normalizes the kind it is given. */
  predicate StaysFeeding(step: Step) { step.UpdateStep? && step.fields.kind.Some? ==> step.fields.kind.value.Feeding? }

  ghost predicate All(steps: seq<Step>) {
    forall i :: 0 <= i < |steps| ==> NoteLess(steps[i]) && StaysFeeding(steps[i])
  }

  predicate Generated(a: Activity) { IsGenerated(a.subject, a.details, a.note) }

  lemma WrittenNoteFollows(a: Activity, f: UpdateFields, rules: Rules, now: Time)
    requires Generated(a) && f.note.None? && NormalizeKind(a.kind).Feeding? && (f.kind.Some? ==> f.kind.value.Feeding?)
    ensures var b := UpdateRow(a, f, rules, now); b.Some? ==> Generated(b.value) && NormalizeKind(b.value.kind).Feeding?
  {
    NoteIsStable(GetOr(f.subject, a.subject), Patched(a.details, f.patch));
  }

  lemma ReportedNoteFollows(a: Activity, r: Report, at: Time, leftoverFirst: bool, now: Time)
    requires Generated(a)
    ensures var b := ReportRow(a, r, at, leftoverFirst, now); b.Some? ==> Generated(b.value) && b.value.kind == a.kind
  {
    var o := ApplyReport(a.details, r, at, leftoverFirst);
    if o.Reported? { NoteIsStable(a.subject, o.details); }
  }

  /** Over any run of note-less updates and reports, a row that stays a feeding and had the generated
      note keeps it: the note is always the one of its present subject and details. */
  lemma {:induction false} NoteFollowsDetails(a: Activity, steps: seq<Step>, rules: Rules)
    requires Generated(a) && NormalizeKind(a.kind).Feeding? && All(steps)
    ensures var b := Run(a, steps, rules); Generated(b) && NormalizeKind(b.kind).Feeding?
  {
    if steps != [] {
      var front, last := steps[..|steps| - 1], steps[|steps| - 1];
      assert All(front);
      NoteFollowsDetails(a, front, rules);
      var b := Run(a, front, rules);
      match last
      case UpdateStep(f, now) => WrittenNoteFollows(b, f, rules, now);
      case ReportStep(r, at, leftoverFirst, now) => ReportedNoteFollows(b, r, at, leftoverFirst, now);
    }
  }

  /** No note-less step of any run alters a note that is not the generated one of the stored row. */
  lemma PersonsNoteStays(a: Activity, steps: seq<Step>, rules: Rules, i: nat)
    requires i < |steps| && NoteLess(steps[i]) && !Generated(Run(a, steps[..i], rules))
    ensures Run(a, steps[..i + 1], rules).note == Run(a, steps[..i], rules).note
  {
    assert steps[..i + 1][..i] == steps[..i];
  }

  /** The details of a feeding stay valid over every run, and only reports touch the reported keys. */
  lemma {:induction false} DetailsStayValid(a: Activity, steps: seq<Step>, rules: Rules)
    requires NormalizeKind(a.kind).Feeding? && ValidFeeding(a.details)
    requires forall i :: 0 <= i < |steps| ==> StaysFeeding(steps[i])
    ensures var b := Run(a, steps, rules); NormalizeKind(b.kind).Feeding? && ValidFeeding(b.details)
  {
    if steps != [] {
      var front, last := steps[..|steps| - 1], steps[|steps| - 1];
      DetailsStayValid(a, front, rules);
      var b := Run(a, front, rules);
      match last
      case UpdateStep(f, now) => UpdateStaysValid(b, f, rules, now);
      case ReportStep(r, at, leftoverFirst, now) => ReportYieldsValidIff(b.details, r, at, leftoverFirst);
    }
  }

  lemma UpdateStaysValid(a: Activity, f: UpdateFields, rules: Rules, now: Time)
    requires NormalizeKind(a.kind).Feeding? && ValidFeeding(a.details) && (f.kind.Some? ==> f.kind.value.Feeding?)
    ensures var b := UpdateRow(a, f, rules, now);
      b.Some? ==> NormalizeKind(b.value.kind).Feeding? && ValidFeeding(b.value.details)
  {
  }

  lemma OneStep(a: Activity, step: Step, rules: Rules)
    ensures Run(a, [step], rules) == Apply(a, step, rules)
  {
    assert [step][..0] == [];
    assert Run(a, [step][..0], rules) == a;
  }

  lemma SubjectStays(a: Activity, step: Step, rules: Rules)
    requires step.UpdateStep? ==> step.fields.subject.None?
    ensures Apply(a, step, rules).subject == a.subject
  {
  }

  /** A step without a note and a subject changes the generated note exactly if it changes what the
      note shows: a person who reads only the notes misses no change of volume, outcome or amount. */
  lemma NoteChangesIff(a: Activity, step: Step, rules: Rules)
    requires NormalizeKind(a.kind).Feeding? && ValidFeeding(a.details) && Generated(a)
    requires NoteLess(step) && StaysFeeding(step) && (step.UpdateStep? ==> step.fields.subject.None?)
    ensures var b := Apply(a, step, rules); b.note == a.note <==> ShownIn(b.details) == ShownIn(a.details)
  {
    OneStep(a, step, rules);
    NoteFollowsDetails(a, [step], rules);
    DetailsStayValid(a, [step], rules);
    SubjectStays(a, step, rules);
    NoteTellsShown(a.subject, Run(a, [step], rules).details, a.details);
  }

  /** An update of a feeding never changes a reported value; a record that becomes a feeding has none. */
  lemma UpdatesNeverReport(a: Activity, f: UpdateFields, rules: Rules, now: Time, k: string)
    requires k in REPORTED_KEYS && Resulting(a, f).Feeding?
    ensures var b := UpdateRow(a, f, rules, now);
      b.Some? ==> Get(b.value.details, k) == if NormalizeKind(a.kind).Feeding? then Get(a.details, k) else None
  {
    if NoReport(f.patch.Keys) { assert k !in f.patch; }
    if NoReport(Patched(a.details, f.patch).Keys) { assert k !in Patched(a.details, f.patch); }
  }

  /** An update that goes through writes each field that is given, trimmed where it is a text, and the
      time of the update; the fields that are not given stay. */
  lemma UpdateWrites(a: Activity, f: UpdateFields, rules: Rules, now: Time)
    ensures var b := UpdateRow(a, f, rules, now);
      b.Some? ==>
        && b.value.kind == (if f.kind.Some? then f.kind.value else a.kind)
        && b.value.subject == (if f.subject.Some? then Trim(f.subject.value) else a.subject)
        && (f.note.Some? ==> b.value.note == Trim(f.note.value))
        && b.value.occurredAt == (if f.occurredAt.Some? then f.occurredAt.value else a.occurredAt)
        && b.value.updatedAt == now
        && IsPatched(b.value.details, a.details, f.patch)
  {
  }

  /** None of the keys that only a report may set is among these. */
  predicate NotReported(keys: set<string>) {
    "leftover_ml" !in keys && "leftover_reported_at" !in keys && "outcome" !in keys && "expired_ml" !in keys
  }

  /** An update goes through if and only if it writes something, a generated note of its own counted;
      the rules accept the merged details when the kind or the details are given; and a record that
      results in a feeding gets no reported key, in the update or at all if it was none before. */
  lemma UpdateGoesIff(a: Activity, f: UpdateFields, rules: Rules, now: Time)
    ensures
      var kind := if f.kind.Some? then f.kind.value else if a.kind == FeedingAlias then Feeding else a.kind;
      var merged := Patched(a.details, f.patch);
      UpdateRow(a, f, rules, now).Some? <==>
        && (f.kind.Some? || f.subject.Some? || f.note.Some? || f.patch != map[] || f.occurredAt.Some?
            || (kind == Feeding && IsGenerated(a.subject, a.details, a.note)))
        && (f.kind.Some? || f.patch != map[] ==>
              rules(kind, merged) && (kind == Feeding || kind == FeedingAlias ==> ValidFeeding(merged)))
        && (kind == Feeding ==>
              NotReported(if a.kind == Feeding || a.kind == FeedingAlias then f.patch.Keys else merged.Keys))
  {
    ReportedKeysAre(f.patch.Keys);
    ReportedKeysAre(Patched(a.details, f.patch).Keys);
  }

  lemma ReportedKeysAre(keys: set<string>)
    ensures NoReport(keys) <==> NotReported(keys)
  {
    assert forall k :: k in REPORTED_KEYS <==> k in ["leftover_ml", "leftover_reported_at", "outcome", "expired_ml"];
  }

  /** A report that is accepted writes the merged details and, if they differ, the time of the change
      and the note that follows them; a refused one writes nothing. */
  lemma ReportWrites(a: Activity, r: Report, at: Time, leftoverFirst: bool, now: Time)
    ensures var o, b := ApplyReport(a.details, r, at, leftoverFirst), ReportRow(a, r, at, leftoverFirst, now);
      && (b.Some? <==> o.Reported?)
      && (b.Some? ==>
            && b.value.details == o.details
            && b.value.kind == a.kind && b.value.subject == a.subject && b.value.occurredAt == a.occurredAt
            && b.value.updatedAt == (if o.details == a.details then a.updatedAt else now)
            && (o.details != a.details && IsGenerated(a.subject, a.details, a.note) ==>
                  IsGenerated(a.subject, o.details, b.value.note))
            && (o.details == a.details || !IsGenerated(a.subject, a.details, a.note) ==> b.value.note == a.note))
  {
    OverwritesImpliesChanged(a.details, r, at, leftoverFirst);
    ReportStamps(a.details, r, at, leftoverFirst, "");
    NoteIsStable(a.subject, GetOr(ReportRow(a, r, at, leftoverFirst, now), a).details);
    ChangedDetailsDiffer(a.details, r, at, leftoverFirst);
  }

  lemma ChangedDetailsDiffer(current: Details, r: Report, at: Time, leftoverFirst: bool)
    ensures var o := ApplyReport(current, r, at, leftoverFirst); o.Reported? ==> (o.changed <==> o.details != current)
  {
    OverwritesImpliesChanged(current, r, at, leftoverFirst);
  }

  /** A feeding is created if and only if the rules accept its details, which name no time of a report,
      and it either has a volume or else no report and a note of its own; a reported expired amount needs
      the outcome that goes with it. */
  lemma CreatedIff(i: Input, at: Time, rules: Rules, leftoverFirst: bool, now: Time)
    ensures var d := i.details;
      Created(i, at, rules, leftoverFirst, now).Some? <==>
        && "leftover_reported_at" !in d && rules(Feeding, d) && ValidFeeding(d)
        && ("volume_ml" !in d ==> NotReported(d.Keys) && Trim(i.note) != "")
        && ("expired_ml" in d ==> "outcome" in d && (d["outcome"] == Text("finished") ==> d["expired_ml"] == Int(0)))
  {
    var d := i.details;
    if REPORTED_AT !in d && ValidFeeding(d) && VOLUME in d && HasReport(d) {
      var base, r := Base(d), ReportIn(d);
      assert ValidFeeding(base);
      assert Stored(base, VOLUME) == Stored(d, VOLUME);
      var expired :=
        if OUTCOME !in d then None else if d[OUTCOME] == Text(FINISHED) then Some(0) else Stored(d, EXPIRED);
      ReportAcceptedIff(base, r, at, leftoverFirst);
      assert forall e :: AsksExpired(base, r, e) ==> e == expired;
      assert Fit(Stored(base, VOLUME), LeftoverWanted(base, r), expired);
      assert AsksExpired(base, r, expired) <==>
        (EXPIRED in d ==> OUTCOME in d && (d[OUTCOME] == Text(FINISHED) ==> d[EXPIRED] == Int(0)));
    }
  }

  /** The time that the last update of the run gave, when it went through, or else the time before. */
  function LastTime(a: Activity, steps: seq<Step>, rules: Rules): Time {
    if steps == [] then a.occurredAt
    else
      var front, last := steps[..|steps| - 1], steps[|steps| - 1];
      if last.UpdateStep? && last.fields.occurredAt.Some?
         && UpdateRow(Run(a, front, rules), last.fields, rules, last.now).Some? then last.fields.occurredAt.value
      else LastTime(a, front, rules)
  }

  /** Over every run the time of a feeding is the last that an update gave it; no report moves it. */
  lemma {:induction false} TimeIsTheLastGiven(a: Activity, steps: seq<Step>, rules: Rules)
    ensures Run(a, steps, rules).occurredAt == LastTime(a, steps, rules)
  {
    if steps != [] {
      var front, last := steps[..|steps| - 1], steps[|steps| - 1];
      TimeIsTheLastGiven(a, front, rules);
      if last.UpdateStep? { UpdateWrites(Run(a, front, rules), last.fields, rules, last.now); }
    }
  }

  /** A created feeding is at the time and of the subject that were sent. */
  lemma CreationKeepsTime(i: Input, at: Time, rules: Rules, leftoverFirst: bool, now: Time)
    ensures var a := Created(i, at, rules, leftoverFirst, now);
      a.Some? ==>
        && a.value.kind == Feeding && a.value.subject == i.subject && a.value.occurredAt == i.occurredAt
        && (Trim(i.note) != "" ==> a.value.note == Trim(i.note))
  {
  }
}
