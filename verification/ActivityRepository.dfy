/** The transactions on stored activities: a locked update, and a feeding report that locks the
    candidates, picks one, merges the report and writes the row. */
module ActivityRepository {
  import opened Options
  import opened FeedingDetails
  import opened FeedingReports
  import opened FeedingNotes
  import opened FeedingSelection
  import opened FeedingChoices
  import Rows = FeedingRows

  datatype Stored = Stored(spaceId: Id, activity: Rows.Activity)

  type Table = map<Id, Stored>

  predicate IsFeeding(t: Table, spaceId: Id, id: Id) {
    id in t && t[id].spaceId == spaceId && t[id].activity.kind.Feeding?
  }

  function FeedingOf(t: Table, id: Id): Feeding
    requires id in t
  {
    Feeding(id, t[id].activity.occurredAt, t[id].activity.details)
  }

  /** The live feedings of a space, in the order of their ids. */
  ghost predicate ListsFeedings(all: seq<Feeding>, t: Table, spaceId: Id) {
    && (forall i, j :: 0 <= i < j < |all| ==> all[i].id < all[j].id)
    && (forall f :: f in all ==> IsFeeding(t, spaceId, f.id) && f == FeedingOf(t, f.id))
    && (forall id :: IsFeeding(t, spaceId, id) ==> FeedingOf(t, id) in all)
  }

  /** The list holds each activity of the space and of the very kind, as it is stored, and nothing else. */
  lemma ListedAreStored(all: seq<Feeding>, t: Table, spaceId: Id, f: Feeding)
    requires ListsFeedings(all, t, spaceId)
    ensures f in all <==>
      && f.id in t && t[f.id].spaceId == spaceId && t[f.id].activity.kind == Rows.Feeding
      && f.occurredAt == t[f.id].activity.occurredAt && f.details == t[f.id].activity.details
  {
    assert IsFeeding(t, spaceId, f.id) ==> FeedingOf(t, f.id) in all;
  }

  /** The candidates that the locking query finds, given the listed feedings and the five latest. */
  ghost predicate AreLocked(
    locked: seq<Feeding>, t: Table, spaceId: Id, sel: Selector, all: seq<Feeding>, recent: set<Id>)
  {
    ListsFeedings(all, t, spaceId) && IsTopFive(recent, all, Upper(sel)) && locked == Locked(all, sel, recent)
  }

  datatype Result = NoTarget(choice: Choice) | Forbidden | Refused | Stays(id: Id) | Changes(id: Id)

  /** What a report makes of the table, given the choice of the feeding. */
  function ReportTx(t: Table, choice: Choice, mayMutate: set<Id>, r: Report, at: Time, leftoverFirst: bool, now: Time):
    (Table, Result)
  {
    if !choice.Chosen? || choice.feeding.id !in t then (t, NoTarget(choice))
    else
      var id := choice.feeding.id;
      if id !in mayMutate then (t, Forbidden)
      else
        var row := Rows.ReportRow(t[id].activity, r, at, leftoverFirst, now);
        if row.None? then (t, Refused)
        else (t[id := t[id].(activity := row.value)],
              if row.value.details == t[id].activity.details then Stays(id) else Changes(id))
  }

  class Repository {
    var rows: Table

    constructor ()
      ensures rows == map[]
    {
      rows := map[];
    }

    /** UpdateLocked */
    method UpdateLocked(spaceId: Id, id: Id, f: Rows.UpdateFields, rules: Rows.Rules, now: Time) returns (ok: bool)
      modifies this
      ensures ok <==>
        && id in old(rows) && old(rows)[id].spaceId == spaceId
        && Rows.UpdateRow(old(rows)[id].activity, f, rules, now).Some?
      ensures rows == if !ok then old(rows)
        else old(rows)[id := old(rows)[id].(activity := Rows.UpdateRow(old(rows)[id].activity, f, rules, now).value)]
    {
      if id !in rows || rows[id].spaceId != spaceId { return false; }
      var current := rows[id].activity;
      var prepared := Rows.PrepareDetailsUpdate(current, f, rules);
      if prepared.None? { return false; }
      var written := Rows.ApplyUpdate(current, prepared.value, now);
      if written.None? { return false; }
      rows := rows[id := rows[id].(activity := written.value)];
      return true;
    }

    method ListFeedings(spaceId: Id) returns (all: seq<Feeding>)
      ensures ListsFeedings(all, rows, spaceId)
    {
      all := [];
      var todo := set id | id in rows && IsFeeding(rows, spaceId, id);
      while todo != {}
        invariant forall id :: id in todo ==> IsFeeding(rows, spaceId, id)
        invariant forall i, j :: 0 <= i < j < |all| ==> all[i].id < all[j].id
        invariant forall f :: f in all ==> IsFeeding(rows, spaceId, f.id) && f == FeedingOf(rows, f.id)
        invariant forall f, id :: f in all && id in todo ==> f.id < id
        invariant forall id :: IsFeeding(rows, spaceId, id) && id !in todo ==> FeedingOf(rows, id) in all
        decreases todo
      {
        var least := Smallest(todo);
        all, todo := all + [FeedingOf(rows, least)], todo - {least};
      }
    }

    method Smallest(ids: set<Id>) returns (least: Id)
      requires ids != {}
      ensures least in ids && forall id :: id in ids ==> least <= id
    {
      if forall x :: x !in ids { assert false; }
      least :| least in ids;
      var todo := ids - {least};
      while todo != {}
        invariant todo <= ids && least in ids
        invariant forall id :: id in ids && id !in todo ==> least <= id
        decreases todo
      {
        if forall x :: x !in todo { assert false; }
        var id: Id :| id in todo;
        todo := todo - {id};
        if id < least { least := id; }
      }
    }

    /** The five latest up to the bound. */
    method LatestFive(all: seq<Feeding>, upper: Time) returns (recent: set<Id>)
      requires forall f, g :: f in all && g in all && f.id == g.id ==> f == g
      ensures IsTopFive(recent, all, upper)
    {
      recent := {};
      while |recent| < MAX_CANDIDATES
        invariant |recent| <= MAX_CANDIDATES
        invariant forall id :: id in recent ==> exists f :: f in all && f.id == id && f.occurredAt <= upper
        invariant forall f, g :: f in all && g in all && f.occurredAt <= upper && f.id !in recent && g.id in recent ==>
          f.occurredAt <= g.occurredAt
        decreases MAX_CANDIDATES - |recent|
      {
        var latest := LatestLeft(all, upper, recent);
        if latest.None? { return; }
        ghost var taken := recent;
        recent := recent + {latest.value.id};
        forall id | id in recent ensures exists f :: f in all && f.id == id && f.occurredAt <= upper {
          if id !in taken { assert latest.value.id == id; }
        }
      }
    }

    method LatestLeft(all: seq<Feeding>, upper: Time, taken: set<Id>) returns (latest: Option<Feeding>)
      ensures latest.None? ==> forall f :: f in all && f.occurredAt <= upper ==> f.id in taken
      ensures latest.Some? ==> latest.value in all && latest.value.occurredAt <= upper && latest.value.id !in taken
      ensures latest.Some? ==> forall f :: f in all && f.occurredAt <= upper && f.id !in taken ==>
        f.occurredAt <= latest.value.occurredAt
    {
      latest := None;
      for i := 0 to |all|
        invariant latest.None? ==> forall f :: f in all[..i] && f.occurredAt <= upper ==> f.id in taken
        invariant latest.Some? ==> latest.value in all && latest.value.occurredAt <= upper && latest.value.id !in taken
        invariant latest.Some? ==> forall f :: f in all[..i] && f.occurredAt <= upper && f.id !in taken ==>
          f.occurredAt <= latest.value.occurredAt
      {
        assert all[..i + 1] == all[..i] + [all[i]];
        var f := all[i];
        if f.occurredAt <= upper && f.id !in taken && (latest.None? || latest.value.occurredAt < f.occurredAt) {
          latest := Some(f);
        }
      }
      assert all[..|all|] == all;
    }

    /** lockFeedingCandidates */
    method LockFeedingCandidates(spaceId: Id, sel: Selector) returns (locked: seq<Feeding>)
      ensures exists all, recent :: AreLocked(locked, rows, spaceId, sel, all, recent)
    {
      var list := ListFeedings(spaceId);
      var five := LatestFive(list, Upper(sel));
      if sel.feedingId.Some? {
        locked := WithId(list, sel.feedingId.value);
      } else {
        locked := InWindow(list, sel, five);
      }
      assert AreLocked(locked, rows, spaceId, sel, list, five);
    }

    method WithId(list: seq<Feeding>, id: Id) returns (found: seq<Feeding>)
      ensures found == Filter(list, (f: Feeding) => f.id == id)
    {
      found := [];
      for i := 0 to |list|
        invariant found == Filter(list[..i], (f: Feeding) => f.id == id)
      {
        assert list[..i + 1][..i] == list[..i];
        if list[i].id == id { found := found + [list[i]]; }
      }
      assert list[..|list|] == list;
    }

    method InWindow(list: seq<Feeding>, sel: Selector, five: set<Id>) returns (found: seq<Feeding>)
      ensures found == Filter(list, (f: Feeding) => IsLocked(f, sel, five))
    {
      found := [];
      for i := 0 to |list|
        invariant found == Filter(list[..i], (f: Feeding) => IsLocked(f, sel, five))
      {
        assert list[..i + 1][..i] == list[..i];
        if IsLocked(list[i], sel, five) { found := found + [list[i]]; }
      }
      assert list[..|list|] == list;
    }

    /** ReportFeeding: the feeding that is chosen is the one that all the live feedings of the space
        would have given, and only its row changes. */
    method ReportFeeding(
      spaceId: Id, sel: Selector, mayMutate: set<Id>, r: Report, at: Time, leftoverFirst: bool, now: Time)
      returns (result: Result, ghost all: seq<Feeding>, ghost recent: set<Id>)
      modifies this
      ensures ListsFeedings(all, old(rows), spaceId) && IsTopFive(recent, all, Upper(sel))
      ensures (rows, result) ==
        ReportTx(old(rows), SelectLocked(all, sel, recent), mayMutate, r, at, leftoverFirst, now)
      ensures Select(all, sel).Chosen? ==> SelectLocked(all, sel, recent) == Select(all, sel)
      ensures WritesOnlyTheMeant(old(rows), rows, spaceId, all, sel, mayMutate)
    {
      var locked := LockFeedingCandidates(spaceId, sel);
      all, recent :| AreLocked(locked, rows, spaceId, sel, all, recent);
      LockedSelectsTheSame(all, sel, recent);
      WrittenIsMeant(rows, spaceId, sel, all, recent, mayMutate, r, at, leftoverFirst, now);
      if sel.feedingId.Some? && |locked| == 0 { return NoTarget(NotFound), all, recent; }
      var choice := SelectFeeding(locked, sel);
      if !choice.Chosen? { return NoTarget(choice), all, recent; }
      ChosenIsStored(rows, spaceId, sel, all, recent);
      if choice.feeding.id !in mayMutate { return Forbidden, all, recent; }
      result := WriteReport(choice.feeding, r, at, leftoverFirst, now);
    }

    /** The second half of ReportFeeding: merges the report and writes the chosen row. */
    method WriteReport(target: Feeding, r: Report, at: Time, leftoverFirst: bool, now: Time) returns (result: Result)
      requires target.id in rows && target == FeedingOf(rows, target.id)
      modifies this
      ensures (rows, result) == ReportTx(old(rows), Chosen(target), {target.id}, r, at, leftoverFirst, now)
    {
      var id := target.id;
      var row := rows[id].activity;
      var o := ApplyFeedingReport(target.details, r, at, leftoverFirst);
      if o.Rejected? { return Refused; }
      OverwritesImpliesChanged(row.details, r, at, leftoverFirst);
      if !o.changed {
        assert rows[id := rows[id].(activity := row)] == rows;
        return Stays(id);
      }
      var note := row.note;
      if IsGenerated(row.subject, row.details, row.note) {
        note := FeedingNote(row.subject, o.details);
      }
      ChangedDiffers(row.details, r, at, leftoverFirst);
      rows := rows[id := rows[id].(activity := row.(details := o.details, note := note, updatedAt := now))];
      return Changes(id);
    }
  }

  /** The answer tells what became of the table: it changes exactly when a feeding is said to change,
      and then in its details; a feeding that the caller may not change is refused before the report is
      looked at, and one that a valid report leaves as it is stays. */
  lemma ReportAnswers(t: Table, choice: Choice, mayMutate: set<Id>, r: Report, at: Time, leftoverFirst: bool, now: Time)
    requires choice.Chosen? ==> choice.feeding.id in t
    ensures
      var (t', result) := ReportTx(t, choice, mayMutate, r, at, leftoverFirst, now);
      && (result == NoTarget(choice) <==> !choice.Chosen?)
      && (t' != t <==> result.Changes?)
      && (choice.Chosen? ==>
            var id := choice.feeding.id;
            var o := ApplyReport(t[id].activity.details, r, at, leftoverFirst);
            && (result == Forbidden <==> id !in mayMutate)
            && (result == Refused <==> id in mayMutate && o.Rejected?)
            && (result == Stays(id) <==> id in mayMutate && o.Reported? && o.details == t[id].activity.details)
            && (result == Changes(id) <==> id in mayMutate && o.Reported? && o.details != t[id].activity.details)
            && (result == Changes(id) ==>
                  t'[id].activity.details == o.details && t' - {id} == t - {id} && t'[id].spaceId == t[id].spaceId))
  {
    if choice.Chosen? {
      var row := t[choice.feeding.id];
      ChangedDiffers(row.activity.details, r, at, leftoverFirst);
      OverwritesImpliesChanged(row.activity.details, r, at, leftoverFirst);
      assert t[choice.feeding.id := row.(activity := row.activity)] == t;
    }
  }

  /** A row that a report changes is a feeding of the space: the one with the given id; or, without an
      id, the only one within twenty minutes of the given time; or, without either, the only one that
      has no outcome and is at most three hours before the message. */
  ghost predicate WritesOnlyTheMeant(
    t: Table, t': Table, spaceId: Id, all: seq<Feeding>, sel: Selector, mayMutate: set<Id>)
  {
    && t'.Keys == t.Keys
    && forall id :: id in t && t'[id] != t[id] ==>
         && IsFeeding(t, spaceId, id) && id in mayMutate
         && (sel.feedingId.Some? ==> id == sel.feedingId.value)
         && (sel.feedingId.None? ==> exists i: nat :: OnlyMeantAt(all, sel, i) && all[i] == FeedingOf(t, id))
         && (sel.feedingId.None? && sel.feedingTime.Some? ==>
               && t[id].activity.occurredAt - sel.feedingTime.value <= 20 * MINUTE
               && sel.feedingTime.value - t[id].activity.occurredAt <= 20 * MINUTE)
         && (sel.feedingId.None? && sel.feedingTime.None? ==>
               && !HasOutcome(FeedingOf(t, id))
               && 0 <= sel.messageAt - t[id].activity.occurredAt <= 180 * MINUTE)
  }

  lemma WrittenIsMeant(t: Table, spaceId: Id, sel: Selector, all: seq<Feeding>, recent: set<Id>, mayMutate: set<Id>,
      r: Report, at: Time, leftoverFirst: bool, now: Time)
    requires ListsFeedings(all, t, spaceId) && IsTopFive(recent, all, Upper(sel))
    ensures var t' := ReportTx(t, SelectLocked(all, sel, recent), mayMutate, r, at, leftoverFirst, now).0;
      WritesOnlyTheMeant(t, t', spaceId, all, sel, mayMutate)
  {
    var choice := SelectLocked(all, sel, recent);
    if choice.Chosen? {
      LockedSelectsTheSame(all, sel, recent);
      var f := choice.feeding;
      ChosenIff(all, sel, f);
      ChosenIsListed(all, sel);
    }
  }

  /** The chosen feeding is a stored row. */
  lemma ChosenIsStored(t: Table, spaceId: Id, sel: Selector, all: seq<Feeding>, recent: set<Id>)
    requires ListsFeedings(all, t, spaceId)
    ensures var choice := Select(Locked(all, sel, recent), sel);
      choice.Chosen? ==> choice.feeding.id in t && choice.feeding == FeedingOf(t, choice.feeding.id)
  {
    ChosenIsListed(Locked(all, sel, recent), sel);
    if sel.feedingId.Some? {
      FilterIs(all, (f: Feeding) => f.id == sel.feedingId.value);
    } else {
      FilterIs(all, (f: Feeding) => IsLocked(f, sel, recent));
    }
  }

  lemma ChosenIsListed(feedings: seq<Feeding>, sel: Selector)
    ensures Select(feedings, sel).Chosen? ==> Select(feedings, sel).feeding in feedings
  {
    FilterIs(feedings, (f: Feeding) => sel.feedingId.Some? && f.id == sel.feedingId.value);
    if sel.feedingId.Some? {
      FilterIs(feedings, (f: Feeding) => f.id == sel.feedingId.value);
    } else {
      FilterIs(feedings, (f: Feeding) => Matches(f, sel));
    }
  }

  /** A report that says it changed something did. */
  lemma ChangedDiffers(current: Details, r: Report, at: Time, leftoverFirst: bool)
    ensures var o := ApplyReport(current, r, at, leftoverFirst);
      o.Reported? && o.changed ==> o.details != current
  {
  }
}
