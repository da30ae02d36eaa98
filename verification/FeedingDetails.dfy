/** The structured details of an activity: optional integers and strings under string keys, patches,
    the SQL expression that stands in for a patch, and the rules of a feeding. */
module FeedingDetails {
  import opened Options

  type Time = int

  /** A JSON value, as far as feedings look at it: a whole number, an RFC 3339 timestamp, any other
      string, or anything else. */
  datatype Value = Int(n: int) | Stamp(at: Time) | Text(s: string) | Opaque(tag: nat)

  type Details = map<string, Value>

  /** None stands for a null, which removes the key. */
  type Patch = map<string, Option<Value>>

  const MAX_FEEDING_ML: int := 100_000

  const VOLUME := "volume_ml"
  const LEFTOVER := "leftover_ml"
  const EXPIRED := "expired_ml"
  const OUTCOME := "outcome"
  const REPORTED_AT := "leftover_reported_at"

  const FINISHED := "finished"
  const EXPIRED_OUTCOME := "expired"

  // ---------------------------------------------------------- patches

  /** What a patch is meant to do, key by key. */
  ghost predicate IsPatched(out: Details, details: Details, patch: Patch) {
    forall k :: IsPatchedAt(out, details, patch, k)
  }

  predicate IsPatchedAt(out: Details, details: Details, patch: Patch, k: string) {
    if k in patch then
      if patch[k].None? then k !in out else k in out && out[k] == patch[k].value
    else if k in details then k in out && out[k] == details[k]
    else k !in out
  }

  function Patched(details: Details, patch: Patch): (out: Details)
    ensures IsPatched(out, details, patch)
  {
    map k | k in details.Keys + patch.Keys && (k in patch ==> patch[k].Some?) ::
      if k in patch then patch[k].value else details[k]
  }

  lemma PatchedOnce(a: Details, b: Details, details: Details, patch: Patch)
    requires IsPatched(a, details, patch) && IsPatched(b, details, patch)
    ensures a == b
  {
    forall k ensures (k in a <==> k in b) && (k in a ==> a[k] == b[k]) {
      assert IsPatchedAt(a, details, patch, k) && IsPatchedAt(b, details, patch, k);
    }
  }

  /** ApplyDetailsPatch: copies the details, then goes through the patch. */
  method ApplyDetailsPatch(details: Details, patch: Patch) returns (out: Details)
    ensures out == Patched(details, patch)
  {
    out := map[];
    var keys := details.Keys;
    while keys != {}
      invariant keys <= details.Keys && out.Keys == details.Keys - keys
      invariant forall k :: k in out ==> out[k] == details[k]
      decreases keys
    {
      var k :| k in keys;
      keys := keys - {k};
      out := out[k := details[k]];
    }
    assert out == details;
    keys := patch.Keys;
    while keys != {}
      invariant keys <= patch.Keys
      invariant forall k :: if k in keys then k in out <==> k in details else IsPatchedAt(out, details, patch, k)
      invariant forall k :: k in keys && k in out ==> out[k] == details[k]
      decreases keys
    {
      var k :| k in keys;
      keys := keys - {k};
      if patch[k].None? { out := out - {k}; } else { out := out[k := patch[k].value]; }
    }
    PatchedOnce(out, Patched(details, patch), details, patch);
  }

  /** (details || set) - remove, on jsonb */
  function SqlMerge(details: Details, set_: Details, remove: seq<string>): Details {
    (details + set_) - (set k | k in remove)
  }

  /** detailsPatchExpr: whatever the stored details, the SQL expression merges as the patch does. */
  method DetailsPatchExpr(patch: Patch) returns (set_: Details, remove: seq<string>)
    ensures forall details :: SqlMerge(details, set_, remove) == Patched(details, patch)
  {
    set_, remove := map[], [];
    var keys := patch.Keys;
    while keys != {}
      invariant keys <= patch.Keys
      invariant forall k :: k in set_ <==> k in patch && k !in keys && patch[k].Some?
      invariant forall k :: k in set_ ==> set_[k] == patch[k].value
      invariant forall k :: k in remove <==> k in patch && k !in keys && patch[k].None?
      decreases keys
    {
      var k :| k in keys;
      keys := keys - {k};
      if patch[k].None? { remove := remove + [k]; } else { set_ := set_[k := patch[k].value]; }
    }
    forall details ensures SqlMerge(details, set_, remove) == Patched(details, patch) {
      PatchedOnce(SqlMerge(details, set_, remove), Patched(details, patch), details, patch);
    }
  }

  // ------------------------------------------------------ feeding rules

  function Get(d: Details, k: string): Option<Value> { if k in d then Some(d[k]) else None }

  function ToInt(v: Option<Value>): Option<int> { if v.Some? && v.value.Int? then Some(v.value.n) else None }

  /** An RFC 3339 text; all that matters is that it is not empty and names no outcome. */
  const STAMP_TEXT := "2006-01-02T15:04:05Z"

  function StringOf(v: Option<Value>): string {
    if v.None? then ""
    else match v.value
      case Text(s) => s
      case Stamp(_) => STAMP_TEXT
      case _ => ""
  }

  /** sameInt: both are whole numbers and equal, or neither is one. */
  predicate SameInt(a: Option<Value>, b: Option<Value>) { ToInt(a) == ToInt(b) }

  /** optInt accepts the key: absent, or a whole number from min to the cap. */
  predicate OptIntOk(d: Details, k: string, min: int) {
    k in d ==> d[k].Int? && min <= d[k].n <= MAX_FEEDING_ML
  }

  predicate OutcomeOk(d: Details) {
    OUTCOME in d ==> d[OUTCOME] == Text(FINISHED) || d[OUTCOME] == Text(EXPIRED_OUTCOME)
  }

  predicate NoMore(d: Details, k: string, limit: string) {
    k in d && limit in d && d[k].Int? && d[limit].Int? ==> d[k].n <= d[limit].n
  }

  /** validateFeeding: the field of the first complaint. */
  function FeedingProblem(d: Details): (field: Option<string>)
    ensures field.None? <==> ValidFeeding(d)
  {
    if !OptIntOk(d, VOLUME, 1) then Some(VOLUME)
    else if !OptIntOk(d, LEFTOVER, 0) then Some(LEFTOVER)
    else if !OptIntOk(d, EXPIRED, 0) then Some(EXPIRED)
    else if REPORTED_AT in d && !d[REPORTED_AT].Stamp? then Some(REPORTED_AT)
    else if !OutcomeOk(d) then Some(OUTCOME)
    else if !NoMore(d, LEFTOVER, VOLUME) then Some(LEFTOVER)
    else if !NoMore(d, EXPIRED, VOLUME) then Some(EXPIRED)
    else if !NoMore(d, EXPIRED, LEFTOVER) then Some(EXPIRED)
    else if StringOf(Get(d, OUTCOME)) == EXPIRED_OUTCOME && EXPIRED !in d then Some(EXPIRED)
    else None
  }

  /** expired <= leftover <= volume and expired <= volume, where present; every amount a whole number
      in range; an expired feeding says how much. */
  predicate ValidFeeding(d: Details) {
    && OptIntOk(d, VOLUME, 1) && OptIntOk(d, LEFTOVER, 0) && OptIntOk(d, EXPIRED, 0)
    && (REPORTED_AT in d ==> d[REPORTED_AT].Stamp?)
    && OutcomeOk(d)
    && NoMore(d, LEFTOVER, VOLUME) && NoMore(d, EXPIRED, VOLUME) && NoMore(d, EXPIRED, LEFTOVER)
    && (OUTCOME in d && d[OUTCOME] == Text(EXPIRED_OUTCOME) ==> EXPIRED in d)
  }

  // ------------------------------------------------- text array literals

  /** pgTextArray: every element quoted, with quotes and backslashes escaped. */
  function EscapeElement(s: string): string {
    if s == [] then []
    else (if s[0] == '\\' || s[0] == '"' then ['\\', s[0]] else [s[0]]) + EscapeElement(s[1..])
  }

  function Quoted(e: string, rest: string): string { "\"" + (EscapeElement(e) + "\"" + rest) }

  function Elements(a: seq<string>): string
    requires a != []
  {
    Quoted(a[0], if |a| == 1 then "}" else "," + Elements(a[1..]))
  }

  function ArrayLiteral(a: seq<string>): string { if a == [] then "{}" else "{" + Elements(a) }

  /** How PostgreSQL reads a quoted element: up to the first quote that no backslash precedes; the
      result is the element and the rest of the literal. */
  function ReadElement(s: string): (r: Option<(string, string)>)
    ensures r.Some? ==> |r.value.1| < |s|
  {
    if s == [] then None
    else if s[0] == '"' then Some(("", s[1..]))
    else if s[0] == '\\' then
      if |s| < 2 then None
      else
        var r := ReadElement(s[2..]);
        if r.None? then None else Some(([s[1]] + r.value.0, r.value.1))
    else
      var r := ReadElement(s[1..]);
      if r.None? then None else Some(([s[0]] + r.value.0, r.value.1))
  }

  function ReadElements(s: string): (r: Option<seq<string>>)
    decreases |s|
  {
    if |s| == 0 || s[0] != '"' then None
    else
      var e := ReadElement(s[1..]);
      if e.None? || |e.value.1| == 0 then None
      else if e.value.1 == "}" then Some([e.value.0])
      else if e.value.1[0] != ',' then None
      else
        var rest := ReadElements(e.value.1[1..]);
        if rest.None? then None else Some([e.value.0] + rest.value)
  }

  function ReadArray(s: string): Option<seq<string>> {
    if s == "{}" then Some([])
    else if |s| == 0 || s[0] != '{' then None
    else ReadElements(s[1..])
  }

  lemma {:induction false} EscapedElementReads(s: string, rest: string)
    ensures ReadElement(EscapeElement(s) + "\"" + rest) == Some((s, rest))
  {
    if s == [] {
      assert EscapeElement(s) + "\"" + rest == "\"" + rest;
      assert ("\"" + rest)[1..] == rest;
    } else {
      EscapedElementReads(s[1..], rest);
      assert s == [s[0]] + s[1..];
      var tail := EscapeElement(s[1..]) + "\"" + rest;
      if s[0] == '\\' || s[0] == '"' {
        assert EscapeElement(s) + "\"" + rest == ['\\', s[0]] + tail;
        assert (['\\', s[0]] + tail)[2..] == tail;
      } else {
        assert EscapeElement(s) + "\"" + rest == [s[0]] + tail;
        assert ([s[0]] + tail)[1..] == tail;
      }
    }
  }

  lemma QuotedElementReads(e: string, rest: string)
    requires rest != "" && (rest == "}" || rest[0] == ',')
    ensures ReadElements(Quoted(e, rest)) ==
      if rest == "}" then Some([e])
      else
        var more := ReadElements(rest[1..]);
        if more.None? then None else Some([e] + more.value)
  {
    EscapedElementReads(e, rest);
    assert Quoted(e, rest)[1..] == EscapeElement(e) + "\"" + rest;
  }

  lemma {:induction false} ElementsRead(a: seq<string>)
    requires a != []
    ensures ReadElements(Elements(a)) == Some(a)
  {
    assert a == [a[0]] + a[1..];
    if |a| == 1 {
      assert a == [a[0]];
      QuotedElementReads(a[0], "}");
    } else {
      var more := Elements(a[1..]);
      assert ("," + more)[1..] == more;
      QuotedElementReads(a[0], "," + more);
      ElementsRead(a[1..]);
    }
  }

  /** Whatever the removed keys contain, PostgreSQL reads back the very keys. */
  lemma ArrayLiteralReads(a: seq<string>)
    ensures ReadArray(ArrayLiteral(a)) == Some(a)
  {
    if a != [] {
      ElementsRead(a);
      assert ArrayLiteral(a)[1..] == Elements(a);
      assert Elements(a)[0] == '"';
    }
  }
}
