/** The generated note of a feeding, rendered from its details. */
module FeedingNotes {
  import opened Options
  import opened Texts
  import opened FeedingDetails

  // ------------------------------------------------------------ numbers

  function Digit(d: int): char
    requires 0 <= d < 10
  {
    "0123456789"[d]
  }

  function Digits(n: nat): (s: string)
    ensures s != "" && forall i :: 0 <= i < |s| ==> '0' <= s[i] <= '9'
  {
    if n < 10 then [Digit(n)] else Digits(n / 10) + [Digit(n % 10)]
  }

  /** %d */
  function Decimal(n: int): string { if n < 0 then "-" + Digits(-n) else Digits(n) }

  // --------------------------------------------------------------- notes

  function Millilitres(word: string, n: int): (s: string)
    ensures s != "" && s[|s| - 1] == 'l'
  {
    word + " " + Decimal(n) + " ml"
  }

  /** The parts of the note of an outcome. */
  function OutcomeParts(
    volume: Option<int>, expired: Option<int>, leftover: Option<int>, outcome: string): seq<string>
  {
    if outcome == FINISHED then
      (if volume.Some? then [Millilitres("diminum", volume.value)] else []) + ["habis"]
    else if outcome == EXPIRED_OUTCOME then
      (if volume.Some? && expired.Some? then [Millilitres("diminum", volume.value - expired.value)] else [])
      + (if expired.Some? then [Millilitres("expired", expired.value)] else ["expired"])
    else if leftover.Some? then [Millilitres("sisa", leftover.value)]
    else []
  }

  function NoteParts(d: Details): seq<string> {
    var volume := ToInt(Get(d, VOLUME));
    (if volume.Some? then [Millilitres("volume", volume.value)] else [])
    + OutcomeParts(volume, ToInt(Get(d, EXPIRED)), ToInt(Get(d, LEFTOVER)), StringOf(Get(d, OUTCOME)))
  }

  function Join(parts: seq<string>): string
    requires parts != []
  {
    if |parts| == 1 then parts[0] else parts[0] + "; " + Join(parts[1..])
  }

  function Head(subject: string): string { Trim("Feeding " + Trim(subject)) }

  function NoteOf(subject: string, d: Details): string {
    if NoteParts(d) == [] then Head(subject) else Head(subject) + " — " + Join(NoteParts(d))
  }

  method AppendOutcome(volume: Option<int>, d: Details) returns (parts: seq<string>)
    ensures parts == OutcomeParts(volume, ToInt(Get(d, EXPIRED)), ToInt(Get(d, LEFTOVER)), StringOf(Get(d, OUTCOME)))
  {
    parts := [];
    var outcome := StringOf(Get(d, OUTCOME));
    if outcome == FINISHED {
      if volume.Some? { parts := [Millilitres("diminum", volume.value)]; }
      parts := parts + ["habis"];
    } else if outcome == EXPIRED_OUTCOME {
      var expired := ToInt(Get(d, EXPIRED));
      if volume.Some? && expired.Some? { parts := [Millilitres("diminum", volume.value - expired.value)]; }
      parts := parts + [if expired.Some? then Millilitres("expired", expired.value) else "expired"];
    } else {
      var leftover := ToInt(Get(d, LEFTOVER));
      if leftover.Some? { parts := [Millilitres("sisa", leftover.value)]; }
    }
  }

  /** FeedingNote */
  method FeedingNote(subject: string, d: Details) returns (note: string)
    ensures note == NoteOf(subject, d)
  {
    var volume := ToInt(Get(d, VOLUME));
    var parts := [];
    if volume.Some? { parts := [Millilitres("volume", volume.value)]; }
    var outcome := AppendOutcome(volume, d);
    parts := parts + outcome;
    if |parts| == 0 { return Head(subject); }
    return Head(subject) + " — " + Join(parts);
  }

  predicate IsGenerated(subject: string, d: Details, note: string) { note != "" && note == NoteOf(subject, d) }

  // ----------------------------------------------- notes are never trimmed

  predicate Closed(s: string) { s != "" && !IsSpace(s[|s| - 1]) }

  lemma {:induction false} JoinClosed(parts: seq<string>)
    requires parts != [] && AllClosed(parts)
    ensures Closed(Join(parts))
  {
    if |parts| > 1 {
      JoinClosed(parts[1..]);
      var s := Join(parts);
      assert s[|s| - 1] == Join(parts[1..])[|Join(parts[1..])| - 1];
    }
  }

  ghost predicate AllClosed(parts: seq<string>) { forall i :: 0 <= i < |parts| ==> Closed(parts[i]) }

  lemma WordsClosed()
    ensures Closed("habis") && Closed("expired")
  {
  }

  lemma AmountClosed(word: string, n: Option<int>)
    ensures AllClosed(if n.Some? then [Millilitres(word, n.value)] else [])
  {
  }

  lemma OutcomePartsClosed(volume: Option<int>, expired: Option<int>, leftover: Option<int>, outcome: string)
    ensures AllClosed(OutcomeParts(volume, expired, leftover, outcome))
  {
    WordsClosed();
    if outcome == FINISHED {
      AmountClosed("diminum", volume);
    } else if outcome == EXPIRED_OUTCOME {
      AmountClosed("diminum", if volume.Some? && expired.Some? then Some(volume.value - expired.value) else None);
      AmountClosed("expired", expired);
    } else {
      AmountClosed("sisa", leftover);
    }
  }

  lemma PartsClosed(d: Details)
    ensures AllClosed(NoteParts(d))
  {
    OutcomePartsClosed(ToInt(Get(d, VOLUME)), ToInt(Get(d, EXPIRED)), ToInt(Get(d, LEFTOVER)),
      StringOf(Get(d, OUTCOME)));
  }

  lemma HeadStarts(subject: string)
    ensures Head(subject) != "" && Head(subject)[0] == 'F'
  {
    var s := "Feeding " + Trim(subject);
    assert s[0] == 'F' && TrimLeft(s) == s;
    HeadKeepsF(s);
  }

  lemma {:induction false} HeadKeepsF(s: string)
    requires s != "" && s[0] == 'F'
    ensures TrimRight(s) != "" && TrimRight(s)[0] == 'F'
  {
    if IsSpace(s[|s| - 1]) { HeadKeepsF(s[..|s| - 1]); }
  }

  /** A generated note is not empty, storing it does not trim it, and it does not depend on spaces
      around the subject. */
  lemma NoteIsStable(subject: string, d: Details)
    ensures NoteOf(subject, d) != "" && Trim(NoteOf(subject, d)) == NoteOf(subject, d)
    ensures NoteOf(Trim(subject), d) == NoteOf(subject, d)
  {
    TrimTrims(subject);
    TrimTrims("Feeding " + Trim(subject));
    HeadStarts(subject);
    var note := NoteOf(subject, d);
    if NoteParts(d) != [] {
      PartsClosed(d);
      JoinClosed(NoteParts(d));
      var tail := Join(NoteParts(d));
      assert note[|note| - 1] == tail[|tail| - 1] && note[0] == 'F';
    }
    TrimmedStays(note);
  }

  // ------------------------------------------------- what a note tells

  /** The values that the note of valid details shows: the volume, the outcome, and the amount that
      belongs to that outcome. */
  datatype Shown = Shown(volume: Option<int>, outcome: string, amount: Option<int>)

  function ShownIn(d: Details): Shown {
    var outcome := StringOf(Get(d, OUTCOME));
    Shown(ToInt(Get(d, VOLUME)), outcome,
          if outcome == FINISHED then None else if outcome == EXPIRED_OUTCOME then ToInt(Get(d, EXPIRED))
          else ToInt(Get(d, LEFTOVER)))
  }

  lemma {:induction false} DigitsInjective(m: nat, n: nat)
    requires Digits(m) == Digits(n)
    ensures m == n
  {
    var a, b := Digits(m), Digits(n);
    assert (|a| == 1 <==> m < 10) && (|b| == 1 <==> n < 10);
    assert a[|a| - 1] == Digit(m % 10) && b[|b| - 1] == Digit(n % 10);
    assert m % 10 == n % 10;
    if m >= 10 {
      assert a[..|a| - 1] == Digits(m / 10) && b[..|b| - 1] == Digits(n / 10);
      DigitsInjective(m / 10, n / 10);
    }
  }

  lemma DecimalInjective(m: int, n: int)
    requires Decimal(m) == Decimal(n)
    ensures m == n
  {
    assert (Decimal(m)[0] == '-' <==> m < 0) && (Decimal(n)[0] == '-' <==> n < 0);
    if m < 0 {
      assert Decimal(m)[1..] == Digits(-m) && Decimal(n)[1..] == Digits(-n);
      DigitsInjective(-m, -n);
    } else {
      DigitsInjective(m, n);
    }
  }

  lemma MillilitresInjective(word: string, m: int, n: int)
    requires Millilitres(word, m) == Millilitres(word, n)
    ensures m == n
  {
    var a, b, w := Millilitres(word, m), Millilitres(word, n), |word| + 1;
    assert a[w..|a| - 3] == Decimal(m) && b[w..|b| - 3] == Decimal(n);
    DecimalInjective(m, n);
  }

  predicate Unbroken(s: string) { ';' !in s }

  lemma MillilitresUnbroken(word: string, n: int)
    requires Unbroken(word)
    ensures Unbroken(Millilitres(word, n))
  {
    assert Unbroken(" ") && Unbroken(" ml") && Unbroken(Decimal(n));
  }

  ghost predicate AllUnbroken(parts: seq<string>) { forall i :: 0 <= i < |parts| ==> Unbroken(parts[i]) }

  lemma WordsUnbroken()
    ensures Unbroken("volume") && Unbroken("diminum") && Unbroken("sisa") && Unbroken("habis") && Unbroken("expired")
  {
  }

  lemma AmountUnbroken(word: string, n: Option<int>)
    requires Unbroken(word)
    ensures AllUnbroken(if n.Some? then [Millilitres(word, n.value)] else [])
  {
    if n.Some? { MillilitresUnbroken(word, n.value); }
  }

  lemma OutcomePartsUnbroken(volume: Option<int>, expired: Option<int>, leftover: Option<int>, outcome: string)
    ensures AllUnbroken(OutcomeParts(volume, expired, leftover, outcome))
  {
    WordsUnbroken();
    if outcome == FINISHED {
      AmountUnbroken("diminum", volume);
    } else if outcome == EXPIRED_OUTCOME {
      AmountUnbroken("diminum", if volume.Some? && expired.Some? then Some(volume.value - expired.value) else None);
      AmountUnbroken("expired", expired);
    } else {
      AmountUnbroken("sisa", leftover);
    }
  }

  lemma PartsUnbroken(d: Details)
    ensures AllUnbroken(NoteParts(d))
  {
    var volume := ToInt(Get(d, VOLUME));
    WordsUnbroken();
    AmountUnbroken("volume", volume);
    OutcomePartsUnbroken(volume, ToInt(Get(d, EXPIRED)), ToInt(Get(d, LEFTOVER)), StringOf(Get(d, OUTCOME)));
  }

  lemma OnePartIsUnbroken(parts: seq<string>)
    requires parts != [] && AllUnbroken(parts)
    ensures |parts| == 1 <==> Unbroken(Join(parts))
  {
    assert |parts| > 1 ==> Join(parts)[|parts[0]|] == ';';
  }

  /** A joined list can be split again. */
  lemma {:induction false} JoinInjective(a: seq<string>, b: seq<string>)
    requires a != [] && b != [] && Join(a) == Join(b) && AllUnbroken(a) && AllUnbroken(b)
    ensures a == b
  {
    OnePartIsUnbroken(a);
    OnePartIsUnbroken(b);
    if |a| > 1 {
      FirstBreak(a[0], Join(a[1..]), b[0], Join(b[1..]));
      JoinInjective(a[1..], b[1..]);
      assert a == [a[0]] + a[1..] && b == [b[0]] + b[1..];
    }
  }

  lemma BreakIsBehind(a: string, x: string)
    requires Unbroken(a)
    ensures var s := a + "; " + x;
      s[|a|] == ';' && s[..|a|] == a && s[|a| + 2..] == x && forall i :: 0 <= i < |a| ==> s[i] != ';'
  {
    var s := a + "; " + x;
    assert forall i :: 0 <= i < |a| ==> s[i] == a[i];
  }

  lemma FirstBreak(a: string, x: string, b: string, y: string)
    requires a + "; " + x == b + "; " + y && Unbroken(a) && Unbroken(b)
    ensures a == b && x == y
  {
    BreakIsBehind(a, x);
    BreakIsBehind(b, y);
  }

  /** The first letters of the first and of the last part tell which values are there. */
  lemma PartsTell(d: Details)
    requires ValidFeeding(d)
    ensures var parts, shown := NoteParts(d), ShownIn(d);
      && (shown.volume.Some? <==> parts != [] && parts[0][0] == 'v')
      && (shown.volume.Some? ==> parts[0] == Millilitres("volume", shown.volume.value))
      && (shown.outcome == FINISHED <==> parts != [] && Last(parts)[0] == 'h')
      && (shown.outcome == EXPIRED_OUTCOME <==> parts != [] && Last(parts)[0] == 'e')
      && (shown.outcome == EXPIRED_OUTCOME ==>
            shown.amount.Some? && Last(parts) == Millilitres("expired", shown.amount.value))
      && (shown.outcome == "" && shown.amount.Some? <==> parts != [] && Last(parts)[0] == 's')
      && (shown.outcome == "" && shown.amount.Some? ==> Last(parts) == Millilitres("sisa", shown.amount.value))
  {
  }

  /** The note says that an amount was drunk if and only if that amount and the expired one add up to
      the volume: all of the volume when the feeding is finished, the rest of it when milk expired. */
  lemma DrunkAndExpiredAddUp(d: Details, n: int)
    requires ValidFeeding(d)
    ensures var shown := ShownIn(d);
      Millilitres("diminum", n) in NoteParts(d) <==>
        && shown.volume.Some?
        && ((shown.outcome == "finished" && n == shown.volume.value)
            || (shown.outcome == "expired" && n + shown.amount.value == shown.volume.value))
  {
    var shown := ShownIn(d);
    DrunkPart(d, Millilitres("diminum", n));
    if shown.volume.Some? && shown.outcome == "finished" && Millilitres("diminum", n) in NoteParts(d) {
      MillilitresInjective("diminum", n, shown.volume.value);
    } else if shown.volume.Some? && shown.outcome == "expired" && Millilitres("diminum", n) in NoteParts(d) {
      MillilitresInjective("diminum", n, shown.volume.value - shown.amount.value);
    }
  }

  lemma DrunkPart(d: Details, part: string)
    requires ValidFeeding(d) && part != "" && part[0] == 'd'
    ensures var shown := ShownIn(d);
      && (shown.outcome == "expired" ==> shown.amount.Some?)
      && (part in NoteParts(d) <==>
            && shown.volume.Some?
            && ((shown.outcome == "finished" && part == Millilitres("diminum", shown.volume.value))
                || (shown.outcome == "expired"
                    && part == Millilitres("diminum", shown.volume.value - shown.amount.value))))
  {
  }

  function Last(parts: seq<string>): (s: string)
    requires parts != []
  {
    parts[|parts| - 1]
  }

  lemma SamePartsSameShown(a: Details, b: Details)
    requires ValidFeeding(a) && ValidFeeding(b) && NoteParts(a) == NoteParts(b)
    ensures ShownIn(a) == ShownIn(b)
  {
    PartsTell(a);
    PartsTell(b);
    var x, y := ShownIn(a), ShownIn(b);
    if x.volume.Some? { MillilitresInjective("volume", x.volume.value, y.volume.value); }
    if x.outcome == EXPIRED_OUTCOME { MillilitresInjective("expired", x.amount.value, y.amount.value); }
    if x.outcome == "" && x.amount.Some? { MillilitresInjective("sisa", x.amount.value, y.amount.value); }
  }

  /** What follows the head of a note. */
  function Tail(d: Details): string { if NoteParts(d) == [] then "" else " — " + Join(NoteParts(d)) }

  lemma NoteIsHeadAndTail(subject: string, d: Details)
    ensures NoteOf(subject, d) == Head(subject) + Tail(d)
  {
  }

  lemma SameTailSameParts(a: Details, b: Details)
    requires Tail(a) == Tail(b)
    ensures NoteParts(a) == NoteParts(b)
  {
    if NoteParts(a) != [] {
      assert Tail(a)[3..] == Join(NoteParts(a)) && Tail(b)[3..] == Join(NoteParts(b));
      PartsUnbroken(a);
      PartsUnbroken(b);
      JoinInjective(NoteParts(a), NoteParts(b));
    }
  }

  lemma SameShownSameParts(a: Details, b: Details)
    requires ValidFeeding(a) && ValidFeeding(b) && ShownIn(a) == ShownIn(b)
    ensures NoteParts(a) == NoteParts(b)
  {
  }

  lemma SuffixesAgree(h: string, a: string, b: string)
    requires h + a == h + b
    ensures a == b
  {
    assert (h + a)[|h|..] == a && (h + b)[|h|..] == b;
  }

  /** Two valid details have the same note exactly if they show the same volume, the same outcome and
      the same amount: the note loses none of these, and depends on nothing else. */
  lemma NoteTellsShown(subject: string, a: Details, b: Details)
    requires ValidFeeding(a) && ValidFeeding(b)
    ensures NoteOf(subject, a) == NoteOf(subject, b) <==> ShownIn(a) == ShownIn(b)
  {
    NoteIsHeadAndTail(subject, a);
    NoteIsHeadAndTail(subject, b);
    if NoteOf(subject, a) == NoteOf(subject, b) {
      SuffixesAgree(Head(subject), Tail(a), Tail(b));
      SameTailSameParts(a, b);
      SamePartsSameShown(a, b);
    } else if ShownIn(a) == ShownIn(b) {
      SameShownSameParts(a, b);
    }
  }
}
