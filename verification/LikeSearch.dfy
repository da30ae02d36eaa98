/** Text search through SQL LIKE: escaping a search text makes the pattern a literal substring. */
module LikeSearch {
  import opened Texts

  /** PostgreSQL LIKE, with the backslash as escape character: % stands for any text, _ for any one
      character, and an escaped character for itself. */
  predicate Like(text: string, pattern: string)
    decreases |text| + |pattern|
  {
    if pattern == "" then text == ""
    else if pattern[0] == '%' then Like(text, pattern[1..]) || (text != "" && Like(text[1..], pattern))
    else if pattern[0] == '_' then text != "" && Like(text[1..], pattern[1..])
    else if pattern[0] == '\\' then
      |pattern| >= 2 && text != "" && text[0] == pattern[1] && Like(text[1..], pattern[2..])
    else text != "" && text[0] == pattern[0] && Like(text[1..], pattern[1..])
  }

  predicate Special(c: char) { c == '\\' || c == '%' || c == '_' }

  /** The replacer of List: a backslash before each special character. */
  function Escape(s: string): string {
    if s == "" then "" else EscapeChar(s[0]) + Escape(s[1..])
  }

  function EscapeChar(c: char): string { if Special(c) then ['\\', c] else [c] }

  /** Case folding, character by character, that leaves the special characters to themselves. */
  type Folding = char -> char

  ghost predicate KeepsSpecials(fold: Folding) {
    forall c :: (Special(c) ==> fold(c) == c) && (Special(fold(c)) ==> Special(c))
  }

  function Fold(fold: Folding, s: string): string { seq(|s|, i requires 0 <= i < |s| => fold(s[i])) }

  ghost predicate Contains(text: string, part: string) {
    exists i :: 0 <= i <= |text| && part <= text[i..]
  }

  // ------------------------------------------------------------- proofs

  lemma {:induction false} EverythingMatches(text: string)
    ensures Like(text, "%")
  {
    if text != "" { EverythingMatches(text[1..]); }
  }

  lemma EscapedCharMatches(text: string, c: char, rest: string)
    ensures Like(text, EscapeChar(c) + rest) <==> text != "" && text[0] == c && Like(text[1..], rest)
  {
  }

  /** An escaped text followed by % matches exactly the texts that start with it. */
  lemma {:induction false} EscapedIsPrefix(text: string, s: string)
    ensures Like(text, Escape(s) + "%") <==> s <= text
  {
    if s == "" {
      assert Escape(s) + "%" == "%";
      EverythingMatches(text);
    } else {
      var rest := Escape(s[1..]) + "%";
      assert Escape(s) + "%" == EscapeChar(s[0]) + rest;
      EscapedCharMatches(text, s[0], rest);
      if text != "" {
        EscapedIsPrefix(text[1..], s[1..]);
        assert text == [text[0]] + text[1..] && s == [s[0]] + s[1..];
      }
    }
  }

  lemma {:induction false} LeadingPercent(text: string, pattern: string)
    ensures Like(text, "%" + pattern) <==> exists i :: 0 <= i <= |text| && Like(text[i..], pattern)
  {
    var p := "%" + pattern;
    assert p[1..] == pattern;
    assert text[0..] == text;
    if text != "" {
      LeadingPercent(text[1..], pattern);
      assert forall i :: 0 <= i <= |text| - 1 ==> text[1..][i..] == text[i + 1..];
      if i :| 0 <= i <= |text| && Like(text[i..], pattern) {
        if i > 0 { assert Like(text[1..][i - 1..], pattern); }
      }
      if i :| 0 <= i <= |text[1..]| && Like(text[1..][i..], pattern) { assert Like(text[i + 1..], pattern); }
    }
  }

  /** A search is a literal substring search, whatever the text contains. */
  lemma EscapedIsSubstring(text: string, s: string)
    ensures Like(text, "%" + Escape(s) + "%") <==> Contains(text, s)
  {
    assert "%" + Escape(s) + "%" == "%" + (Escape(s) + "%");
    LeadingPercent(text, Escape(s) + "%");
    forall i | 0 <= i <= |text| ensures Like(text[i..], Escape(s) + "%") <==> s <= text[i..] {
      EscapedIsPrefix(text[i..], s);
    }
  }

  /** Folding commutes with escaping. */
  lemma {:induction false} FoldEscapes(fold: Folding, s: string)
    requires KeepsSpecials(fold)
    ensures Fold(fold, Escape(s)) == Escape(Fold(fold, s))
  {
    if s == "" {
    } else {
      FoldEscapes(fold, s[1..]);
      var head := EscapeChar(s[0]);
      assert Special('\\');
      assert Fold(fold, head + Escape(s[1..])) == Fold(fold, head) + Fold(fold, Escape(s[1..]));
      assert Fold(fold, s)[1..] == Fold(fold, s[1..]);
    }
  }

  /** LOWER(column) LIKE LOWER(pattern): true exactly when the folded search text is a contiguous part
      of the folded column, also for texts made of %, _ and backslashes. */
  lemma SearchIsSubstring(fold: Folding, column: string, search: string)
    requires KeepsSpecials(fold)
    ensures Like(Fold(fold, column), Fold(fold, "%" + Escape(search) + "%")) <==>
      Contains(Fold(fold, column), Fold(fold, search))
  {
    assert Special('%');
    FoldEscapes(fold, search);
    assert Fold(fold, "%" + Escape(search) + "%") == "%" + Fold(fold, Escape(search)) + "%";
    EscapedIsSubstring(Fold(fold, column), Fold(fold, search));
  }

  // --------------------------------------------------- names of columns

  predicate IsLetter(c: char) { 'a' <= c <= 'z' || 'A' <= c <= 'Z' }

  predicate IsWord(c: char) { IsLetter(c) || '0' <= c <= '9' || c == '_' }

  /** isSafeColumnSegment */
  predicate SafeSegment(s: string) {
    s != "" && (IsLetter(s[0]) || s[0] == '_') && forall i :: 1 <= i < |s| ==> IsWord(s[i])
  }

  /** strings.SplitSeq at the dots */
  function Split(s: string): (parts: seq<string>)
    ensures parts != []
  {
    if s == "" then [""]
    else
      var rest := Split(s[1..]);
      if s[0] == '.' then [""] + rest else [[s[0]] + rest[0]] + rest[1..]
  }

  /** isSafeColumnIdentifier; the spaces around the name do not count. */
  predicate SafeColumn(column: string) {
    Trim(column) != "" && forall part :: part in Split(Trim(column)) ==> SafeSegment(part)
  }

  lemma {:induction false} SplitKeeps(s: string, i: nat)
    requires i < |s| && s[i] != '.'
    ensures exists part :: part in Split(s) && s[i] in part
  {
    var rest := Split(s[1..]);
    if i > 0 {
      SplitKeeps(s[1..], i - 1);
      var part :| part in rest && s[i] in part;
      if s[0] != '.' && part == rest[0] {
        assert s[i] in Split(s)[0];
      } else {
        assert part in Split(s);
      }
    } else {
      assert s[i] in Split(s)[0];
    }
  }

  /** A column that reaches the query consists of words and dots: nothing in it quotes, comments,
      calls or separates. */
  lemma SafeIsPlain(column: string)
    requires SafeColumn(column)
    ensures forall c :: c in Trim(column) ==> IsWord(c) || c == '.'
  {
    var s := Trim(column);
    forall i | 0 <= i < |s| && s[i] != '.' ensures IsWord(s[i]) {
      SplitKeeps(s, i);
      var part :| part in Split(s) && s[i] in part;
      assert SafeSegment(part);
    }
  }

  function SafeColumns(columns: seq<string>): seq<string> {
    if columns == [] then []
    else
      var front, last := columns[..|columns| - 1], columns[|columns| - 1];
      SafeColumns(front) + if SafeColumn(last) then [last] else []
  }

  /** safeColumnIdentifiers */
  method SafeColumnIdentifiers(columns: seq<string>) returns (safe: seq<string>)
    ensures safe == SafeColumns(columns) && forall c :: c in safe <==> c in columns && SafeColumn(c)
  {
    safe := [];
    for i := 0 to |columns|
      invariant safe == SafeColumns(columns[..i])
      invariant forall c :: c in safe <==> c in columns[..i] && SafeColumn(c)
    {
      assert columns[..i + 1] == columns[..i] + [columns[i]];
      if SafeColumn(columns[i]) { safe := safe + [columns[i]]; }
    }
    assert columns[..|columns|] == columns;
  }

  // ----------------------------------------------------- several columns

  /** One condition of the query: a column and the pattern that it is compared with. */
  datatype Condition = Condition(column: string, pattern: string)

  type Row = map<string, string>

  predicate Holds(c: Condition, row: Row, fold: Folding) {
    c.column in row && Like(Fold(fold, row[c.column]), Fold(fold, c.pattern))
  }

  /** WHERE c1 OR c2 OR ...; no condition filters nothing. */
  predicate Selects(conditions: seq<Condition>, row: Row, fold: Folding) {
    conditions == [] || exists i :: 0 <= i < |conditions| && Holds(conditions[i], row, fold)
  }

  /** The search text is part of some column, or there is no column to search. */
  ghost predicate Hits(row: Row, columns: seq<string>, search: string, fold: Folding)
    requires HasColumns(row, columns)
  {
    columns == [] || exists i :: 0 <= i < |columns| && Contains(Fold(fold, row[columns[i]]), Fold(fold, search))
  }

  predicate HasColumns(row: Row, columns: seq<string>) { forall i :: 0 <= i < |columns| ==> columns[i] in row }

  /** BuildSearchFunc, given an escaped text: a row is selected exactly when the text is part of some
      column with a safe name, and every row when there is no such column to search. */
  method BuildSearch(columns: seq<string>, search: string, ghost fold: Folding) returns (conditions: seq<Condition>)
    requires KeepsSpecials(fold)
    ensures forall row: Row :: HasColumns(row, SafeColumns(columns)) ==>
      (Selects(conditions, row, fold) <==> Hits(row, SafeColumns(columns), search, fold))
    ensures forall c :: c in conditions ==> c.column in columns && SafeColumn(c.column)
  {
    var safe := SafeColumnIdentifiers(columns);
    conditions := [];
    var pattern := "%" + Escape(search) + "%";
    for i := 0 to |safe|
      invariant |conditions| == i
      invariant forall j :: 0 <= j < i ==> conditions[j] == Condition(safe[j], pattern)
    {
      conditions := conditions + [Condition(safe[i], pattern)];
    }
    assert forall c :: c in conditions ==> c.column in safe;
    forall row: Row | HasColumns(row, safe)
      ensures Selects(conditions, row, fold) <==> Hits(row, safe, search, fold)
    {
      forall i | 0 <= i < |safe|
        ensures Holds(conditions[i], row, fold) <==> Contains(Fold(fold, row[safe[i]]), Fold(fold, search))
      {
        SearchIsSubstring(fold, row[safe[i]], search);
      }
    }
  }
}
