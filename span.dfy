/** Source spans: a start and an end position, each a line and a column. */
module Spans {
  import opened Common
  import opened Text

  datatype Span = Span(startLine: nat, startColumn: nat, endLine: nat, endColumn: nat)

  /** Lexicographic order on (line, column) positions. */
  predicate PositionLe(l1: nat, c1: nat, l2: nat, c2: nat) {
    l1 < l2 || (l1 == l2 && c1 <= c2)
  }

  /** `Span::single`: the span of one character. */
  function Single(line: nat, column: nat): (s: Span)
    ensures IsSingleLine(s) && Length(s) == Some(1)
    ensures forall l, c :: Contains(s, l, c) <==> l == line && c == column
  {
    Span(line, column, line, column)
  }

  /** `Span::from_to`: from the start of `start` to the end of `end`. */
  function FromTo(start: Span, end: Span): (s: Span)
    ensures (s.startLine, s.startColumn) == (start.startLine, start.startColumn)
    ensures (s.endLine, s.endColumn) == (end.endLine, end.endColumn)
  {
    Span(start.startLine, start.startColumn, end.endLine, end.endColumn)
  }

  predicate IsSingleLine(s: Span) {
    s.startLine == s.endLine
  }

  /** `Span::length`: the column count of a single-line span, `None` for a multi-line one. */
  function Length(s: Span): (r: Option<int>)
    ensures r.Some? <==> IsSingleLine(s)
    ensures r.Some? && s.startColumn <= s.endColumn ==> r.value >= 1
  {
    if IsSingleLine(s) then Some(s.endColumn - s.startColumn + 1) else None
  }

  /** `Span::contains`: whether the position (line, column) lies inside the span. */
  predicate Contains(s: Span, line: nat, column: nat) {
    if line < s.startLine || line > s.endLine then false
    else if line == s.startLine && column < s.startColumn then false
    else if line == s.endLine && column > s.endColumn then false
    else true
  }

  /** `contains` is the inclusive interval between the start and end positions, in lexicographic order. */
  lemma {:induction false} ContainsIsInterval(s: Span, line: nat, column: nat)
    ensures Contains(s, line, column) <==>
      PositionLe(s.startLine, s.startColumn, line, column) && PositionLe(line, column, s.endLine, s.endColumn)
  {
  }

  /** On a single-line span, `contains` accepts exactly the `Length` columns from start to end. */
  lemma {:induction false} SingleLineContains(s: Span, line: nat, column: nat)
    requires IsSingleLine(s) && s.startColumn <= s.endColumn
    ensures Contains(s, line, column) <==> line == s.startLine && s.startColumn <= column < s.startColumn + Length(s).value
  {
  }

  /** A span reaching from `a` to `b` covers both when `a` starts first and `b` ends last. */
  lemma {:induction false} FromToCovers(a: Span, b: Span, line: nat, column: nat)
    requires PositionLe(a.startLine, a.startColumn, b.startLine, b.startColumn)
    requires PositionLe(a.endLine, a.endColumn, b.endLine, b.endColumn)
    requires Contains(a, line, column) || Contains(b, line, column)
    ensures Contains(FromTo(a, b), line, column)
  {
    ContainsIsInterval(a, line, column);
    ContainsIsInterval(b, line, column);
    ContainsIsInterval(FromTo(a, b), line, column);
  }

  /** `Display for Span`: "L:C" for a point, "L:C1-C2" on one line, "L1:C1-L2:C2" otherwise. */
  function Display(s: Span): string {
    if IsSingleLine(s) then
      if s.startColumn == s.endColumn then NatToString(s.startLine) + ":" + NatToString(s.startColumn)
      else NatToString(s.startLine) + ":" + NatToString(s.startColumn) + "-" + NatToString(s.endColumn)
    else
      NatToString(s.startLine) + ":" + NatToString(s.startColumn) + "-" + NatToString(s.endLine) + ":" + NatToString(s.endColumn)
  }

  // Reading a rendered span back, to show that the rendering loses nothing.

  /** The longest prefix of `t` made of digits, and the rest. */
  function SplitDigits(t: string): (p: (string, string))
    ensures AllDigits(p.0) && p.0 + p.1 == t
    ensures p.1 != [] ==> !IsDigit(p.1[0])
  {
    if t == [] || !IsDigit(t[0]) then ([], t)
    else
      var p := SplitDigits(t[1..]);
      assert [t[0]] + p.0 + p.1 == [t[0]] + (p.0 + p.1);
      ([t[0]] + p.0, p.1)
  }

  /** Reads a number followed by `sep`; returns the number and what follows the separator. */
  function ReadNumber(t: string, sep: char): Option<(nat, string)> {
    var (d, rest) := SplitDigits(t);
    if d == [] || rest == [] || rest[0] != sep then None else Some((DigitsValue(d), rest[1..]))
  }

  /** The inverse of `Display`: recovers the span from its text. */
  function ParseDisplay(t: string): Option<Span> {
    match ReadNumber(t, ':')
    case None => None
    case Some((line, rest)) => ParseAfterLine(line, rest)
  }

  /** Parses "C", "C-C2" or "C-L2:C2" after the start line. */
  function ParseAfterLine(line: nat, t: string): Option<Span> {
    var (d, rest) := SplitDigits(t);
    if d == [] then None
    else if rest == [] then Some(Span(line, DigitsValue(d), line, DigitsValue(d)))
    else if rest[0] != '-' then None
    else ParseAfterDash(line, DigitsValue(d), rest[1..])
  }

  /** Parses "C2" or "L2:C2" after the dash. */
  function ParseAfterDash(line: nat, column: nat, t: string): Option<Span> {
    var (d, rest) := SplitDigits(t);
    if d == [] then None
    else if rest == [] then Some(Span(line, column, line, DigitsValue(d)))
    else if rest[0] != ':' then None
    else
      var (d2, rest2) := SplitDigits(rest[1..]);
      if d2 == [] || rest2 != [] then None
      else Some(Span(line, column, DigitsValue(d), DigitsValue(d2)))
  }

  lemma {:induction false} SplitDigitsOfNumber(d: string, rest: string)
    requires AllDigits(d)
    requires rest != [] ==> !IsDigit(rest[0])
    ensures SplitDigits(d + rest) == (d, rest)
  {
    if d == [] {
      assert d + rest == rest;
    } else {
      assert (d + rest)[0] == d[0] && IsDigit(d[0]);
      assert (d + rest)[1..] == d[1..] + rest;
      SplitDigitsOfNumber(d[1..], rest);
      assert [d[0]] + d[1..] == d;
    }
  }

  lemma {:induction false} SplitNat(n: nat, rest: string)
    requires rest != [] ==> !IsDigit(rest[0])
    ensures SplitDigits(NatToString(n) + rest) == (NatToString(n), rest)
    ensures DigitsValue(NatToString(n)) == n
  {
    SplitDigitsOfNumber(NatToString(n), rest);
    DigitsValueOfNatToString(n);
  }

  lemma {:induction false} SplitLast(n: nat)
    ensures SplitDigits(NatToString(n)) == (NatToString(n), [])
    ensures DigitsValue(NatToString(n)) == n
  {
    SplitNat(n, []);
    assert NatToString(n) + [] == NatToString(n);
  }

  lemma {:induction false} ReadNat(n: nat, sep: char, rest: string)
    requires !IsDigit(sep)
    ensures ReadNumber(NatToString(n) + [sep] + rest, sep) == Some((n, rest))
  {
    assert NatToString(n) + [sep] + rest == NatToString(n) + ([sep] + rest);
    SplitNat(n, [sep] + rest);
    assert ([sep] + rest)[1..] == rest;
  }

  lemma {:induction false} AfterDashSingle(line: nat, column: nat, c2: nat)
    ensures ParseAfterDash(line, column, NatToString(c2)) == Some(Span(line, column, line, c2))
  {
    SplitLast(c2);
  }

  lemma {:induction false} AfterDashMulti(line: nat, column: nat, l2: nat, c2: nat)
    ensures ParseAfterDash(line, column, NatToString(l2) + [':'] + NatToString(c2)) == Some(Span(line, column, l2, c2))
  {
    var t := NatToString(l2) + [':'] + NatToString(c2);
    assert t == NatToString(l2) + ([':'] + NatToString(c2));
    SplitNat(l2, [':'] + NatToString(c2));
    assert ([':'] + NatToString(c2))[1..] == NatToString(c2);
    SplitLast(c2);
  }

  lemma {:induction false} AfterLineDash(line: nat, c1: nat, t: string)
    ensures ParseAfterLine(line, NatToString(c1) + ['-'] + t) == ParseAfterDash(line, c1, t)
  {
    assert NatToString(c1) + ['-'] + t == NatToString(c1) + (['-'] + t);
    SplitNat(c1, ['-'] + t);
    assert (['-'] + t)[1..] == t;
  }

  lemma {:induction false} DisplayRoundTripPoint(s: Span)
    requires IsSingleLine(s) && s.startColumn == s.endColumn
    ensures ParseDisplay(Display(s)) == Some(s)
  {
    ReadNat(s.startLine, ':', NatToString(s.startColumn));
    SplitLast(s.startColumn);
  }

  lemma {:induction false} DisplayRoundTripLine(s: Span)
    requires IsSingleLine(s) && s.startColumn != s.endColumn
    ensures ParseDisplay(Display(s)) == Some(s)
  {
    var c1, c2 := NatToString(s.startColumn), NatToString(s.endColumn);
    var tail := c1 + ['-'] + c2;
    assert Display(s) == NatToString(s.startLine) + [':'] + tail;
    ReadNat(s.startLine, ':', tail);
    AfterLineDash(s.startLine, s.startColumn, c2);
    AfterDashSingle(s.startLine, s.startColumn, s.endColumn);
  }

  lemma {:induction false} DisplayRoundTripMulti(s: Span)
    requires !IsSingleLine(s)
    ensures ParseDisplay(Display(s)) == Some(s)
  {
    var c1, l2, c2 := NatToString(s.startColumn), NatToString(s.endLine), NatToString(s.endColumn);
    var tail2 := l2 + [':'] + c2;
    var tail := c1 + ['-'] + tail2;
    assert Display(s) == NatToString(s.startLine) + [':'] + tail;
    ReadNat(s.startLine, ':', tail);
    AfterLineDash(s.startLine, s.startColumn, tail2);
    AfterDashMulti(s.startLine, s.startColumn, s.endLine, s.endColumn);
  }

  /** Every span is recovered from its rendering. */
  lemma {:induction false} DisplayRoundTrip(s: Span)
    ensures ParseDisplay(Display(s)) == Some(s)
  {
    if IsSingleLine(s) && s.startColumn == s.endColumn {
      DisplayRoundTripPoint(s);
    } else if IsSingleLine(s) {
      DisplayRoundTripLine(s);
    } else {
      DisplayRoundTripMulti(s);
    }
  }

  /** Distinct spans render differently. */
  lemma {:induction false} DisplayInjective(a: Span, b: Span)
    requires Display(a) == Display(b)
    ensures a == b
  {
    DisplayRoundTrip(a);
    DisplayRoundTrip(b);
  }
}
