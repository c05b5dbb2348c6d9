/** Properties of the lexer: the shape of the token stream, line tracking, lookahead and round trips. */
module LexerLemmas {
  import opened Common
  import opened Text
  import opened Spans
  import opened Errors
  import opened LexerSpec
  import T = Tokens

  /** `tokenize` ends with `Eof` and produces no other `Eof`. */
  lemma {:induction false} LexEndsWithEof(input: string, c: Cursor)
    ensures Lex(input, c).Ok? ==>
      var ts := Lex(input, c).value;
      |ts| > 0 && ts[|ts| - 1] == T.Eof && forall i :: 0 <= i < |ts| - 1 ==> ts[i] != T.Eof
    decreases |input| - c.pos
  {
    var step := NextToken(input, c);
    LexStops(input, c);
    if step.Ok? && step.value.0 != T.Eof {
      LexStep(input, c);
      var rest := Lex(input, step.value.1);
      LexEndsWithEof(input, step.value.1);
      if rest.Ok? {
        EofOnlyAtEnd(step.value.0, rest.value);
      }
    }
  }

  /** A token other than `Eof` in front of a stream that has `Eof` only at its end keeps it so. */
  lemma {:induction false} EofOnlyAtEnd(t: T.Token, ts: seq<T.Token>)
    requires t != T.Eof && |ts| > 0 && ts[|ts| - 1] == T.Eof && forall i :: 0 <= i < |ts| - 1 ==> ts[i] != T.Eof
    ensures var us := [t] + ts; us[|us| - 1] == T.Eof && forall i :: 0 <= i < |us| - 1 ==> us[i] != T.Eof
  {
    var us := [t] + ts;
    assert forall i :: 1 <= i < |us| ==> us[i] == ts[i - 1];
  }

  // ---------------------------------------------------------------------------------------------
  // Line and column tracking

  lemma {:induction false} StringBodyTracks(input: string, open: Cursor, bodyStart: nat, c: Cursor)
    requires bodyStart <= c.pos && Tracks(input, c)
    ensures StringBody(input, open, bodyStart, c).Ok? ==> Tracks(input, StringBody(input, open, bodyStart, c).value.1)
    decreases |input| - c.pos
  {
    if c.pos < |input| {
      AdvanceTracks(input, c);
      if input[c.pos] == '\\' {
        var e := Advance(input, c);
        if e.pos < |input| {
          AdvanceTracks(input, e);
          StringBodyTracks(input, open, bodyStart, Advance(input, e));
        }
      } else if input[c.pos] != '"' && input[c.pos] != '\n' {
        StringBodyTracks(input, open, bodyStart, Advance(input, c));
      }
    }
  }

  lemma {:induction false} TokenAtTracks(input: string, c: Cursor)
    requires c.pos < |input| && !PlainCommentAt(input, c) && Tracks(input, c)
    ensures TokenAt(input, c).Ok? ==> Tracks(input, TokenAt(input, c).value.1)
  {
    var ch := input[c.pos];
    if IsDigit(ch) || ch == '"' || IsAlphabetic(ch) || ch == '_' {
      ReadTracks(input, c);
    } else {
      SymbolTracks(input, c);
    }
  }

  /** The arms that read a number, a string or a word. */
  lemma {:induction false} ReadTracks(input: string, c: Cursor)
    requires c.pos < |input| && !PlainCommentAt(input, c) && Tracks(input, c)
    requires var ch := input[c.pos]; IsDigit(ch) || ch == '"' || IsAlphabetic(ch) || ch == '_'
    ensures TokenAt(input, c).Ok? ==> Tracks(input, TokenAt(input, c).value.1)
  {
    var ch := input[c.pos];
    if IsDigit(ch) {
      TokenAtDigit(input, c);
      SkipWhileRun(input, c, Digit);
    } else if ch == '"' {
      QuoteTracks(input, c);
    } else {
      SkipWhileRun(input, c, IdentChar);
    }
  }

  /** The string arm: the literal reader keeps line and column in step with the position. */
  lemma {:induction false} QuoteTracks(input: string, c: Cursor)
    requires c.pos < |input| && input[c.pos] == '"' && Tracks(input, c)
    ensures TokenAt(input, c).Ok? ==> Tracks(input, TokenAt(input, c).value.1)
  {
    var body := Advance(input, c);
    AdvanceTracks(input, c);
    StringBodyTracks(input, c, body.pos, body);
    TokenAtQuote(input, c);
  }

  /** The arms of operators, delimiters and doc comments. */
  lemma {:induction false} SymbolTracks(input: string, c: Cursor)
    requires c.pos < |input| && !PlainCommentAt(input, c) && Tracks(input, c)
    requires var ch := input[c.pos]; !(IsDigit(ch) || ch == '"' || IsAlphabetic(ch) || ch == '_')
    ensures TokenAt(input, c).Ok? ==> Tracks(input, TokenAt(input, c).value.1)
  {
    AdvanceTracks(input, c);
    var next := Advance(input, c);
    if input[c.pos] == '/' && CharAt(input, c.pos + 1) == Some('/') {
      TokenAtSlash(input, c);
      AdvanceTracks(input, next);
      DocTextTracks(input, next);
    } else if next.pos < |input| {
      AdvanceTracks(input, next);
    }
  }

  /** Reading the text of a doc comment keeps line and column in step with the position. */
  lemma {:induction false} DocTextTracks(input: string, second: Cursor)
    requires second.pos + 1 < |input| && Tracks(input, second)
    ensures Tracks(input, ReadDocComment(input, second).1)
  {
    AdvanceTracks(input, second);
    var afterSlashes := Advance(input, Advance(input, second));
    AdvanceTracks(input, Advance(input, second));
    SkipWhileRun(input, afterSlashes, SpaceOrTab);
    SkipWhileRun(input, SkipWhile(input, afterSlashes, SpaceOrTab), NotNewline);
  }

  /** Every token leaves the cursor's line and column those of its position. */
  lemma {:induction false} NextTokenTracks(input: string, c: Cursor)
    requires Tracks(input, c)
    ensures NextToken(input, c).Ok? ==> Tracks(input, NextToken(input, c).value.1)
    decreases |input| - c.pos
  {
    if c.pos < |input| {
      if IsWhitespace(input[c.pos]) {
        if input[c.pos] == '\n' {
          AdvanceTracks(input, c);
        } else {
          SkipWhileRun(input, c, Blank);
          NextTokenTracks(input, SkipWhile(input, c, Blank));
        }
      } else if PlainCommentAt(input, c) {
        AdvanceTracks(input, c);
        SkipWhileRun(input, Advance(input, c), NotNewline);
        NextTokenTracks(input, SkipWhile(input, Advance(input, c), NotNewline));
      } else {
        TokenAtTracks(input, c);
      }
    }
  }

  /** A newline is a token of its own and moves to column 1 of the next line. */
  lemma {:induction false} NewlineIsAToken(input: string, c: Cursor)
    requires c.pos < |input| && input[c.pos] == '\n'
    ensures NextToken(input, c) == Ok((T.Newline, Cursor(c.pos + 1, c.line + 1, 1)))
  {
  }

  /** Other whitespace is skipped: the next token is the one after the blanks. */
  lemma {:induction false} BlanksAreSkipped(input: string, c: Cursor)
    requires c.pos < |input| && InClass(Blank, input[c.pos])
    ensures NextToken(input, c) == NextToken(input, SkipWhile(input, c, Blank))
  {
  }

  /**
   * A `//` comment that is not a documentation comment produces no token: the next token is the
   * one at the newline that ends the comment, or `Eof` when the input ends first.
   */
  lemma {:induction false} CommentsAreSkipped(input: string, c: Cursor, j: nat)
    requires c.pos + 2 <= j <= |input| && input[c.pos] == '/' && input[c.pos + 1] == '/'
    requires c.pos + 2 == |input| || input[c.pos + 2] != '/'
    requires forall i :: c.pos + 2 <= i < j ==> input[i] != '\n'
    requires j == |input| || input[j] == '\n'
    ensures NextToken(input, c) == NextToken(input, Cursor(j, c.line, c.column + (j - c.pos)))
  {
    CommentStep(input, c);
    var second := Advance(input, c);
    assert second == Cursor(c.pos + 1, c.line, c.column + 1);
    assert forall i :: second.pos <= i < j ==> InClass(NotNewline, input[i]);
    SkipWhileExact(input, second, NotNewline, j - second.pos);
    assert SkipWhile(input, second, NotNewline) == Cursor(j, c.line, c.column + (j - c.pos));
  }

  /** The arm of `next_token` for a plain comment: the rest of the line is skipped. */
  lemma {:induction false} CommentStep(input: string, c: Cursor)
    requires PlainCommentAt(input, c)
    ensures NextToken(input, c) == NextToken(input, SkipWhile(input, Advance(input, c), NotNewline))
  {
    assert !IsWhitespace(input[c.pos]);
  }

  // ---------------------------------------------------------------------------------------------
  // Lookahead

  /** The operators spelled with two characters. */
  function TwoCharToken(a: char, b: char): Option<T.Token> {
    if a == '=' && b == '=' then Some(T.Equal)
    else if a == '!' && b == '=' then Some(T.NotEqual)
    else if a == '<' && b == '=' then Some(T.LessEqual)
    else if a == '>' && b == '=' then Some(T.GreaterEqual)
    else if a == '&' && b == '&' then Some(T.And)
    else if a == '|' && b == '|' then Some(T.Or)
    else if a == '-' && b == '>' then Some(T.Arrow)
    else None
  }

  /** Two-character operators are recognised by looking one character ahead. */
  lemma {:induction false} TwoCharOperators(input: string, c: Cursor)
    requires c.pos + 1 < |input| && TwoCharToken(input[c.pos], input[c.pos + 1]).Some?
    ensures NextToken(input, c)
      == Ok((TwoCharToken(input[c.pos], input[c.pos + 1]).value, Cursor(c.pos + 2, c.line, c.column + 2)))
  {
  }

  /** A `&` or `|` that is not doubled is an unexpected character, reported at its own position. */
  lemma {:induction false} LoneAmpersandOrBar(input: string, c: Cursor)
    requires c.pos < |input| && (input[c.pos] == '&' || input[c.pos] == '|')
    requires CharAt(input, c.pos + 1) != Some(input[c.pos])
    ensures NextToken(input, c) == Err(UnexpectedCharacter(Single(c.line, c.column), input[c.pos]))
  {
  }

  /** Away from blanks and plain comments, `next_token` reads one token at once. */
  lemma {:induction false} NextTokenIsTokenAt(input: string, c: Cursor)
    requires c.pos < |input| && !IsWhitespace(input[c.pos]) && !PlainCommentAt(input, c)
    ensures NextToken(input, c) == TokenAt(input, c)
  {
  }

  /** The `/` arm: a documentation comment, or division. */
  lemma {:induction false} TokenAtSlash(input: string, c: Cursor)
    requires c.pos < |input| && input[c.pos] == '/' && !PlainCommentAt(input, c)
    ensures CharAt(input, c.pos + 1) == Some('/') ==>
      c.pos + 2 < |input| && TokenAt(input, c) == Ok(ReadDocComment(input, Advance(input, c)))
    ensures CharAt(input, c.pos + 1) != Some('/') ==> TokenAt(input, c) == Ok((T.Divide, Advance(input, c)))
  {
  }

  /** The digit arm: a number. */
  lemma {:induction false} TokenAtDigit(input: string, c: Cursor)
    requires c.pos < |input| && IsDigit(input[c.pos])
    ensures !PlainCommentAt(input, c)
    ensures LexerSpec.ReadNumber(input, c).Ok? ==>
      TokenAt(input, c) == Ok((T.Integer(LexerSpec.ReadNumber(input, c).value.0), LexerSpec.ReadNumber(input, c).value.1))
  {
  }

  /** The quote arm: a string literal. */
  lemma {:induction false} TokenAtQuote(input: string, c: Cursor)
    requires c.pos < |input| && input[c.pos] == '"'
    ensures !PlainCommentAt(input, c)
    ensures ReadString(input, c).Ok? ==>
      TokenAt(input, c) == Ok((T.String(ReadString(input, c).value.0), ReadString(input, c).value.1))
  {
  }

  /** The letter arm: an entity name or a keyword. */
  lemma {:induction false} TokenAtWord(input: string, c: Cursor)
    requires c.pos < |input| && IsAlphabetic(input[c.pos])
    ensures !PlainCommentAt(input, c)
    ensures TokenAt(input, c) == ReadIdentifier(input, c)
  {
  }

  /** The arms of the characters that are a token on their own. */
  lemma {:induction false} TokenAtSingle(input: string, c: Cursor)
    requires c.pos < |input| && SingleCharToken(input[c.pos]).Some?
    ensures TokenAt(input, c) == Ok((SingleCharToken(input[c.pos]).value, Advance(input, c)))
  {
  }

  /** The arms of the characters that may start a two-character operator. */
  lemma {:induction false} TokenAtOneOrTwo(input: string, c: Cursor)
    requires c.pos < |input|
    ensures input[c.pos] == '=' ==> TokenAt(input, c) == Ok(OneOrTwo(input, c, '=', T.Equal, T.Assign))
    ensures input[c.pos] == '!' ==> TokenAt(input, c) == Ok(OneOrTwo(input, c, '=', T.NotEqual, T.Not))
    ensures input[c.pos] == '<' ==> TokenAt(input, c) == Ok(OneOrTwo(input, c, '=', T.LessEqual, T.Less))
    ensures input[c.pos] == '>' ==> TokenAt(input, c) == Ok(OneOrTwo(input, c, '=', T.GreaterEqual, T.Greater))
    ensures input[c.pos] == '-' ==> TokenAt(input, c) == Ok(OneOrTwo(input, c, '>', T.Arrow, T.Minus))
  {
  }

  // ---------------------------------------------------------------------------------------------
  // The documentation comment, as written and corrected

  /**
   * As written, the character right after `///` is lost (`///abc` reads as `bc`), and a `///` that
   * ends the input slices past its end.
   */
  lemma {:induction false} DocCommentAsWritten()
    ensures ReadDocCommentAsWritten("///abc", Cursor(1, 1, 2)) == Some((T.DocComment("bc"), Cursor(6, 1, 7)))
    ensures ReadDocCommentAsWritten("///", Cursor(1, 1, 2)) == None
  {
    var input := "///abc";
    var after := Cursor(4, 1, 5);
    assert Advance(input, Advance(input, Advance(input, Cursor(1, 1, 2)))) == after;
    assert SkipWhile(input, after, SpaceOrTab) == after;
    SkipWhileExact(input, after, NotNewline, 2);
    assert input[4..6] == "bc";
  }

  /** Corrected, the comment is the whole rest of the line after `///` and its blanks. */
  lemma {:induction false} DocCommentCorrected()
    ensures NextToken("///abc", Start) == Ok((T.DocComment("abc"), Cursor(6, 1, 7)))
  {
    var input := "///abc";
    assert !PlainCommentAt(input, Start) && !IsWhitespace(input[0]);
    NextTokenIsTokenAt(input, Start);
    TripleSlash(input, Start);
    DocTextAbc();
  }

  /** The `/` arm on `///` reads the comment text from just after the three slashes. */
  lemma {:induction false} TripleSlash(input: string, c: Cursor)
    requires c.pos + 2 < |input| && input[c.pos] == '/' && input[c.pos + 1] == '/' && input[c.pos + 2] == '/'
    ensures !PlainCommentAt(input, c)
    ensures TokenAt(input, c) == Ok(DocText(input, Cursor(c.pos + 3, c.line, c.column + 3)))
  {
    var second := Advance(input, c);
    assert second == Cursor(c.pos + 1, c.line, c.column + 1);
    assert CharAt(input, c.pos + 1) == Some('/');
    TokenAtSlash(input, c);
    var third := Advance(input, second);
    assert third == Cursor(c.pos + 2, c.line, c.column + 2);
    assert Advance(input, third) == Cursor(c.pos + 3, c.line, c.column + 3);
  }

  /** The text of the comment above: no blanks to skip, then `abc` up to the end of the input. */
  lemma {:induction false} DocTextAbc()
    ensures DocText("///abc", Cursor(3, 1, 4)) == (T.DocComment("abc"), Cursor(6, 1, 7))
  {
    var input := "///abc";
    var after := Cursor(3, 1, 4);
    assert SkipWhile(input, after, SpaceOrTab) == after by {
      assert !InClass(SpaceOrTab, input[3]);
    }
    assert SkipWhile(input, after, NotNewline) == Cursor(6, 1, 7) by {
      assert input[3] == 'a' && input[4] == 'b' && input[5] == 'c';
      SkipWhileExact(input, after, NotNewline, 3);
    }
    assert input[3..6] == "abc";
  }

  /** Corrected, a `///` that ends the input is an empty comment. */
  lemma {:induction false} DocCommentAtEnd()
    ensures NextToken("///", Start) == Ok((T.DocComment(""), Cursor(3, 1, 4)))
  {
    var input := "///";
    assert !PlainCommentAt(input, Start) && !IsWhitespace(input[0]);
    NextTokenIsTokenAt(input, Start);
    TokenAtSlash(input, Start);
    var after := Cursor(3, 1, 4);
    assert ReadDocComment(input, Cursor(1, 1, 2)) == DocText(input, after);
    assert SkipWhile(input, after, SpaceOrTab) == after;
    assert SkipWhile(input, after, NotNewline) == after;
    assert Advance(input, Advance(input, Cursor(1, 1, 2))) == after;
    assert input[3..3] == "";
  }

  // ---------------------------------------------------------------------------------------------
  // Round trip through `Display`

  /** What may follow a token for it to read back alone: nothing, or a newline. */
  predicate Separated(rest: string) {
    rest == [] || rest[0] == '\n'
  }

  /** A string the lexer reads back verbatim between quotes. */
  predicate PlainText(s: string) {
    forall i :: 0 <= i < |s| ==> s[i] != '"' && s[i] != '\\' && s[i] != '\n'
  }

  /**
   * The tokens whose `Display` the lexer reads back: all but negative integers (a minus sign is a
   * token of its own), booleans (`true`/`false` are keywords), `Eof`, `Newline` (displayed as a
   * backslash and `n`), and strings or comments whose text would end them early.
   */
  predicate Lexable(t: T.Token) {
    match t
    case Integer(n) => n >= 0
    case String(s) => PlainText(s)
    case Boolean(_) => false
    case DocComment(s) => (forall i :: 0 <= i < |s| ==> s[i] != '\n') && (s == [] || !InClass(SpaceOrTab, s[0]))
    case Eof => false
    case Newline => false
    case _ => true
  }

  /** Reading a run of class-`k` characters at the start of the input. */
  lemma {:induction false} ReadsWord(input: string, word: string, rest: string, k: CharClass)
    requires input == word + rest && Separated(rest)
    requires forall i :: 0 <= i < |word| ==> InClass(k, word[i])
    ensures SkipWhile(input, Start, k) == Cursor(|word|, 1, 1 + |word|)
    ensures input[0..|word|] == word
  {
    assert forall i :: 0 <= i < |word| ==> input[i] == word[i];
    SkipWhileExact(input, Start, k, |word|);
  }

  predicate IsKeyword(t: T.Token) {
    t.Fn? || t.Main? || t.Ret? || t.Int? || t.Str? || t.Bool? || t.True? || t.False?
    || t.If? || t.Else? || t.Describe? || t.Print?
  }

  lemma {:induction false} KeywordSpelling(t: T.Token)
    requires IsKeyword(t)
    ensures Keyword(T.Display(t)) == Some(t)
    ensures 2 <= |T.Display(t)| && T.Display(t)[1] != '$'
    ensures forall i :: 0 <= i < |T.Display(t)| ==> IsAlphabetic(T.Display(t)[i])
  {
  }

  lemma {:induction false} KeywordRoundTrip(t: T.Token, rest: string)
    requires IsKeyword(t) && Separated(rest)
    ensures NextToken(T.Display(t) + rest, Start) == Ok((t, Cursor(|T.Display(t)|, 1, 1 + |T.Display(t)|)))
  {
    var word := T.Display(t);
    var input := word + rest;
    KeywordSpelling(t);
    ReadsWord(input, word, rest, IdentChar);
    assert input[0] == word[0];
    NextTokenIsTokenAt(input, Start);
    TokenAtWord(input, Start);
  }

  /** A word that is neither a keyword nor shaped like an entity name is an unknown identifier spanning the word. */
  lemma {:induction false} UnknownWord(word: string, rest: string)
    requires |word| > 0 && IsAlphabetic(word[0]) && Separated(rest)
    requires forall i :: 0 <= i < |word| ==> InClass(IdentChar, word[i])
    requires Keyword(word).None? && (|word| < 3 || word[1] != '$')
    ensures NextToken(word + rest, Start) == Err(UnknownIdentifier(Span(1, 1, 1, |word|), word))
  {
    var input := word + rest;
    ReadsWord(input, word, rest, IdentChar);
    assert input[0] == word[0];
    NextTokenIsTokenAt(input, Start);
    TokenAtWord(input, Start);
  }

  lemma {:induction false} EntityRoundTrip(t: T.Token, rest: string)
    requires T.IsEntity(t) && Separated(rest)
    ensures NextToken(T.Display(t) + rest, Start) == Ok((t, Cursor(|T.Display(t)|, 1, 1 + |T.Display(t)|)))
  {
    var word := T.Display(t);
    var input := word + rest;
    EntityWord(t);
    ReadsWord(input, word, rest, IdentChar);
    ParseU32OfNatToString(t.number);
    assert input[0] == word[0];
    NextTokenIsTokenAt(input, Start);
    TokenAtWord(input, Start);
  }

  /** An entity's display is a word of identifier characters whose number part is the decimal number. */
  lemma {:induction false} EntityWord(t: T.Token)
    requires T.IsEntity(t)
    ensures var word := T.Display(t);
      |word| >= 3 && word[1] == '$' && word[2..] == NatToString(t.number)
      && forall i :: 0 <= i < |word| ==> InClass(IdentChar, word[i])
  {
    var word := T.Display(t);
    var digits := NatToString(t.number);
    assert word[2..] == digits;
    forall i | 0 <= i < |word|
      ensures InClass(IdentChar, word[i])
    {
      if i >= 2 {
        assert word[i] == digits[i - 2];
      }
    }
  }

  lemma {:induction false} IntegerRoundTrip(n: nat, rest: string)
    requires n <= I64_MAX && Separated(rest)
    ensures NextToken(NatToString(n) + rest, Start) == Ok((T.Integer(n), Cursor(|NatToString(n)|, 1, 1 + |NatToString(n)|)))
  {
    var word := NatToString(n);
    var input := word + rest;
    ReadsWord(input, word, rest, Digit);
    ParseI64OfNatToString(n);
    assert input[0] == word[0];
    NextTokenIsTokenAt(input, Start);
    TokenAtDigit(input, Start);
  }

  /** The body of a literal made of plain characters runs to the closing quote. */
  lemma {:induction false} PlainBody(input: string, open: Cursor, bodyStart: nat, c: Cursor, close: nat)
    requires bodyStart <= c.pos <= close < |input| && input[close] == '"'
    requires forall i :: c.pos <= i < close ==> input[i] != '"' && input[i] != '\\' && input[i] != '\n'
    ensures StringBody(input, open, bodyStart, c).Ok?
    ensures StringBody(input, open, bodyStart, c).value == (input[bodyStart..close], Advance(input, Cursor(close, c.line, c.column + (close - c.pos))))
    decreases close - c.pos
  {
    if c.pos < close {
      PlainBody(input, open, bodyStart, Advance(input, c), close);
    }
  }

  /** Over a run of plain characters the body reader only moves its cursor along the line. */
  lemma {:induction false} PlainRun(input: string, open: Cursor, bodyStart: nat, c: Cursor, j: nat)
    requires bodyStart <= c.pos <= j <= |input|
    requires forall i :: c.pos <= i < j ==> input[i] != '"' && input[i] != '\\' && input[i] != '\n'
    ensures StringBody(input, open, bodyStart, c) == StringBody(input, open, bodyStart, Cursor(j, c.line, c.column + (j - c.pos)))
    decreases j - c.pos
  {
    if c.pos < j {
      var next := Advance(input, c);
      assert next == Cursor(c.pos + 1, c.line, c.column + 1) by {
        assert input[c.pos] != '\n';
      }
      assert StringBody(input, open, bodyStart, c) == StringBody(input, open, bodyStart, next);
      PlainRun(input, open, bodyStart, next, j);
      assert Cursor(j, next.line, next.column + (j - next.pos)) == Cursor(j, c.line, c.column + (j - c.pos));
    } else {
      assert c == Cursor(j, c.line, c.column + (j - c.pos));
    }
  }

  /** A literal that meets a newline or the end of the input before any quote character is an error, whatever escapes it holds. */
  lemma {:induction false} UnterminatedString(input: string, c: Cursor, j: nat)
    requires c.pos < j <= |input| && (j == |input| || input[j] == '\n')
    requires forall i :: c.pos < i < j ==> input[i] != '"'
    ensures ReadString(input, c).Err?
  {
  }

  /**
   * Without escapes, the error of an unterminated literal spans from its opening quote to the
   * newline, or to the end of the input.
   */
  lemma {:induction false} UnterminatedPlainString(input: string, c: Cursor, j: nat)
    requires c.pos < j <= |input| && input[c.pos] == '"' && (j == |input| || input[j] == '\n')
    requires forall i :: c.pos < i < j ==> input[i] != '"' && input[i] != '\\' && input[i] != '\n'
    ensures var end := Span(c.line, c.column, c.line, c.column + (j - c.pos));
      ReadString(input, c)
      == if j == |input| then Err(UnexpectedToken(end, "closing quote", "end of file"))
         else Err(UnexpectedToken(end, "closing quote before newline", "newline"))
  {
    var body := Advance(input, c);
    assert body == Cursor(c.pos + 1, c.line, c.column + 1);
    PlainRun(input, c, body.pos, body, j);
  }

  /**
   * A backslash must be followed by one of the accepted escapes: after plain characters, a
   * backslash at the end of the input, or one followed by another character, is an error.
   */
  lemma {:induction false} BadEscape(input: string, c: Cursor, k: nat)
    requires c.pos < k < |input| && input[c.pos] == '"' && input[k] == '\\'
    requires forall i :: c.pos < i < k ==> input[i] != '"' && input[i] != '\\' && input[i] != '\n'
    ensures var column := c.column + (k + 1 - c.pos);
      && (k + 1 == |input| ==>
            ReadString(input, c) == Err(UnexpectedToken(Span(c.line, c.column, c.line, column), "escaped character", "end of file")))
      && (k + 1 < |input| && !IsEscape(input[k + 1]) ==>
            ReadString(input, c) == Err(UnexpectedCharacter(Span(c.line, column, c.line, column), input[k + 1])))
  {
    var body := Advance(input, c);
    var at := Cursor(k, c.line, c.column + (k - c.pos));
    assert ReadString(input, c) == StringBody(input, c, c.pos + 1, at) by {
      assert body == Cursor(c.pos + 1, c.line, c.column + 1);
      PlainRun(input, c, body.pos, body, k);
      assert Cursor(k, body.line, body.column + (k - body.pos)) == at;
    }
    EscapeAt(input, c, c.pos + 1, at);
  }

  /** The body reader on a backslash: it needs a further character, and that must be an accepted escape. */
  lemma {:induction false} EscapeAt(input: string, open: Cursor, bodyStart: nat, at: Cursor)
    requires bodyStart <= at.pos < |input| && input[at.pos] == '\\'
    ensures at.pos + 1 == |input| ==>
      StringBody(input, open, bodyStart, at)
      == Err(UnexpectedToken(Span(open.line, open.column, at.line, at.column + 1), "escaped character", "end of file"))
    ensures at.pos + 1 < |input| && !IsEscape(input[at.pos + 1]) ==>
      StringBody(input, open, bodyStart, at)
      == Err(UnexpectedCharacter(Span(at.line, at.column + 1, at.line, at.column + 1), input[at.pos + 1]))
  {
    assert Advance(input, at) == Cursor(at.pos + 1, at.line, at.column + 1);
  }

  lemma {:induction false} StringRoundTrip(s: string, rest: string)
    requires PlainText(s) && Separated(rest)
    ensures var n := |s| + 2;
      NextToken(T.Display(T.String(s)) + rest, Start) == Ok((T.String(s), Cursor(n, 1, 1 + n)))
  {
    var input := T.Display(T.String(s)) + rest;
    assert input == "\"" + s + "\"" + rest;
    ReadStringRoundTrip(s, rest);
    NextTokenIsTokenAt(input, Start);
    TokenAtQuote(input, Start);
  }

  /** Between its quotes, plain text is read back as it is, and the cursor ends after the closing quote. */
  lemma {:induction false} ReadStringRoundTrip(s: string, rest: string)
    requires PlainText(s)
    ensures var n := |s| + 2;
      ReadString("\"" + s + "\"" + rest, Start) == Ok((s, Cursor(n, 1, 1 + n)))
  {
    var input := "\"" + s + "\"" + rest;
    assert forall i :: 1 <= i < |s| + 1 ==> input[i] == s[i - 1];
    assert Advance(input, Start) == Cursor(1, 1, 2);
    PlainBody(input, Start, 1, Cursor(1, 1, 2), |s| + 1);
    assert input[1..|s| + 1] == s;
  }

  /**
   * An escaped quote is checked and kept as written: between plain texts `a` and `b`, the literal
   * `"a\"b"` gives the text `a\"b`, backslash included, and the cursor ends after the closing quote.
   */
  lemma {:induction false} EscapedQuoteKept(a: string, b: string, rest: string)
    requires PlainText(a) && PlainText(b)
    ensures var n := |a| + |b| + 4;
      ReadString("\"" + a + "\\\"" + b + "\"" + rest, Start) == Ok((a + "\\\"" + b, Cursor(n, 1, 1 + n)))
  {
    var input := "\"" + a + "\\\"" + b + "\"" + rest;
    var k := |a| + 1;
    var close := |a| + |b| + 3;
    assert forall i :: 1 <= i < k ==> input[i] == a[i - 1];
    assert forall i :: k + 2 <= i < close ==> input[i] == b[i - k - 2];
    assert input[k] == '\\' && input[k + 1] == '"' && input[close] == '"';
    assert Advance(input, Start) == Cursor(1, 1, 2);
    EscapedBody(input, Start, Cursor(1, 1, 2), k, close);
    assert input[1..close] == a + "\\\"" + b;
  }

  /**
   * The body reader over plain characters, one escaped quote at `k` and more plain characters up to
   * the closing quote at `close`: the text is everything from the body's start up to that quote.
   */
  lemma {:induction false} EscapedBody(input: string, open: Cursor, c: Cursor, k: nat, close: nat)
    requires c.pos <= k && k + 2 <= close < |input|
    requires forall i :: c.pos <= i < k ==> input[i] != '"' && input[i] != '\\' && input[i] != '\n'
    requires input[k] == '\\' && input[k + 1] == '"' && input[close] == '"'
    requires forall i :: k + 2 <= i < close ==> input[i] != '"' && input[i] != '\\' && input[i] != '\n'
    ensures StringBody(input, open, c.pos, c)
      == Ok((input[c.pos..close], Cursor(close + 1, c.line, c.column + (close + 1 - c.pos))))
  {
    var at := Cursor(k, c.line, c.column + (k - c.pos));
    var after := Cursor(k + 2, c.line, c.column + (k + 2 - c.pos));
    var end := Cursor(close, c.line, c.column + (close - c.pos));
    assert StringBody(input, open, c.pos, c) == StringBody(input, open, c.pos, at) by {
      PlainRun(input, open, c.pos, c, k);
      assert Cursor(k, c.line, c.column + (k - c.pos)) == at;
    }
    assert StringBody(input, open, c.pos, at) == StringBody(input, open, c.pos, after) by {
      var e := Cursor(k + 1, c.line, c.column + (k + 1 - c.pos));
      assert Advance(input, at) == e;
      assert Advance(input, e) == after;
    }
    assert StringBody(input, open, c.pos, after) == StringBody(input, open, c.pos, end) by {
      PlainRun(input, open, c.pos, after, close);
      assert Cursor(close, after.line, after.column + (close - after.pos)) == end;
    }
    assert Advance(input, end) == Cursor(close + 1, c.line, c.column + (close + 1 - c.pos));
  }

  lemma {:induction false} DocCommentRoundTrip(s: string, rest: string)
    requires Lexable(T.DocComment(s)) && Separated(rest)
    ensures var n := |s| + 4;
      NextToken(T.Display(T.DocComment(s)) + rest, Start) == Ok((T.DocComment(s), Cursor(n, 1, 1 + n)))
  {
    var input := T.Display(T.DocComment(s)) + rest;
    assert input == "/// " + s + rest;
    assert !PlainCommentAt(input, Start) && !IsWhitespace(input[0]);
    NextTokenIsTokenAt(input, Start);
    TokenAtSlash(input, Start);
    assert Advance(input, Advance(input, Cursor(1, 1, 2))) == Cursor(3, 1, 4);
    DocTextRoundTrip(s, rest);
  }

  /** The text after `///` and one space is read up to the separator that follows it. */
  lemma {:induction false} DocTextRoundTrip(s: string, rest: string)
    requires Lexable(T.DocComment(s)) && Separated(rest)
    ensures var n := |s| + 4;
      DocText("/// " + s + rest, Cursor(3, 1, 4)) == (T.DocComment(s), Cursor(n, 1, 1 + n))
  {
    var input := "/// " + s + rest;
    var afterSlashes := Cursor(3, 1, 4);
    SkipWhileExact(input, afterSlashes, SpaceOrTab, 1);
    var textStart := Cursor(4, 1, 5);
    assert forall i :: 4 <= i < 4 + |s| ==> input[i] == s[i - 4];
    SkipWhileExact(input, textStart, NotNewline, |s|);
    assert input[4..4 + |s|] == s;
  }

  predicate IsTwoCharSymbol(t: T.Token) {
    t.Equal? || t.NotEqual? || t.LessEqual? || t.GreaterEqual? || t.And? || t.Or? || t.Arrow?
  }

  /** The two-character operators read back through the lookahead. */
  lemma {:induction false} TwoCharRoundTrip(t: T.Token, rest: string)
    requires IsTwoCharSymbol(t) && Separated(rest)
    ensures NextToken(T.Display(t) + rest, Start) == Ok((t, Cursor(2, 1, 3)))
  {
    var input := T.Display(t) + rest;
    assert input[0] == T.Display(t)[0] && input[1] == T.Display(t)[1];
    assert TwoCharToken(input[0], input[1]) == Some(t);
    TwoCharOperators(input, Start);
  }

  /** The one-character operators and delimiters: the next character is no second half. */
  lemma {:induction false} OneCharRoundTrip(t: T.Token, rest: string)
    requires Lexable(t) && !IsKeyword(t) && !T.IsEntity(t) && !t.Integer? && !t.String? && !t.DocComment?
    requires !IsTwoCharSymbol(t) && Separated(rest)
    ensures NextToken(T.Display(t) + rest, Start) == Ok((t, Cursor(1, 1, 2)))
  {
    if t.Divide? || t.Assign? || t.Not? || t.Less? || t.Greater? || t.Minus? {
      PrefixRoundTrip(t, rest);
    } else {
      SingleRoundTrip(t, rest);
    }
  }

  /** The characters that are a token on their own whatever follows them. */
  lemma {:induction false} SingleRoundTrip(t: T.Token, rest: string)
    requires t.Plus? || t.Multiply? || t.LeftParen? || t.RightParen? || t.LeftBrace? || t.RightBrace?
      || t.Semicolon? || t.Comma?
    ensures NextToken(T.Display(t) + rest, Start) == Ok((t, Cursor(1, 1, 2)))
  {
    var ch := T.Display(t)[0];
    assert T.Display(t) == [ch] && SingleCharToken(ch) == Some(t);
    SingleCharRoundTrip(ch, rest);
  }

  lemma {:induction false} SingleCharRoundTrip(ch: char, rest: string)
    requires SingleCharToken(ch).Some?
    ensures NextToken([ch] + rest, Start) == Ok((SingleCharToken(ch).value, Cursor(1, 1, 2)))
  {
    var input := [ch] + rest;
    assert input[0] == ch;
    NextTokenIsTokenAt(input, Start);
    TokenAtSingle(input, Start);
  }

  /** The characters that may start a longer token: a separator follows, so they stand alone. */
  lemma {:induction false} PrefixRoundTrip(t: T.Token, rest: string)
    requires t.Divide? || t.Assign? || t.Not? || t.Less? || t.Greater? || t.Minus?
    requires Separated(rest)
    ensures NextToken(T.Display(t) + rest, Start) == Ok((t, Cursor(1, 1, 2)))
  {
    var ch := T.Display(t)[0];
    assert T.Display(t) == [ch] && PrefixToken(ch) == Some(t);
    PrefixCharRoundTrip(ch, rest);
  }

  /** The one-character token of a character that may start a two-character one. */
  function PrefixToken(ch: char): Option<T.Token> {
    if ch == '/' then Some(T.Divide)
    else if ch == '=' then Some(T.Assign)
    else if ch == '!' then Some(T.Not)
    else if ch == '<' then Some(T.Less)
    else if ch == '>' then Some(T.Greater)
    else if ch == '-' then Some(T.Minus)
    else None
  }

  lemma {:induction false} PrefixCharRoundTrip(ch: char, rest: string)
    requires PrefixToken(ch).Some? && Separated(rest)
    ensures NextToken([ch] + rest, Start) == Ok((PrefixToken(ch).value, Cursor(1, 1, 2)))
  {
    var input := [ch] + rest;
    assert input[0] == ch;
    assert CharAt(input, 1) == None || CharAt(input, 1) == Some('\n');
    NextTokenIsTokenAt(input, Start);
    if ch == '/' {
      TokenAtSlash(input, Start);
    } else {
      TokenAtOneOrTwo(input, Start);
    }
  }

  /**
   * The lexer reads back the display of every lexable token: `Display` is a right inverse of
   * `next_token` when the token stands alone on its line.
   */
  lemma {:induction false} DisplayRoundTrip(t: T.Token, rest: string)
    requires Lexable(t) && Separated(rest)
    ensures var n := |T.Display(t)|;
      NextToken(T.Display(t) + rest, Start) == Ok((t, Cursor(n, 1, 1 + n)))
  {
    if IsKeyword(t) {
      KeywordRoundTrip(t, rest);
    } else if T.IsEntity(t) {
      EntityRoundTrip(t, rest);
    } else if t.Integer? {
      IntegerRoundTrip(t.intValue, rest);
    } else if t.String? {
      assert |T.Display(t)| == |t.text| + 2;
      StringRoundTrip(t.text, rest);
    } else if t.DocComment? {
      assert |T.Display(t)| == |t.doc| + 4;
      DocCommentRoundTrip(t.doc, rest);
    } else if IsTwoCharSymbol(t) {
      assert |T.Display(t)| == 2;
      TwoCharRoundTrip(t, rest);
    } else {
      assert |T.Display(t)| == 1;
      OneCharRoundTrip(t, rest);
    }
  }

  /** A lexable token's display, alone, tokenizes to that token and `Eof`. */
  lemma {:induction false} LexDisplay(t: T.Token)
    requires Lexable(t)
    ensures Lex(T.Display(t), Start) == Ok([t, T.Eof])
  {
    var input := T.Display(t);
    DisplayRoundTrip(t, []);
    assert input + [] == input;
    var next := NextToken(input, Start).value.1;
    assert next.pos == |input|;
    LexStops(input, next);
    LexStep(input, Start);
    assert [t] + [T.Eof] == [t, T.Eof];
  }
}
