/**
 * What the lexer computes, as functions of the input and a cursor: the position, line and column
 * reached, the token read there, and the whole token sequence. Characters are indexed one by one,
 * so the input is taken to be ASCII (where a character index and a byte offset agree).
 */
module LexerSpec {
  import opened Common
  import opened Text
  import opened Spans
  import opened Errors
  import T = Tokens

  /** Line and column numbers start at 1. */
  type Pos1 = n: int | n >= 1 witness 1

  /** The lexer's cursor: the index of the current character and its line and column. */
  datatype Cursor = Cursor(pos: nat, line: Pos1, column: Pos1)

  /** `Lexer::new`: the first character, on line 1, column 1. */
  const Start := Cursor(0, 1, 1)

  /** `input.chars().nth(pos)`. */
  function CharAt(input: string, pos: nat): (r: Option<char>)
    ensures r.Some? <==> pos < |input|
    ensures r.Some? ==> r.value == input[pos]
  {
    if pos < |input| then Some(input[pos]) else None
  }

  /** `Lexer::advance`: a newline moves to column 1 of the next line, any other character one column right. */
  function Advance(input: string, c: Cursor): (r: Cursor)
    ensures r.pos == c.pos + 1
  {
    if c.pos < |input| && input[c.pos] == '\n' then Cursor(c.pos + 1, c.line + 1, 1)
    else if c.pos < |input| then Cursor(c.pos + 1, c.line, c.column + 1)
    else Cursor(c.pos + 1, c.line, c.column)
  }

  // ---------------------------------------------------------------------------------------------
  // Line and column as functions of the text read so far

  /** The number of newlines in `s`. */
  function LineBreaks(s: string): nat {
    if s == [] then 0 else LineBreaks(s[..|s| - 1]) + (if s[|s| - 1] == '\n' then 1 else 0)
  }

  /** The column after reading `s`: one past the characters since the last newline. */
  function ColumnAfter(s: string): Pos1 {
    if s == [] then 1 else if s[|s| - 1] == '\n' then 1 else ColumnAfter(s[..|s| - 1]) + 1
  }

  /** The cursor's line and column are those of its position in the input. */
  predicate Tracks(input: string, c: Cursor) {
    c.pos <= |input| && c.line == 1 + LineBreaks(input[..c.pos]) && c.column == ColumnAfter(input[..c.pos])
  }

  lemma {:induction false} StartTracks(input: string)
    ensures Tracks(input, Start)
  {
    assert input[..0] == [];
  }

  /** `advance` keeps line and column in step with the position. */
  lemma {:induction false} AdvanceTracks(input: string, c: Cursor)
    requires Tracks(input, c) && c.pos < |input|
    ensures Tracks(input, Advance(input, c))
  {
    var read := input[..c.pos + 1];
    assert read[..|read| - 1] == input[..c.pos];
  }

  // ---------------------------------------------------------------------------------------------
  // Character classes and runs

  /** Rust `char::is_whitespace` (the Unicode `White_Space` characters). */
  predicate IsWhitespace(ch: char) {
    var u := ch as int;
    (0x09 <= u <= 0x0D) || u == 0x20 || u == 0x85 || u == 0xA0 || u == 0x1680
    || (0x2000 <= u <= 0x200A) || u == 0x2028 || u == 0x2029 || u == 0x202F || u == 0x205F || u == 0x3000
  }

  /** `char::is_alphabetic`, restricted to ASCII letters. */
  predicate IsAlphabetic(ch: char) {
    ('a' <= ch <= 'z') || ('A' <= ch <= 'Z')
  }

  /** The classes of the lexer's `while let Some(ch) = self.current_char` scanning loops. */
  datatype CharClass =
    | Blank        // `skip_whitespace`: whitespace other than a newline
    | Digit        // `read_number`
    | IdentChar    // `read_identifier`: alphanumeric, `_` or `$`
    | SpaceOrTab   // the blanks after `///`
    | NotNewline   // the rest of a comment line

  predicate InClass(k: CharClass, ch: char) {
    match k
    case Blank => IsWhitespace(ch) && ch != '\n'
    case Digit => IsDigit(ch)
    case IdentChar => IsAlphabetic(ch) || IsDigit(ch) || ch == '_' || ch == '$'
    case SpaceOrTab => ch == ' ' || ch == '\t'
    case NotNewline => ch != '\n'
  }

  /** Advance over the run of class-`k` characters at the cursor. No class holds a newline, so the line stays. */
  function SkipWhile(input: string, c: Cursor, k: CharClass): (r: Cursor)
    ensures c.pos <= r.pos && r.line == c.line && r.column == c.column + (r.pos - c.pos)
    ensures c.pos <= |input| ==> r.pos <= |input|
    ensures c.pos < |input| && InClass(k, input[c.pos]) ==> c.pos < r.pos
    decreases |input| - c.pos
  {
    if c.pos < |input| && InClass(k, input[c.pos]) then SkipWhile(input, Advance(input, c), k) else c
  }

  /** `SkipWhile` stops at the end of the maximal run, and keeps line and column in step. */
  lemma {:induction false} SkipWhileRun(input: string, c: Cursor, k: CharClass)
    requires c.pos <= |input|
    ensures var r := SkipWhile(input, c, k);
      && (forall i :: c.pos <= i < r.pos ==> InClass(k, input[i]))
      && (r.pos == |input| || !InClass(k, input[r.pos]))
      && (Tracks(input, c) ==> Tracks(input, r))
    decreases |input| - c.pos
  {
    if c.pos < |input| && InClass(k, input[c.pos]) {
      SkipWhileRun(input, Advance(input, c), k);
      if Tracks(input, c) {
        AdvanceTracks(input, c);
      }
    }
  }

  /** A run of exactly `n` class-`k` characters is skipped in exactly `n` steps. */
  lemma {:induction false} SkipWhileExact(input: string, c: Cursor, k: CharClass, n: nat)
    requires c.pos + n <= |input|
    requires forall i :: c.pos <= i < c.pos + n ==> InClass(k, input[i])
    requires c.pos + n == |input| || !InClass(k, input[c.pos + n])
    ensures SkipWhile(input, c, k).pos == c.pos + n
  {
    SkipWhileRun(input, c, k);
  }

  // ---------------------------------------------------------------------------------------------
  // Literals, identifiers and comments

  /** `read_number`: the run of digits, parsed as an `i64`. */
  function ReadNumber(input: string, c: Cursor): Result<(i64, Cursor)>
    requires c.pos <= |input|
  {
    var e := SkipWhile(input, c, Digit);
    var text := input[c.pos..e.pos];
    match ParseI64(text)
    case Some(n) => Ok((n, e))
    case None => Err(InvalidNumber(Span(e.line, c.column, e.line, e.column - 1), text))
  }

  /** The escapes `read_string_literal` accepts after a backslash. */
  predicate IsEscape(ch: char) {
    ch == 'n' || ch == 't' || ch == 'r' || ch == '\\' || ch == '"'
  }

  /**
   * The loop of `read_string_literal` from cursor `c`, the body having started at `bodyStart` and
   * the literal's opening quote sitting at `open`. Escapes are checked but kept as written: the
   * text returned is the input from `bodyStart` up to the closing quote, unchanged.
   */
  function StringBody(input: string, open: Cursor, bodyStart: nat, c: Cursor): (r: Result<(string, Cursor)>)
    requires bodyStart <= c.pos
    ensures r.Ok? ==> c.pos < r.value.1.pos <= |input|
    ensures r.Ok? ==> input[r.value.1.pos - 1] == '"' && forall i :: c.pos <= i < r.value.1.pos ==> input[i] != '\n'
    ensures r.Ok? ==> r.value.0 == input[bodyStart..r.value.1.pos - 1]
    decreases |input| - c.pos
  {
    if c.pos >= |input| then
      Err(UnexpectedToken(Span(open.line, open.column, c.line, c.column), "closing quote", "end of file"))
    else if input[c.pos] == '"' then
      Ok((input[bodyStart..c.pos], Advance(input, c)))
    else if input[c.pos] == '\n' then
      Err(UnexpectedToken(Span(open.line, open.column, c.line, c.column), "closing quote before newline", "newline"))
    else if input[c.pos] == '\\' then
      var e := Advance(input, c);
      if e.pos >= |input| then
        Err(UnexpectedToken(Span(open.line, open.column, e.line, e.column), "escaped character", "end of file"))
      else if IsEscape(input[e.pos]) then
        StringBody(input, open, bodyStart, Advance(input, e))
      else
        Err(UnexpectedCharacter(Span(e.line, e.column, e.line, e.column), input[e.pos]))
    else
      StringBody(input, open, bodyStart, Advance(input, c))
  }

  /** `read_string_literal` at an opening quote. */
  function ReadString(input: string, c: Cursor): (r: Result<(string, Cursor)>)
    ensures r.Ok? ==> c.pos < r.value.1.pos <= |input|
    ensures r.Ok? ==> c.pos + 1 < r.value.1.pos && input[r.value.1.pos - 1] == '"'
                      && forall i :: c.pos < i < r.value.1.pos ==> input[i] != '\n'
    ensures r.Ok? ==> r.value.0 == input[c.pos + 1..r.value.1.pos - 1]
  {
    var body := Advance(input, c);
    StringBody(input, c, body.pos, body)
  }

  /** The keyword match of `read_identifier`. */
  function Keyword(ident: string): Option<T.Token> {
    if ident == "fn" then Some(T.Fn)
    else if ident == "main" then Some(T.Main)
    else if ident == "ret" then Some(T.Ret)
    else if ident == "int" then Some(T.Int)
    else if ident == "str" then Some(T.Str)
    else if ident == "bool" then Some(T.Bool)
    else if ident == "true" then Some(T.True)
    else if ident == "false" then Some(T.False)
    else if ident == "if" then Some(T.If)
    else if ident == "else" then Some(T.Else)
    else if ident == "describe" then Some(T.Describe)
    else if ident == "print" then Some(T.Print)
    else None
  }

  /**
   * `parse_entity` for an identifier that ends just before `column`: `x$digits` is an entity when
   * `x` is `v`, `c` or `f`; the number is parsed before the prefix is looked at, so any `x$` with
   * a malformed number is an error.
   */
  function ParseEntity(ident: string, line: Pos1, column: Pos1): (r: Result<Option<T.Token>>)
    requires |ident| < column
    ensures r.Ok? && r.value.Some? ==> T.IsEntity(r.value.value) && |ident| >= 3 && ident[1] == '$'
    ensures r.Ok? && r.value.Some? ==> T.EntityNumber(r.value.value) == ParseU32(ident[2..])
                                       && (r.value.value.Variable? <==> ident[0] == 'v')
                                       && (r.value.value.Constant? <==> ident[0] == 'c')
    ensures r.Err? ==> r.error == InvalidEntityNumber(Span(line, column - |ident|, line, column - 1), ident)
    ensures r.Err? <==> |ident| >= 3 && ident[1] == '$' && ParseU32(ident[2..]).None?
    ensures r == Ok(None) <==> |ident| < 3 || ident[1] != '$'
                               || (ParseU32(ident[2..]).Some? && ident[0] != 'v' && ident[0] != 'c' && ident[0] != 'f')
  {
    if |ident| < 3 || ident[1] != '$' then Ok(None)
    else
      match ParseU32(ident[2..])
      case None => Err(InvalidEntityNumber(Span(line, column - |ident|, line, column - 1), ident))
      case Some(n) =>
        if ident[0] == 'v' then Ok(Some(T.Variable(n)))
        else if ident[0] == 'c' then Ok(Some(T.Constant(n)))
        else if ident[0] == 'f' then Ok(Some(T.Function(n)))
        else Ok(None)
  }

  /**
   * `read_identifier`: an entity, else a keyword, else an unknown identifier. The word is the
   * whole run of identifier characters at the cursor.
   */
  function ReadIdentifier(input: string, c: Cursor): (r: Result<(T.Token, Cursor)>)
    requires c.pos <= |input|
    ensures var e := SkipWhile(input, c, IdentChar); var ident := input[c.pos..e.pos];
      && (r.Ok? ==> r.value.1 == e && (T.IsEntity(r.value.0) || Keyword(ident) == Some(r.value.0)))
      && (|ident| >= 3 && ident[1] == '$' && ParseU32(ident[2..]).None? ==> r.Err? && r.error.InvalidEntityNumber?)
      && (ParseEntity(ident, e.line, e.column) == Ok(None) && Keyword(ident).None? ==>
            r == Err(UnknownIdentifier(Span(e.line, c.column, e.line, e.column - 1), ident)))
  {
    var e := SkipWhile(input, c, IdentChar);
    var ident := input[c.pos..e.pos];
    var entity :- ParseEntity(ident, e.line, e.column);
    if entity.Some? then Ok((entity.value, e))
    else
      match Keyword(ident)
      case Some(t) => Ok((t, e))
      case None => Err(UnknownIdentifier(Span(e.line, c.column, e.line, e.column - 1), ident))
  }

  /** The comment text: blanks after the slashes skipped, then everything up to the newline. */
  function DocText(input: string, afterSlashes: Cursor): (r: (T.Token, Cursor))
    requires afterSlashes.pos <= |input|
    ensures r.0.DocComment? && afterSlashes.pos <= r.1.pos <= |input|
  {
    var textStart := SkipWhile(input, afterSlashes, SpaceOrTab);
    var textEnd := SkipWhile(input, textStart, NotNewline);
    (T.DocComment(input[textStart.pos..textEnd.pos]), textEnd)
  }

  /**
   * `read_doc_comment` as written. It is entered with the cursor on the second of the three
   * slashes (the first was consumed by `next_token`) and advances three times, so it also skips
   * the first character after `///`. `None` stands for the out-of-range slice (a panic) when the
   * input ends right after `///`.
   */
  function ReadDocCommentAsWritten(input: string, second: Cursor): Option<(T.Token, Cursor)> {
    var afterSlashes := Advance(input, Advance(input, Advance(input, second)));
    if afterSlashes.pos <= |input| then Some(DocText(input, afterSlashes)) else None
  }

  /** `read_doc_comment` advancing over the two slashes still ahead of the cursor. */
  function ReadDocComment(input: string, second: Cursor): (r: (T.Token, Cursor))
    requires second.pos + 1 < |input|
    ensures r.0.DocComment? && second.pos < r.1.pos <= |input|
  {
    DocText(input, Advance(input, Advance(input, second)))
  }

  // ---------------------------------------------------------------------------------------------
  // Tokens

  /** An operator that is one character, or two when `next` follows it. */
  function OneOrTwo(input: string, c: Cursor, next: char, two: T.Token, one: T.Token): (T.Token, Cursor) {
    if CharAt(input, c.pos + 1) == Some(next) then (two, Advance(input, Advance(input, c)))
    else (one, Advance(input, c))
  }

  /** The single-character tokens. */
  function SingleCharToken(ch: char): Option<T.Token> {
    if ch == '+' then Some(T.Plus)
    else if ch == '*' then Some(T.Multiply)
    else if ch == '(' then Some(T.LeftParen)
    else if ch == ')' then Some(T.RightParen)
    else if ch == '{' then Some(T.LeftBrace)
    else if ch == '}' then Some(T.RightBrace)
    else if ch == ';' then Some(T.Semicolon)
    else if ch == ',' then Some(T.Comma)
    else None
  }

  /** A `//` comment that is not a `///` documentation comment starts at the cursor. */
  predicate PlainCommentAt(input: string, c: Cursor) {
    CharAt(input, c.pos) == Some('/') && CharAt(input, c.pos + 1) == Some('/') && CharAt(input, c.pos + 2) != Some('/')
  }

  /**
   * The arms of `next_token` that return a token or an error at once: everything but blanks,
   * newlines and `//` comments.
   */
  function TokenAt(input: string, c: Cursor): (r: Result<(T.Token, Cursor)>)
    requires c.pos < |input| && !PlainCommentAt(input, c)
    ensures r.Ok? ==> c.pos < r.value.1.pos <= |input| && r.value.0 != T.Eof
  {
    var ch := input[c.pos];
    if IsDigit(ch) then
      var (n, e) :- ReadNumber(input, c);
      Ok((T.Integer(n), e))
    else if ch == '=' then Ok(OneOrTwo(input, c, '=', T.Equal, T.Assign))
    else if ch == '!' then Ok(OneOrTwo(input, c, '=', T.NotEqual, T.Not))
    else if ch == '<' then Ok(OneOrTwo(input, c, '=', T.LessEqual, T.Less))
    else if ch == '>' then Ok(OneOrTwo(input, c, '=', T.GreaterEqual, T.Greater))
    else if ch == '&' || ch == '|' then
      if CharAt(input, c.pos + 1) == Some(ch) then
        Ok((if ch == '&' then T.And else T.Or, Advance(input, Advance(input, c))))
      else Err(UnexpectedCharacter(Single(c.line, c.column), ch))
    else if ch == '"' then
      var (s, e) :- ReadString(input, c);
      Ok((T.String(s), e))
    else if IsAlphabetic(ch) || ch == '_' then ReadIdentifier(input, c)
    else if ch == '/' then
      if CharAt(input, c.pos + 1) == Some('/') then Ok(ReadDocComment(input, Advance(input, c)))
      else Ok((T.Divide, Advance(input, c)))
    else if ch == '-' then Ok(OneOrTwo(input, c, '>', T.Arrow, T.Minus))
    else if SingleCharToken(ch).Some? then Ok((SingleCharToken(ch).value, Advance(input, c)))
    else Err(UnexpectedCharacter(Single(c.line, c.column), ch))
  }

  /**
   * `next_token`: blanks and `//` comments are skipped, a newline is a token of its own, and every
   * other token consumes at least one character; `Eof` is returned only at the end of the input.
   */
  function NextToken(input: string, c: Cursor): (r: Result<(T.Token, Cursor)>)
    ensures r.Ok? && r.value.0 != T.Eof ==> c.pos < r.value.1.pos <= |input|
    ensures r.Ok? && r.value.0 == T.Eof ==> |input| <= r.value.1.pos
    decreases |input| - c.pos
  {
    if c.pos >= |input| then Ok((T.Eof, c))
    else if IsWhitespace(input[c.pos]) then
      if input[c.pos] == '\n' then Ok((T.Newline, Advance(input, c)))
      else NextToken(input, SkipWhile(input, c, Blank))
    else if PlainCommentAt(input, c) then NextToken(input, SkipWhile(input, Advance(input, c), NotNewline))
    else TokenAt(input, c)
  }

  /** `tokenize` from cursor `c`: tokens up to and including the first `Eof`, or the first error. */
  function Lex(input: string, c: Cursor): Result<seq<T.Token>>
    decreases |input| - c.pos
  {
    var (t, next) :- NextToken(input, c);
    if t == T.Eof then Ok([T.Eof])
    else
      var rest :- Lex(input, next);
      Ok([t] + rest)
  }

  /** One step of `Lex`: a token other than `Eof` is followed by the tokens of the rest. */
  lemma {:induction false} LexStep(input: string, c: Cursor)
    requires NextToken(input, c).Ok? && NextToken(input, c).value.0 != T.Eof
    ensures Lex(input, c) == Prepend([NextToken(input, c).value.0], Lex(input, NextToken(input, c).value.1))
  {
  }

  /** `Lex` stops at `Eof`, and at the first error. */
  lemma {:induction false} LexStops(input: string, c: Cursor)
    ensures NextToken(input, c).Ok? && NextToken(input, c).value.0 == T.Eof ==> Lex(input, c) == Ok([T.Eof])
    ensures NextToken(input, c).Err? ==> Lex(input, c) == Err(NextToken(input, c).error)
  {
  }

  lemma {:induction false} PrependEmpty(r: Result<seq<T.Token>>)
    ensures Prepend([], r) == r
  {
    if r.Ok? {
      assert [] + r.value == r.value;
    }
  }

  lemma {:induction false} PrependTwice(a: seq<T.Token>, b: seq<T.Token>, r: Result<seq<T.Token>>)
    ensures Prepend(a, Prepend(b, r)) == Prepend(a + b, r)
  {
    if r.Ok? {
      assert a + (b + r.value) == (a + b) + r.value;
    }
  }

  /** `tokens` followed by the outcome `r` of lexing the rest. */
  function Prepend(tokens: seq<T.Token>, r: Result<seq<T.Token>>): Result<seq<T.Token>> {
    if r.Ok? then Ok(tokens + r.value) else r
  }
}
