/**
 * The cursor-based tokenizer. Every method moves the cursor exactly as the functions of
 * `LexerSpec` say, and `Tokenize` returns `LexerSpec.Lex` of the input.
 */
module Lexers {
  import opened Common
  import opened Text
  import opened Spans
  import opened Errors
  import T = Tokens
  import S = LexerSpec

  class Lexer {
    const input: string
    var position: nat
    var currentChar: Option<char>
    var line: S.Pos1
    var column: S.Pos1

    function Cursor(): S.Cursor
      reads this
    {
      S.Cursor(position, line, column)
    }

    /** `current_char` is the character at `position`, which never runs past the end. */
    predicate Valid()
      reads this
    {
      currentChar == S.CharAt(input, position) && position <= |input|
    }

    /** `r` is the outcome `spec` predicts, and on success the cursor is where `spec` leaves it. */
    predicate Agrees<R(==)>(r: Result<R>, spec: Result<(R, S.Cursor)>)
      reads this
    {
      && (r.Ok? <==> spec.Ok?)
      && (r.Ok? ==> r.value == spec.value.0 && Cursor() == spec.value.1)
      && (r.Err? ==> r.error == spec.error)
    }

    /** `Lexer::new`. */
    constructor (input: string)
      ensures this.input == input && Valid() && Cursor() == S.Start
    {
      this.input := input;
      position := 0;
      line := 1;
      column := 1;
      currentChar := S.CharAt(input, 0);
    }

    /** `Lexer::advance`. */
    method Advance()
      requires currentChar == S.CharAt(input, position)
      modifies this
      ensures currentChar == S.CharAt(input, position)
      ensures Cursor() == S.Advance(input, old(Cursor()))
    {
      if currentChar.Some? {
        if currentChar.value == '\n' {
          line := line + 1;
          column := 1;
        } else {
          column := column + 1;
        }
      }
      position := position + 1;
      currentChar := S.CharAt(input, position);
    }

    /** `Lexer::peek`: the character after the current one. */
    function Peek(): Option<char>
      reads this
    {
      S.CharAt(input, position + 1)
    }

    /** A `while let Some(ch) = self.current_char` loop that advances over the class-`k` run. */
    method SkipWhile(k: S.CharClass)
      requires Valid()
      modifies this
      ensures Valid() && Cursor() == S.SkipWhile(input, old(Cursor()), k)
    {
      while currentChar.Some? && S.InClass(k, currentChar.value)
        invariant Valid()
        invariant S.SkipWhile(input, Cursor(), k) == S.SkipWhile(input, old(Cursor()), k)
        decreases |input| - position
      {
        Advance();
      }
    }

    /** `skip_whitespace`: blanks other than newlines. */
    method SkipWhitespace()
      requires Valid()
      modifies this
      ensures Valid() && Cursor() == S.SkipWhile(input, old(Cursor()), S.Blank)
    {
      SkipWhile(S.Blank);
    }

    /** `read_number`. */
    method ReadNumber() returns (r: Result<i64>)
      requires Valid()
      modifies this
      ensures Valid() && Agrees(r, S.ReadNumber(input, old(Cursor())))
    {
      var startPos := position;
      var startCol := column;
      SkipWhile(S.Digit);
      var numberText := input[startPos..position];
      match ParseI64(numberText) {
        case Some(n) => r := Ok(n);
        case None => r := Err(InvalidNumber(Span(line, startCol, line, column - 1), numberText));
      }
    }

    /** `read_string_literal`, entered on the opening quote. */
    method ReadStringLiteral() returns (r: Result<string>)
      requires Valid() && currentChar == Some('"')
      modifies this
      ensures Valid() && Agrees(r, S.ReadString(input, old(Cursor())))
    {
      ghost var open := Cursor();
      var startLine := line;
      var startCol := column;
      Advance();
      var startPos := position;
      while currentChar.Some?
        invariant Valid() && startPos <= position
        invariant S.StringBody(input, open, startPos, Cursor()) == S.ReadString(input, open)
        decreases |input| - position
      {
        var ch := currentChar.value;
        if ch == '"' {
          var content := input[startPos..position];
          Advance();
          return Ok(content);
        } else if ch == '\n' {
          return Err(UnexpectedToken(Span(startLine, startCol, line, column), "closing quote before newline", "newline"));
        } else if ch == '\\' {
          Advance();
          if currentChar.Some? {
            var escaped := currentChar.value;
            if S.IsEscape(escaped) {
              Advance();
            } else {
              return Err(UnexpectedCharacter(Span(line, column, line, column), escaped));
            }
          } else {
            return Err(UnexpectedToken(Span(startLine, startCol, line, column), "escaped character", "end of file"));
          }
        } else {
          Advance();
        }
      }
      r := Err(UnexpectedToken(Span(startLine, startCol, line, column), "closing quote", "end of file"));
    }

    /** `read_identifier`: an entity, a keyword, or an `UnknownIdentifier` error. */
    method ReadIdentifier() returns (r: Result<T.Token>)
      requires Valid()
      modifies this
      ensures Valid() && Agrees(r, S.ReadIdentifier(input, old(Cursor())))
    {
      var startPos := position;
      var startCol := column;
      SkipWhile(S.IdentChar);
      var identifier := input[startPos..position];
      var entity := S.ParseEntity(identifier, line, column);
      if entity.Err? {
        return Err(entity.error);
      }
      if entity.value.Some? {
        return Ok(entity.value.value);
      }
      match S.Keyword(identifier) {
        case Some(t) => r := Ok(t);
        case None => r := Err(UnknownIdentifier(Span(line, startCol, line, column - 1), identifier));
      }
    }

    /** `read_doc_comment`, entered on the second of the three slashes: skips the two still ahead. */
    method ReadDocComment() returns (t: T.Token)
      requires Valid() && position + 1 < |input|
      modifies this
      ensures Valid() && (t, Cursor()) == S.ReadDocComment(input, old(Cursor()))
    {
      Advance();
      Advance();
      SkipWhile(S.SpaceOrTab);
      var startPos := position;
      SkipWhile(S.NotNewline);
      t := T.DocComment(input[startPos..position]);
    }

    /** An operator of one character, or of two when `next` follows. */
    method OneOrTwo(next: char, two: T.Token, one: T.Token) returns (t: T.Token)
      requires Valid() && position < |input|
      modifies this
      ensures Valid() && (t, Cursor()) == S.OneOrTwo(input, old(Cursor()), next, two, one)
    {
      if Peek() == Some(next) {
        Advance();
        Advance();
        t := two;
      } else {
        Advance();
        t := one;
      }
    }

    /** The arms of `next_token` that return at once: everything but blanks, newlines and `//` comments. */
    method ReadToken() returns (r: Result<T.Token>)
      requires Valid() && position < |input| && !S.PlainCommentAt(input, Cursor())
      modifies this
      ensures Valid() && Agrees(r, S.TokenAt(input, old(Cursor())))
    {
      var ch := currentChar.value;
      if IsDigit(ch) {
        var number := ReadNumber();
        if number.Err? {
          return Err(number.error);
        }
        r := Ok(T.Integer(number.value));
      } else if ch == '=' {
        var t := OneOrTwo('=', T.Equal, T.Assign);
        r := Ok(t);
      } else if ch == '!' {
        var t := OneOrTwo('=', T.NotEqual, T.Not);
        r := Ok(t);
      } else if ch == '<' {
        var t := OneOrTwo('=', T.LessEqual, T.Less);
        r := Ok(t);
      } else if ch == '>' {
        var t := OneOrTwo('=', T.GreaterEqual, T.Greater);
        r := Ok(t);
      } else if ch == '&' || ch == '|' {
        if Peek() == Some(ch) {
          Advance();
          Advance();
          r := Ok(if ch == '&' then T.And else T.Or);
        } else {
          r := Err(UnexpectedCharacter(Span(line, column, line, column), ch));
        }
      } else if ch == '"' {
        var literal := ReadStringLiteral();
        if literal.Err? {
          return Err(literal.error);
        }
        r := Ok(T.String(literal.value));
      } else if S.IsAlphabetic(ch) || ch == '_' {
        r := ReadIdentifier();
      } else if ch == '/' {
        if Peek() == Some('/') {
          Advance();
          var doc := ReadDocComment();
          r := Ok(doc);
        } else {
          Advance();
          r := Ok(T.Divide);
        }
      } else if ch == '-' {
        var t := OneOrTwo('>', T.Arrow, T.Minus);
        r := Ok(t);
      } else if S.SingleCharToken(ch).Some? {
        Advance();
        r := Ok(S.SingleCharToken(ch).value);
      } else {
        r := Err(UnexpectedCharacter(Span(line, column, line, column), ch));
      }
    }

    /** `next_token`: skips blanks and `//` comments, then reads one token. */
    method NextToken() returns (r: Result<T.Token>)
      requires Valid()
      modifies this
      ensures Valid() && Agrees(r, S.NextToken(input, old(Cursor())))
    {
      while true
        invariant Valid()
        invariant S.NextToken(input, Cursor()) == S.NextToken(input, old(Cursor()))
        decreases |input| - position
      {
        if currentChar.None? {
          return Ok(T.Eof);
        }
        var ch := currentChar.value;
        ghost var here := Cursor();
        if S.IsWhitespace(ch) {
          if ch == '\n' {
            Advance();
            return Ok(T.Newline);
          }
          assert S.NextToken(input, here) == S.NextToken(input, S.SkipWhile(input, here, S.Blank));
          SkipWhitespace();
        } else if ch == '/' && Peek() == Some('/') && S.CharAt(input, position + 2) != Some('/') {
          // A regular comment: skip to the end of the line.
          assert S.PlainCommentAt(input, here);
          assert S.NextToken(input, here) == S.NextToken(input, S.SkipWhile(input, S.Advance(input, here), S.NotNewline));
          Advance();
          SkipWhile(S.NotNewline);
        } else {
          r := ReadToken();
          return;
        }
      }
    }

    /** `tokenize`: tokens up to and including `Eof`, or the first error. */
    method Tokenize() returns (r: Result<seq<T.Token>>)
      requires Valid()
      modifies this
      ensures Valid() && r == S.Lex(input, old(Cursor()))
    {
      var tokens: seq<T.Token> := [];
      S.PrependEmpty(S.Lex(input, Cursor()));
      while true
        invariant Valid()
        invariant S.Lex(input, old(Cursor())) == S.Prepend(tokens, S.Lex(input, Cursor()))
        decreases |input| - position
      {
        ghost var before := Cursor();
        var token := NextToken();
        S.LexStops(input, before);
        if token.Err? {
          return Err(token.error);
        }
        if token.value == T.Eof {
          return Ok(tokens + [token.value]);
        }
        S.LexStep(input, before);
        S.PrependTwice(tokens, [token.value], S.Lex(input, Cursor()));
        tokens := tokens + [token.value];
      }
    }
  }
}
