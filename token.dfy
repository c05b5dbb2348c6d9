/** The tokens produced by the lexer. */
module Tokens {
  import opened Common
  import opened Text
  import Entities
  import Spans

  datatype Token =
    // literals
    | Integer(intValue: i64)
    | String(text: string)
    | Boolean(boolValue: bool)
    // entities
    | Variable(number: u32)
    | Constant(number: u32)
    | Function(number: u32)
    // keywords
    | Fn | Main | Ret | Int | Str | Bool | True | False | If | Else | Describe | Print
    // operators
    | Plus | Minus | Multiply | Divide | Assign
    | Equal | NotEqual | Less | Greater | LessEqual | GreaterEqual
    | And | Or | Not
    // delimiters
    | LeftParen | RightParen | LeftBrace | RightBrace | Semicolon | Comma | Arrow
    // documentation and special tokens
    | DocComment(doc: string)
    | Eof
    | Newline

  /** `Token::is_doc_comment`. */
  predicate IsDocComment(t: Token) {
    t.DocComment?
  }

  /** `Token::is_entity`. */
  predicate IsEntity(t: Token) {
    t.Variable? || t.Constant? || t.Function?
  }

  /** `Token::entity_number`: the number of an entity token. */
  function EntityNumber(t: Token): (r: Option<u32>)
    ensures r.Some? <==> IsEntity(t)
    ensures r.Some? ==> r.value == t.number
  {
    match t
    case Variable(n) => Some(n)
    case Constant(n) => Some(n)
    case Function(n) => Some(n)
    case _ => None
  }

  /** The token that names an entity of the given kind and number. */
  function EntityToken(kind: Entities.EntityKind, n: u32): (t: Token)
    ensures IsEntity(t) && EntityNumber(t) == Some(n) && EntityKindOf(t) == kind
  {
    match kind
    case Variable => Variable(n)
    case Constant => Constant(n)
    case Function => Function(n)
  }

  /** The kind of an entity token. */
  function EntityKindOf(t: Token): Entities.EntityKind
    requires IsEntity(t)
  {
    if t.Variable? then Entities.Variable else if t.Constant? then Entities.Constant else Entities.Function
  }

  /** The variant index of a token (`mem::discriminant`), ignoring payloads. */
  function Discriminant(t: Token): nat {
    match t
    case Integer(_) => 0
    case String(_) => 1
    case Boolean(_) => 2
    case Variable(_) => 3
    case Constant(_) => 4
    case Function(_) => 5
    case Fn => 6
    case Main => 7
    case Ret => 8
    case Int => 9
    case Str => 10
    case Bool => 11
    case True => 12
    case False => 13
    case If => 14
    case Else => 15
    case Describe => 16
    case Print => 17
    case Plus => 18
    case Minus => 19
    case Multiply => 20
    case Divide => 21
    case Assign => 22
    case Equal => 23
    case NotEqual => 24
    case Less => 25
    case Greater => 26
    case LessEqual => 27
    case GreaterEqual => 28
    case And => 29
    case Or => 30
    case Not => 31
    case LeftParen => 32
    case RightParen => 33
    case LeftBrace => 34
    case RightBrace => 35
    case Semicolon => 36
    case Comma => 37
    case Arrow => 38
    case DocComment(_) => 39
    case Eof => 40
    case Newline => 41
  }

  /**
   * Whether `a` is of the variant of `b`, ignoring payloads (`mem::discriminant(a) ==
   * mem::discriminant(b)`): the same constructor for the variants that carry a payload,
   * equality for the others.
   */
  predicate SameVariant(a: Token, b: Token) {
    if b.Integer? then a.Integer?
    else if b.String? then a.String?
    else if b.Boolean? then a.Boolean?
    else if b.Variable? then a.Variable?
    else if b.Constant? then a.Constant?
    else if b.Function? then a.Function?
    else if b.DocComment? then a.DocComment?
    else a == b
  }

  /** The token of a variant with its payload, if any, cleared. */
  function Payloadless(t: Token): Token {
    if t.Integer? then Integer(0)
    else if t.String? then String([])
    else if t.Boolean? then Boolean(false)
    else if t.Variable? then Variable(0)
    else if t.Constant? then Constant(0)
    else if t.Function? then Function(0)
    else if t.DocComment? then DocComment([])
    else t
  }

  /** The payloadless token of a variant index. */
  function FromDiscriminant(d: nat): Token {
    if d == 0 then Integer(0)
    else if d == 1 then String([])
    else if d == 2 then Boolean(false)
    else if d == 3 then Variable(0)
    else if d == 4 then Constant(0)
    else if d == 5 then Function(0)
    else if d == 6 then Fn
    else if d == 7 then Main
    else if d == 8 then Ret
    else if d == 9 then Int
    else if d == 10 then Str
    else if d == 11 then Bool
    else if d == 12 then True
    else if d == 13 then False
    else if d == 14 then If
    else if d == 15 then Else
    else if d == 16 then Describe
    else if d == 17 then Print
    else if d == 18 then Plus
    else if d == 19 then Minus
    else if d == 20 then Multiply
    else if d == 21 then Divide
    else if d == 22 then Assign
    else if d == 23 then Equal
    else if d == 24 then NotEqual
    else if d == 25 then Less
    else if d == 26 then Greater
    else if d == 27 then LessEqual
    else if d == 28 then GreaterEqual
    else if d == 29 then And
    else if d == 30 then Or
    else if d == 31 then Not
    else if d == 32 then LeftParen
    else if d == 33 then RightParen
    else if d == 34 then LeftBrace
    else if d == 35 then RightBrace
    else if d == 36 then Semicolon
    else if d == 37 then Comma
    else if d == 38 then Arrow
    else if d == 39 then DocComment([])
    else if d == 40 then Eof
    else Newline
  }

  /** Clearing the payload keeps the variant index. */
  lemma {:induction false} PayloadlessKeepsDiscriminant(t: Token)
    ensures Discriminant(Payloadless(t)) == Discriminant(t)
  {
  }

  /** The variant index names the variant: the payloadless token is recovered from it. */
  lemma {:induction false} DiscriminantNamesVariant(t: Token)
    ensures FromDiscriminant(Discriminant(t)) == Payloadless(t)
  {
    if Discriminant(t) < 18 {
      LowDiscriminant(t);
    } else {
      HighDiscriminant(t);
    }
  }

  lemma {:induction false} LowDiscriminant(t: Token)
    requires Discriminant(t) < 18
    ensures FromDiscriminant(Discriminant(t)) == Payloadless(t)
  {
  }

  lemma {:induction false} HighDiscriminant(t: Token)
    requires Discriminant(t) >= 18
    ensures FromDiscriminant(Discriminant(t)) == Payloadless(t)
  {
  }

  /** `SameVariant` compares the tokens with their payloads cleared. */
  lemma {:induction false} SameVariantIsPayloadless(a: Token, b: Token)
    ensures SameVariant(a, b) <==> Payloadless(a) == Payloadless(b)
  {
    if HasPayload(b) {
      PayloadVariant(a, b);
    } else {
      PlainVariant(a, b);
    }
  }

  predicate HasPayload(t: Token) {
    t.Integer? || t.String? || t.Boolean? || t.Variable? || t.Constant? || t.Function? || t.DocComment?
  }

  lemma {:induction false} PayloadVariant(a: Token, b: Token)
    requires HasPayload(b)
    ensures SameVariant(a, b) <==> Payloadless(a) == Payloadless(b)
  {
  }

  lemma {:induction false} PlainVariant(a: Token, b: Token)
    requires !HasPayload(b)
    ensures SameVariant(a, b) <==> Payloadless(a) == Payloadless(b)
  {
  }

  /** `SameVariant` is the comparison of variant indices. */
  lemma {:induction false} SameVariantIsDiscriminant(a: Token, b: Token)
    ensures SameVariant(a, b) <==> Discriminant(a) == Discriminant(b)
  {
    DiscriminantNamesVariant(a);
    DiscriminantNamesVariant(b);
    PayloadlessKeepsDiscriminant(a);
    PayloadlessKeepsDiscriminant(b);
    SameVariantIsPayloadless(a, b);
  }

  /** `Display for Token`. */
  function Display(t: Token): (s: string)
    ensures IsEntity(t) ==> s == Entities.FullName(Entities.EntityRef(EntityKindOf(t), t.number, Spans.Span(1, 1, 1, 1)))
    ensures t.String? ==> s == "\"" + t.text + "\""
  {
    match t
    case Integer(n) => IntToString(n)
    case String(s) => "\"" + s + "\""
    case Boolean(b) => if b then "true" else "false"
    case Variable(n) => "v$" + NatToString(n)
    case Constant(n) => "c$" + NatToString(n)
    case Function(n) => "f$" + NatToString(n)
    case Fn => "fn"
    case Main => "main"
    case Ret => "ret"
    case Int => "int"
    case Str => "str"
    case Bool => "bool"
    case True => "true"
    case False => "false"
    case If => "if"
    case Else => "else"
    case Describe => "describe"
    case Print => "print"
    case Plus => "+"
    case Minus => "-"
    case Multiply => "*"
    case Divide => "/"
    case Assign => "="
    case Equal => "=="
    case NotEqual => "!="
    case Less => "<"
    case Greater => ">"
    case LessEqual => "<="
    case GreaterEqual => ">="
    case And => "&&"
    case Or => "||"
    case Not => "!"
    case LeftParen => "("
    case RightParen => ")"
    case LeftBrace => "{"
    case RightBrace => "}"
    case Semicolon => ";"
    case Comma => ","
    case Arrow => "->"
    case DocComment(s) => "/// " + s
    case Eof => "EOF"
    case Newline => "\\n"
  }
}
