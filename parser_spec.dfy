/**
 * The token cursor and the expression grammar of the parser, as functions over the token list.
 * A position `pos` stands for the parser's `current` index; every function returns the
 * expression it read together with the position after it. The `Parser` class is proved to
 * move its cursor and build its expressions exactly as these functions say.
 */
module ParserSpec {
  import opened Common
  import opened Text
  import opened Spans
  import opened Errors
  import T = Tokens
  import A = Ast
  import ST = SymbolTables

  /** `current_span`: the parser does not track positions, every span it makes is 1:1. */
  const Placeholder := Span(1, 1, 1, 1)

  // ---------------------------------------------------------------------------------------------
  // The cursor

  /** `current_token`: the token at `pos`, or `Eof` past the end of the list. */
  function Current(tokens: seq<T.Token>, pos: nat): (t: T.Token)
    ensures pos >= |tokens| ==> t == T.Eof
  {
    if pos < |tokens| then tokens[pos] else T.Eof
  }

  /** `advance`: one token on, but never past an `Eof`. */
  function Next(tokens: seq<T.Token>, pos: nat): (r: nat)
    ensures Current(tokens, pos) != T.Eof ==> r == pos + 1 && r <= |tokens|
    ensures Current(tokens, pos) == T.Eof ==> r == pos
  {
    if Current(tokens, pos) == T.Eof then pos else pos + 1
  }

  /** `check`: the current token is of the variant of `expected` (payloads ignored), and it is not `Eof`. */
  predicate Check(tokens: seq<T.Token>, pos: nat, expected: T.Token) {
    Current(tokens, pos) != T.Eof && T.SameVariant(Current(tokens, pos), expected)
  }

  /** The error of a token found where something else was expected. */
  function Unexpected(expected: string, found: T.Token): ZvarError {
    UnexpectedToken(Placeholder, expected, T.Display(found))
  }

  /** `consume`: the position after a token of the expected variant, or an `UnexpectedToken` error. */
  function Consume(tokens: seq<T.Token>, pos: nat, expected: T.Token): (r: Result<nat>)
    ensures r.Ok? <==> Check(tokens, pos, expected)
    ensures r.Ok? ==> r.value == pos + 1 && pos < |tokens|
    ensures r.Err? ==> r.error == Unexpected(T.Display(expected), Current(tokens, pos))
  {
    if Check(tokens, pos, expected) then Ok(Next(tokens, pos))
    else Err(Unexpected(T.Display(expected), Current(tokens, pos)))
  }

  // ---------------------------------------------------------------------------------------------
  // Operators

  /** An operator that joins two operands. */
  datatype Infix = LogicalInfix(l: A.LogicalOperator) | BinaryInfix(b: A.BinaryOperator)

  /**
   * The precedence level of an infix token, loosest first: 0 `||`, 1 `&&`, 2 `==` `!=`,
   * 3 `>` `>=` `<` `<=`, 4 `+` `-`, 5 `*` `/`; level 6 is the unary `!`.
   */
  function InfixToken(tok: T.Token): Option<(nat, Infix)> {
    match tok
    case Or => Some((0, LogicalInfix(A.Or)))
    case And => Some((1, LogicalInfix(A.And)))
    case Equal => Some((2, BinaryInfix(A.Equal)))
    case NotEqual => Some((2, BinaryInfix(A.NotEqual)))
    case Greater => Some((3, BinaryInfix(A.Greater)))
    case GreaterEqual => Some((3, BinaryInfix(A.GreaterEqual)))
    case Less => Some((3, BinaryInfix(A.Less)))
    case LessEqual => Some((3, BinaryInfix(A.LessEqual)))
    case Plus => Some((4, BinaryInfix(A.Add)))
    case Minus => Some((4, BinaryInfix(A.Subtract)))
    case Multiply => Some((5, BinaryInfix(A.Multiply)))
    case Divide => Some((5, BinaryInfix(A.Divide)))
    case _ => None
  }

  /** The operator `tok` stands for at `level`, if it is one of that level's tokens. */
  function InfixAt(level: nat, tok: T.Token): (r: Option<Infix>)
    ensures r.Some? ==> tok != T.Eof
  {
    match InfixToken(tok)
    case Some((l, op)) => if l == level then Some(op) else None
    case None => None
  }

  /** `BinaryExpression::new` / `LogicalExpression::new` with the span from the left to the right operand. */
  function Combine(op: Infix, left: A.Expression, right: A.Expression): A.Expression {
    var span := FromTo(left.span, right.span);
    match op
    case LogicalInfix(l) => A.Logical(left, l, right, span)
    case BinaryInfix(b) => A.Binary(left, b, right, span)
  }

  /** The name the parser gives an entity token: `format!("v${}", n)` and its siblings. */
  function EntityName(prefix: char, n: u32): (s: string)
    ensures |s| > 2 && s[..2] == [prefix, '$']
  {
    [prefix, '$'] + NatToString(n)
  }

  // ---------------------------------------------------------------------------------------------
  // The precedence ladder

  /**
   * `parse_logical_or` (level 0) down to `parse_multiplicative` (level 5): an operand of the next
   * level, then as many `op operand` pairs of this level as follow, grouped to the left.
   * Level 6 is `parse_unary`.
   */
  function Expr(tokens: seq<T.Token>, pos: nat, level: nat): (r: Result<(A.Expression, nat)>)
    requires pos <= |tokens| && level <= 6
    ensures r.Ok? ==> pos < r.value.1 <= |tokens|
    decreases |tokens| - pos, 7 - level, 1
  {
    if level == 6 then UnaryExpr(tokens, pos)
    else
      var (left, next) :- Expr(tokens, pos, level + 1);
      Loop(tokens, level, left, next)
  }

  /** The `while` loop of a binary level, entered with the operand read so far. */
  function Loop(tokens: seq<T.Token>, level: nat, left: A.Expression, pos: nat): (r: Result<(A.Expression, nat)>)
    requires pos <= |tokens| && level < 6
    ensures r.Ok? ==> pos <= r.value.1 <= |tokens|
    decreases |tokens| - pos, 0, 0
  {
    match InfixAt(level, Current(tokens, pos))
    case None => Ok((left, pos))
    case Some(op) =>
      var (right, next) :- Expr(tokens, pos + 1, level + 1);
      Loop(tokens, level, Combine(op, left, right), next)
  }

  /** `parse_unary`: `!` applies to a unary expression; anything else is a primary expression. */
  function UnaryExpr(tokens: seq<T.Token>, pos: nat): (r: Result<(A.Expression, nat)>)
    requires pos <= |tokens|
    ensures r.Ok? ==> pos < r.value.1 <= |tokens|
    decreases |tokens| - pos, 0, 1
  {
    if Current(tokens, pos) == T.Not then
      var (operand, next) :- UnaryExpr(tokens, pos + 1);
      Ok((A.Unary(A.Not, operand, FromTo(Placeholder, operand.span)), next))
    else
      Primary(tokens, pos)
  }

  /**
   * `parse_primary`: a call of `f$N` or `print`, a parenthesised expression, or a literal or
   * entity name.
   */
  function Primary(tokens: seq<T.Token>, pos: nat): (r: Result<(A.Expression, nat)>)
    requires pos <= |tokens|
    ensures r.Ok? ==> pos < r.value.1 <= |tokens|
    decreases |tokens| - pos, 0, 0
  {
    var tok := Current(tokens, pos);
    if tok.Function? then Call(tokens, pos + 1, EntityName('f', tok.number))
    else if tok == T.Print then Call(tokens, pos + 1, "print")
    else if tok == T.LeftParen then
      var (e, next) :- Expr(tokens, pos + 1, 0);
      var close :- Consume(tokens, next, T.RightParen);
      Ok((e, close))
    else Literal(tokens, pos)
  }

  /**
   * The remaining arms of `parse_primary`: a literal, or a variable or constant name. A variable
   * followed by `(` is an error: only functions can be called.
   */
  function Literal(tokens: seq<T.Token>, pos: nat): (r: Result<(A.Expression, nat)>)
    requires pos <= |tokens|
    ensures r.Ok? ==> r.value.1 == pos + 1 <= |tokens|
  {
    var e :- LiteralValue(tokens, pos);
    Ok((e, pos + 1))
  }

  /** The expression `Literal` builds from the token at `pos`, which it always consumes. */
  function LiteralValue(tokens: seq<T.Token>, pos: nat): (r: Result<A.Expression>)
    ensures r.Ok? ==> pos < |tokens|
  {
    var tok := Current(tokens, pos);
    if tok.Integer? then Ok(A.Integer(tok.intValue, Placeholder))
    else if tok.String? then Ok(A.String(tok.text, Placeholder))
    else if tok == T.True then Ok(A.Boolean(true, Placeholder))
    else if tok == T.False then Ok(A.Boolean(false, Placeholder))
    else if tok.Variable? then
      if Check(tokens, pos + 1, T.LeftParen) then
        Err(UnexpectedToken(Placeholder, "function name (f$N) for function call", EntityName('v', tok.number)))
      else
        Ok(A.Variable(EntityName('v', tok.number), Placeholder))
    else if tok.Constant? then Ok(A.Variable(EntityName('c', tok.number), Placeholder))
    else Err(Unexpected("expression", tok))
  }

  /** The argument list of a call, entered just after the callee's name. */
  function Call(tokens: seq<T.Token>, pos: nat, name: string): (r: Result<(A.Expression, nat)>)
    requires pos <= |tokens|
    ensures r.Ok? ==> pos < r.value.1 <= |tokens|
    ensures r.Ok? ==> r.value.0.FunctionCall? && r.value.0.name == name
    decreases |tokens| - pos, 0, 0
  {
    var open :- Consume(tokens, pos, T.LeftParen);
    var (args, next) :- ArgumentList(tokens, open);
    var close :- Consume(tokens, next, T.RightParen);
    Ok((A.FunctionCall(name, args, FromTo(Placeholder, Placeholder)), close))
  }

  /** The arguments between the parentheses of a call: none when `)` follows at once. */
  function ArgumentList(tokens: seq<T.Token>, pos: nat): (r: Result<(seq<A.Expression>, nat)>)
    requires pos <= |tokens|
    ensures r.Ok? ==> pos <= r.value.1 <= |tokens|
    decreases |tokens| - pos, 8, 1
  {
    if Check(tokens, pos, T.RightParen) then Ok(([], pos)) else Arguments(tokens, pos, [])
  }

  /** The `loop` over comma-separated arguments; `acc` holds the ones read so far. */
  function Arguments(tokens: seq<T.Token>, pos: nat, acc: seq<A.Expression>): (r: Result<(seq<A.Expression>, nat)>)
    requires pos <= |tokens|
    ensures r.Ok? ==> pos < r.value.1 <= |tokens|
    decreases |tokens| - pos, 8, 0
  {
    var (arg, next) :- Expr(tokens, pos, 0);
    if Check(tokens, next, T.Comma) then Arguments(tokens, next + 1, acc + [arg])
    else Ok((acc + [arg], next))
  }

  // ---------------------------------------------------------------------------------------------
  // Newlines, documentation and types

  /** `skip_newlines`: the first position from `pos` on whose token is not a `Newline`. */
  function SkipNewlines(tokens: seq<T.Token>, pos: nat): (r: nat)
    requires pos <= |tokens|
    ensures pos <= r <= |tokens| && Current(tokens, r) != T.Newline
    decreases |tokens| - pos
  {
    if Current(tokens, pos) == T.Newline then SkipNewlines(tokens, pos + 1) else pos
  }

  /**
   * `collect_documentation`: the texts of the doc comments from `pos` on, each one followed by
   * any number of newlines, and the position after the last of them.
   */
  function DocComments(tokens: seq<T.Token>, pos: nat): (r: (seq<string>, nat))
    requires pos <= |tokens|
    ensures pos <= r.1 <= |tokens| && !Current(tokens, r.1).DocComment?
    ensures r.0 == [] <==> r.1 == pos
    decreases |tokens| - pos
  {
    var tok := Current(tokens, pos);
    if tok.DocComment? then
      var (rest, end) := DocComments(tokens, SkipNewlines(tokens, pos + 1));
      ([tok.doc] + rest, end)
    else ([], pos)
  }

  /** The type a type keyword names (`parse_type`). */
  function TypeOfToken(tok: T.Token): Option<ST.ValueType> {
    if tok == T.Int then Some(ST.Int)
    else if tok == T.Str then Some(ST.Str)
    else if tok == T.Bool then Some(ST.Bool)
    else None
  }

  /** The types of a parameter list, in order. */
  function ParamTypes(params: seq<A.Parameter>): (r: seq<ST.ValueType>)
    ensures |r| == |params| && forall i :: 0 <= i < |params| ==> r[i] == params[i].paramType
  {
    seq(|params|, i requires 0 <= i < |params| => params[i].paramType)
  }

  /** The innermost scope of `scopes` defines `f` as a function with `f`'s parameter and return types. */
  ghost predicate DefinesFunction(scopes: seq<map<string, ST.Symbol>>, f: A.Function) {
    && |scopes| >= 1
    && f.name in scopes[|scopes| - 1]
    && scopes[|scopes| - 1][f.name].entityType == ST.Function(ParamTypes(f.params), f.returnType)
  }

  /** No two parameters of a function share a name. */
  predicate DistinctParameterNames(params: seq<A.Parameter>) {
    forall j, k :: 0 <= j < k < |params| ==> params[j].name != params[k].name
  }

  /** No two function items of `items` share a name. */
  predicate DistinctFunctionNames(items: seq<A.Item>) {
    forall i, j :: 0 <= i < j < |items| && items[i].FunctionItem? && items[j].FunctionItem? ==>
      items[i].func.name != items[j].func.name
  }

  /** Every function item of `items` is defined in the innermost of `scopes`, and no two share a name. */
  ghost predicate FunctionsDefined(scopes: seq<map<string, ST.Symbol>>, items: seq<A.Item>) {
    && (forall item <- items :: item.FunctionItem? ==> DefinesFunction(scopes, item.func))
    && DistinctFunctionNames(items)
  }

  /** The kind of statement `parse_statement` builds follows from the statement's first token. */
  predicate StartsWith(s: A.Statement, tok: T.Token) {
    if TypeOfToken(tok).Some? then
      (s.VariableDeclaration? || s.ConstantDeclaration?) && s.valueType == TypeOfToken(tok).value
    else if tok.Variable? then s.Assignment?
    else if tok == T.Ret then s.Return?
    else if tok == T.Describe then s.Describe?
    else if tok == T.If then s.If?
    else s.ExpressionStatement?
  }

  /** `parse_parameter`: a `v$N` name, then a type. */
  function Parameter(tokens: seq<T.Token>, pos: nat): (r: Result<(A.Parameter, nat)>)
    ensures r.Ok? ==> r.value.1 == pos + 2 <= |tokens|
  {
    var name := NameOf({'v'}, Current(tokens, pos));
    if name.None? then Err(Unexpected("parameter name (v$N)", Current(tokens, pos)))
    else
      var paramType := TypeOfToken(Current(tokens, pos + 1));
      if paramType.None? then Err(Unexpected("type", Current(tokens, pos + 1)))
      else Ok((A.Parameter(name.value, paramType.value, FromTo(Placeholder, Placeholder)), pos + 2))
  }

  /**
   * One round of the `loop` of `parse_function`: a parameter joins those in `acc`, and the loop
   * goes on exactly when a comma follows it, which is then consumed.
   */
  function ParameterRound(tokens: seq<T.Token>, pos: nat, acc: seq<A.Parameter>): (r: Result<((seq<A.Parameter>, bool), nat)>)
    requires pos <= |tokens|
    ensures r.Ok? ==> pos < r.value.1 <= |tokens| && |r.value.0.0| == |acc| + 1
  {
    var (param, next) :- Parameter(tokens, pos);
    if Check(tokens, next, T.Comma) then Ok(((acc + [param], true), next + 1))
    else Ok(((acc + [param], false), next))
  }

  /** The `loop` of `parse_function` over comma-separated parameters, after those in `acc`. */
  function Parameters(tokens: seq<T.Token>, pos: nat, acc: seq<A.Parameter>): (r: Result<(seq<A.Parameter>, nat)>)
    requires pos <= |tokens|
    ensures r.Ok? ==> pos < r.value.1 <= |tokens|
    ensures r.Ok? ==> |r.value.0| > |acc|
    decreases |tokens| - pos
  {
    var ((params, more), next) :- ParameterRound(tokens, pos, acc);
    if more then Parameters(tokens, next, params) else Ok((params, next))
  }

  /** The parameters between the parentheses of `parse_function`: none when `)` follows at once. */
  function ParameterItems(tokens: seq<T.Token>, pos: nat): (r: Result<(seq<A.Parameter>, nat)>)
    requires pos <= |tokens|
    ensures r.Ok? ==> pos <= r.value.1 <= |tokens|
  {
    if Check(tokens, pos, T.RightParen) then Ok(([], pos)) else Parameters(tokens, pos, [])
  }

  /** The parenthesised parameter list of `parse_function`. */
  function ParameterList(tokens: seq<T.Token>, pos: nat): (r: Result<(seq<A.Parameter>, nat)>)
    requires pos <= |tokens|
    ensures r.Ok? ==> pos < r.value.1 <= |tokens|
    ensures r.Ok? ==> Current(tokens, pos) == T.LeftParen && Current(tokens, r.value.1 - 1) == T.RightParen
  {
    var open :- Consume(tokens, pos, T.LeftParen);
    var (params, next) :- ParameterItems(tokens, open);
    var close :- Consume(tokens, next, T.RightParen);
    Ok((params, close))
  }

  /** The `->` and return type of `parse_function`. */
  function ReturnType(tokens: seq<T.Token>, pos: nat): (r: Result<(ST.ValueType, nat)>)
    ensures r.Ok? ==> r.value.1 == pos + 2 <= |tokens|
  {
    var arrow :- Consume(tokens, pos, T.Arrow);
    var returnType := TypeOfToken(Current(tokens, arrow));
    if returnType.None? then Err(Unexpected("type", Current(tokens, arrow)))
    else Ok((returnType.value, arrow + 1))
  }

  /** The signature of `parse_function`: `fn`, a function name, the parameter list, `->` and the return type. */
  function Signature(tokens: seq<T.Token>, pos: nat): (r: Result<((string, seq<A.Parameter>, ST.ValueType), nat)>)
    requires pos <= |tokens|
    ensures r.Ok? ==> pos + 5 <= r.value.1 <= |tokens|
  {
    var afterFn :- Consume(tokens, pos, T.Fn);
    var name := NameOf({'f'}, Current(tokens, afterFn));
    if name.None? then Err(Unexpected("function name (f$N)", Current(tokens, afterFn)))
    else
      var (params, afterParams) :- ParameterList(tokens, afterFn + 1);
      var (returnType, end) :- ReturnType(tokens, afterParams);
      Ok(((name.value, params, returnType), end))
  }

  /**
   * The statements of a block, the i-th one read by `parse_statement` at `starts[i]`: the
   * positions rise strictly from `lo` on and stay below `hi`, and the kind of each statement is
   * the one its first token selects.
   */
  predicate StatementsAt(tokens: seq<T.Token>, statements: seq<A.Statement>, starts: seq<nat>, lo: nat, hi: nat)
    decreases |starts|
  {
    && |starts| == |statements|
    && (starts == [] ||
      var n := |starts| - 1;
      && lo <= starts[n] < hi
      && StartsWith(statements[n], Current(tokens, starts[n]))
      && StatementsAt(tokens, statements[..n], starts[..n], lo, starts[n]))
  }

  /**
   * A block read by `parse_block` from its `{` at `open` to just past its `}` at `close`: its
   * statements start at `starts`, and there are none exactly when `}` is the first token after
   * the `{` and any newlines.
   */
  predicate BlockAt(tokens: seq<T.Token>, statements: seq<A.Statement>, starts: seq<nat>, open: nat, close: nat)
  {
    && open + 1 < close <= |tokens|
    && Current(tokens, open) == T.LeftBrace && tokens[close - 1] == T.RightBrace
    && StatementsAt(tokens, statements, starts, open + 1, close - 1)
    && (statements == [] <==> Current(tokens, SkipNewlines(tokens, open + 1)) == T.RightBrace)
  }

  /**
   * The head of an `if` at `start`: `(` follows, the condition is the expression after it, and
   * that expression ends at the `)` at `closeParen`.
   */
  predicate IfHead(tokens: seq<T.Token>, start: nat, condition: A.Expression, closeParen: nat)
  {
    && Current(tokens, start + 1) == T.LeftParen
    && start + 2 <= |tokens| && Expr(tokens, start + 2, 0).Ok?
    && condition == Expr(tokens, start + 2, 0).value.0
    && closeParen == Expr(tokens, start + 2, 0).value.1
    && Current(tokens, closeParen) == T.RightParen
  }

  /**
   * The blocks of the `if` statement `s` whose condition ends at the `)` at `closeParen`: the
   * then-block runs from just after that `)` to `thenEnd`; without an else-block the statement
   * ends there and no `else` follows, and with one an `else` sits at `thenEnd` and the else-block
   * runs from just after it to `end`.
   */
  predicate IfBlocksAt(tokens: seq<T.Token>, s: A.Statement, closeParen: nat, thenStarts: seq<nat>, thenEnd: nat, elseStarts: seq<nat>, end: nat)
  {
    && s.If?
    && BlockAt(tokens, s.thenBlock.statements, thenStarts, closeParen + 1, thenEnd)
    && (s.elseBlock.None? ==> end == thenEnd && Current(tokens, end) != T.Else)
    && (s.elseBlock.Some? ==>
      Current(tokens, thenEnd) == T.Else && BlockAt(tokens, s.elseBlock.value.statements, elseStarts, thenEnd + 1, end))
  }

  /**
   * The items of a program, the i-th one read by `parse_item` at `starts[i]`: the positions rise
   * strictly from `lo` on and stay below `hi`, and each item is the one the token at its
   * position selects.
   */
  predicate ItemsAt(tokens: seq<T.Token>, items: seq<A.Item>, starts: seq<nat>, lo: nat, hi: nat)
    decreases |starts|
  {
    && |starts| == |items|
    && (starts == [] ||
      var n := |starts| - 1;
      && lo <= starts[n] < hi
      && ItemAt(tokens, items[n], starts[n])
      && ItemsAt(tokens, items[..n], starts[..n], lo, starts[n]))
  }

  /** The item `parse_item` builds at `pos`: its kind is the one the token there selects. */
  predicate ItemAt(tokens: seq<T.Token>, item: A.Item, pos: nat) {
    && (item.FunctionItem? <==> Current(tokens, pos) == T.Fn)
    && (item.MainItem? <==> Current(tokens, pos) == T.Main)
    && (item.FunctionItem? ==> NameOf({'f'}, Current(tokens, pos + 1)) == Some(item.func.name))
  }

  /**
   * The name an entity token stands for, when its prefix (`v`, `c` or `f`) is one of those
   * accepted at this point of the grammar.
   */
  function NameOf(accept: set<char>, tok: T.Token): (r: Option<string>)
    ensures r.Some? ==> |r.value| > 2 && r.value[0] in accept && r.value[1] == '$'
  {
    if tok.Variable? && 'v' in accept then Some(EntityName('v', tok.number))
    else if tok.Constant? && 'c' in accept then Some(EntityName('c', tok.number))
    else if tok.Function? && 'f' in accept then Some(EntityName('f', tok.number))
    else None
  }

  // ---------------------------------------------------------------------------------------------
  // `describe`

  /** The tail of `parse_describe`: `,`, the text as a string literal, `)` and `;`. */
  function Description(tokens: seq<T.Token>, pos: nat): (r: Result<(string, nat)>)
    ensures r.Ok? ==> r.value.1 == pos + 4 <= |tokens|
  {
    var comma :- Consume(tokens, pos, T.Comma);
    var (text, afterText) :- StringLiteral(tokens, comma);
    var close :- Consume(tokens, afterText, T.RightParen);
    var semicolon :- Consume(tokens, close, T.Semicolon);
    Ok((text, semicolon))
  }

  /** A string literal token and its text. */
  function StringLiteral(tokens: seq<T.Token>, pos: nat): (r: Result<(string, nat)>)
    ensures r.Ok? ==> r.value.1 == pos + 1 <= |tokens| && tokens[pos] == T.String(r.value.0)
    ensures r.Err? ==> r.error == Unexpected("string literal", Current(tokens, pos))
  {
    var text := Current(tokens, pos);
    if text.String? then Ok((text.text, pos + 1)) else Err(Unexpected("string literal", text))
  }

  /** The tokens `parse_describe` reads: `describe (`, the name of an entity, then the description. */
  function DescribeStatement(tokens: seq<T.Token>, pos: nat): (r: Result<((string, string), nat)>)
    ensures r.Ok? ==> r.value.1 == pos + 7 <= |tokens|
  {
    var (target, afterTarget) :- DescribeTarget(tokens, pos);
    var (description, end) :- Description(tokens, afterTarget);
    Ok(((target, description), end))
  }

  /** `describe (` and the name of the entity described. */
  function DescribeTarget(tokens: seq<T.Token>, pos: nat): (r: Result<(string, nat)>)
    ensures r.Ok? ==> r.value.1 == pos + 3 <= |tokens|
  {
    var afterDescribe :- Consume(tokens, pos, T.Describe);
    var open :- Consume(tokens, afterDescribe, T.LeftParen);
    var target := NameOf({'v', 'c', 'f'}, Current(tokens, open));
    if target.None? then Err(Unexpected("entity name (v$N, c$N, or f$N)", Current(tokens, open)))
    else Ok((target.value, open + 1))
  }
}
