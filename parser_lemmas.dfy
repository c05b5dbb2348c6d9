/**
 * What the precedence ladder of `ParserSpec` guarantees: operators bind from `*` `/` (tightest)
 * out to `||` (loosest), operators of one level group to the left, `!` binds tighter than
 * any binary operator, parentheses override all of it, and every infix token is read as the
 * operator that prints with the token's own spelling.
 */
module ParserLemmas {
  import opened Common
  import opened Spans
  import opened Errors
  import T = Tokens
  import A = Ast
  import opened ParserSpec

  // ---------------------------------------------------------------------------------------------
  // Operators and their spelling

  /** The spelling of an infix operator (`Display` of the AST operator). */
  function InfixSymbol(op: Infix): string {
    match op
    case LogicalInfix(l) => A.LogicalSymbol(l)
    case BinaryInfix(b) => A.BinarySymbol(b)
  }

  /** The token that stands for an infix operator. */
  function InfixTokenOf(op: Infix): T.Token {
    match op
    case LogicalInfix(l) => if l == A.Or then T.Or else T.And
    case BinaryInfix(b) =>
      match b
      case Add => T.Plus
      case Subtract => T.Minus
      case Multiply => T.Multiply
      case Divide => T.Divide
      case Equal => T.Equal
      case NotEqual => T.NotEqual
      case Less => T.Less
      case Greater => T.Greater
      case LessEqual => T.LessEqual
      case GreaterEqual => T.GreaterEqual
  }

  /** `skip_newlines` passes over nothing but newlines. */
  lemma {:induction false} SkipNewlinesSkipsNewlines(tokens: seq<T.Token>, pos: nat)
    requires pos <= |tokens|
    ensures forall i :: pos <= i < SkipNewlines(tokens, pos) ==> tokens[i] == T.Newline
    decreases |tokens| - pos
  {
    if Current(tokens, pos) == T.Newline {
      SkipNewlinesSkipsNewlines(tokens, pos + 1);
    }
  }

  /** Every infix operator has a token, and the parser reads that token back as the operator. */
  lemma {:induction false} InfixTokenRoundTrip(op: Infix)
    ensures InfixToken(InfixTokenOf(op)).Some? && InfixToken(InfixTokenOf(op)).value.1 == op
  {
  }

  /** An infix token is read as the operator whose `Display` is the token's own `Display`. */
  lemma {:induction false} InfixSpelling(tok: T.Token)
    requires InfixToken(tok).Some?
    ensures InfixSymbol(InfixToken(tok).value.1) == T.Display(tok)
    ensures InfixTokenOf(InfixToken(tok).value.1) == tok
  {
  }

  /** The unary `!` is read from the token that prints as `!`. */
  lemma {:induction false} NotSpelling()
    ensures A.UnarySymbol(A.Not) == T.Display(T.Not)
  {
  }

  // ---------------------------------------------------------------------------------------------
  // Climbing the ladder

  /** No operator of a level in `[low, high)` is spelt `tok`. */
  predicate Quiet(tok: T.Token, low: nat, high: nat) {
    InfixToken(tok).None? || !(low <= InfixToken(tok).value.0 < high)
  }

  /** A token that ends an expression: neither an operator nor an opening parenthesis. */
  predicate Ends(tok: T.Token) {
    InfixToken(tok).None? && tok != T.LeftParen
  }

  /** An expression read at level `high` is also what every looser level reads, when no operator of those levels follows. */
  lemma {:induction false} Rise(tokens: seq<T.Token>, pos: nat, low: nat, high: nat, e: A.Expression, q: nat)
    requires pos <= |tokens| && low <= high <= 6
    requires Expr(tokens, pos, high) == Ok((e, q)) && Quiet(Current(tokens, q), low, high)
    ensures Expr(tokens, pos, low) == Ok((e, q))
    decreases high - low
  {
    if low < high {
      Rise(tokens, pos, low + 1, high, e, q);
      assert InfixAt(low, Current(tokens, q)).None?;
      assert Loop(tokens, low, e, q) == Ok((e, q));
    }
  }

  /** An error at level `high` is the error of every looser level. */
  lemma {:induction false} FailRise(tokens: seq<T.Token>, pos: nat, low: nat, high: nat)
    requires pos <= |tokens| && low <= high <= 6
    requires Expr(tokens, pos, high).Err?
    ensures Expr(tokens, pos, low) == Expr(tokens, pos, high)
    decreases high - low
  {
    if low < high {
      FailRise(tokens, pos, low + 1, high);
    }
  }

  /** One `left op right` step of level `level`: the loop goes on with the combined operand. */
  lemma {:induction false} Step(tokens: seq<T.Token>, pos: nat, level: nat, left: A.Expression, q: nat, op: Infix,
                               right: A.Expression, r: nat)
    requires pos <= |tokens| && level < 6 && q < |tokens|
    requires Expr(tokens, pos, level + 1) == Ok((left, q)) && InfixAt(level, tokens[q]) == Some(op)
    requires Expr(tokens, q + 1, level + 1) == Ok((right, r))
    ensures Expr(tokens, pos, level) == Loop(tokens, level, Combine(op, left, right), r)
  {
    assert Expr(tokens, pos, level) == Loop(tokens, level, left, q);
    assert InfixAt(level, Current(tokens, q)) == Some(op);
  }

  /** A loop that meets no operator of its level stops at once. */
  lemma {:induction false} LoopStops(tokens: seq<T.Token>, level: nat, left: A.Expression, pos: nat)
    requires pos <= |tokens| && level < 6
    requires InfixAt(level, Current(tokens, pos)).None?
    ensures Loop(tokens, level, left, pos) == Ok((left, pos))
  {
  }

  // ---------------------------------------------------------------------------------------------
  // Operands

  /** A token that is a whole operand on its own: a literal or a variable or constant name. */
  predicate IsAtom(tok: T.Token) {
    tok.Integer? || tok.String? || tok == T.True || tok == T.False || tok.Variable? || tok.Constant?
  }

  /** The expression an operand token stands for. */
  function AtomExpr(tok: T.Token): A.Expression
    requires IsAtom(tok)
  {
    match tok
    case Integer(v) => A.Integer(v, Placeholder)
    case String(s) => A.String(s, Placeholder)
    case True => A.Boolean(true, Placeholder)
    case False => A.Boolean(false, Placeholder)
    case Variable(n) => A.Variable(EntityName('v', n), Placeholder)
    case Constant(n) => A.Variable(EntityName('c', n), Placeholder)
  }

  /** An operand not followed by `(` is read whole by the tightest level. */
  lemma {:induction false} AtomIsUnary(tokens: seq<T.Token>, pos: nat)
    requires pos < |tokens| && IsAtom(tokens[pos]) && Current(tokens, pos + 1) != T.LeftParen
    ensures Expr(tokens, pos, 6) == Ok((AtomExpr(tokens[pos]), pos + 1))
  {
    assert !Check(tokens, pos + 1, T.LeftParen);
    assert Primary(tokens, pos) == Ok((AtomExpr(tokens[pos]), pos + 1));
  }

  /** An operand followed by an operator of a level tighter than `level` is read whole at `level + 1`. */
  lemma {:induction false} AtomBefore(tokens: seq<T.Token>, pos: nat, level: nat)
    requires pos < |tokens| && IsAtom(tokens[pos]) && level <= 6
    requires Current(tokens, pos + 1) != T.LeftParen && Quiet(Current(tokens, pos + 1), level, 6)
    ensures Expr(tokens, pos, level) == Ok((AtomExpr(tokens[pos]), pos + 1))
  {
    AtomIsUnary(tokens, pos);
    Rise(tokens, pos, level, 6, AtomExpr(tokens[pos]), pos + 1);
  }

  /**
   * An operand `x` of the tightest level, an operator of level `l` and an operand `y` of level
   * `l + 1`, read at a level `low <= l`: `x op y`, when no operator of a level in `[low, l]` follows.
   */
  lemma {:induction false} Binary(tokens: seq<T.Token>, pos: nat, low: nat, x: A.Expression, q: nat, l: nat, op: Infix,
                                 y: A.Expression, r: nat)
    requires pos <= |tokens| && q < |tokens| && low <= l
    requires Expr(tokens, pos, 6) == Ok((x, q)) && InfixToken(tokens[q]) == Some((l, op))
    requires Expr(tokens, q + 1, l + 1) == Ok((y, r)) && Quiet(Current(tokens, r), low, l + 1)
    ensures Expr(tokens, pos, low) == Ok((Combine(op, x, y), r))
  {
    assert l < 6;
    assert Current(tokens, q) == tokens[q];
    Rise(tokens, pos, l + 1, 6, x, q);
    Extend(tokens, pos, low, x, q, l, op, y, r);
  }

  /**
   * An operand `x` read at level `l + 1`, an operator of level `l` and an operand `y` of level
   * `l + 1`, read at a level `low <= l`: `x op y`, when no operator of a level in `[low, l]` follows.
   */
  lemma {:induction false} Extend(tokens: seq<T.Token>, pos: nat, low: nat, x: A.Expression, q: nat, l: nat, op: Infix,
                                 y: A.Expression, r: nat)
    requires pos <= |tokens| && q < |tokens| && low <= l < 6
    requires Expr(tokens, pos, l + 1) == Ok((x, q)) && InfixToken(tokens[q]) == Some((l, op))
    requires Expr(tokens, q + 1, l + 1) == Ok((y, r)) && Quiet(Current(tokens, r), low, l + 1)
    ensures Expr(tokens, pos, low) == Ok((Combine(op, x, y), r))
  {
    Step(tokens, pos, l, x, q, op, y, r);
    LoopStops(tokens, l, Combine(op, x, y), r);
    Rise(tokens, pos, low, l, Combine(op, x, y), r);
  }

  /** `a op b`, followed by something that ends the expression, read at any level no tighter than `op`. */
  lemma {:induction false} TwoAtoms(tokens: seq<T.Token>, pos: nat, level: nat)
    requires pos + 2 < |tokens| && IsAtom(tokens[pos]) && IsAtom(tokens[pos + 2])
    requires InfixToken(tokens[pos + 1]).Some? && level <= InfixToken(tokens[pos + 1]).value.0
    requires Ends(Current(tokens, pos + 3))
    ensures var (l, op) := InfixToken(tokens[pos + 1]).value;
      Expr(tokens, pos, level) == Ok((Combine(op, AtomExpr(tokens[pos]), AtomExpr(tokens[pos + 2])), pos + 3))
  {
    var (l, op) := InfixToken(tokens[pos + 1]).value;
    AtomIsUnary(tokens, pos);
    AtomBefore(tokens, pos + 2, l + 1);
    Binary(tokens, pos, level, AtomExpr(tokens[pos]), pos + 1, l, op, AtomExpr(tokens[pos + 2]), pos + 3);
  }

  // ---------------------------------------------------------------------------------------------
  // Precedence and associativity

  /** `a op1 b op2 c` with both operators on one level: `(a op1 b) op2 c`. */
  lemma {:induction false} SameLevel(tokens: seq<T.Token>)
    requires |tokens| >= 5 && IsAtom(tokens[0]) && IsAtom(tokens[2]) && IsAtom(tokens[4])
    requires InfixToken(tokens[1]).Some? && InfixToken(tokens[3]).Some?
    requires InfixToken(tokens[1]).value.0 == InfixToken(tokens[3]).value.0
    requires Ends(Current(tokens, 5))
    ensures var (l, op1) := InfixToken(tokens[1]).value;
      var op2 := InfixToken(tokens[3]).value.1;
      Expr(tokens, 0, 0) == Ok((Combine(op2, Combine(op1, AtomExpr(tokens[0]), AtomExpr(tokens[2])), AtomExpr(tokens[4])), 5))
  {
    var (l, op1) := InfixToken(tokens[1]).value;
    var op2 := InfixToken(tokens[3]).value.1;
    var ab := Combine(op1, AtomExpr(tokens[0]), AtomExpr(tokens[2]));
    var abc := Combine(op2, ab, AtomExpr(tokens[4]));
    AtomBefore(tokens, 0, l + 1);
    AtomBefore(tokens, 2, l + 1);
    AtomBefore(tokens, 4, l + 1);
    Step(tokens, 0, l, AtomExpr(tokens[0]), 1, op1, AtomExpr(tokens[2]), 3);
    LoopStops(tokens, l, abc, 5);
    assert Loop(tokens, l, ab, 3) == Loop(tokens, l, abc, 5);
    Rise(tokens, 0, 0, l, abc, 5);
  }

  /** `a op1 b op2 c` with `op1` the tighter: `(a op1 b) op2 c`. */
  lemma {:induction false} TighterFirst(tokens: seq<T.Token>)
    requires |tokens| >= 5 && IsAtom(tokens[0]) && IsAtom(tokens[2]) && IsAtom(tokens[4])
    requires InfixToken(tokens[1]).Some? && InfixToken(tokens[3]).Some?
    requires InfixToken(tokens[1]).value.0 > InfixToken(tokens[3]).value.0
    requires Ends(Current(tokens, 5))
    ensures var op1 := InfixToken(tokens[1]).value.1;
      var op2 := InfixToken(tokens[3]).value.1;
      Expr(tokens, 0, 0) == Ok((Combine(op2, Combine(op1, AtomExpr(tokens[0]), AtomExpr(tokens[2])), AtomExpr(tokens[4])), 5))
  {
    var (l1, op1) := InfixToken(tokens[1]).value;
    var (l2, op2) := InfixToken(tokens[3]).value;
    var ab := Combine(op1, AtomExpr(tokens[0]), AtomExpr(tokens[2]));
    AtomIsUnary(tokens, 0);
    AtomBefore(tokens, 2, l1 + 1);
    Binary(tokens, 0, l2 + 1, AtomExpr(tokens[0]), 1, l1, op1, AtomExpr(tokens[2]), 3);
    AtomBefore(tokens, 4, l2 + 1);
    Extend(tokens, 0, 0, ab, 3, l2, op2, AtomExpr(tokens[4]), 5);
  }

  /** `a op1 b op2 c` with `op2` the tighter: `a op1 (b op2 c)`. */
  lemma {:induction false} TighterSecond(tokens: seq<T.Token>)
    requires |tokens| >= 5 && IsAtom(tokens[0]) && IsAtom(tokens[2]) && IsAtom(tokens[4])
    requires InfixToken(tokens[1]).Some? && InfixToken(tokens[3]).Some?
    requires InfixToken(tokens[1]).value.0 < InfixToken(tokens[3]).value.0
    requires Ends(Current(tokens, 5))
    ensures var op1 := InfixToken(tokens[1]).value.1;
      var op2 := InfixToken(tokens[3]).value.1;
      Expr(tokens, 0, 0) == Ok((Combine(op1, AtomExpr(tokens[0]), Combine(op2, AtomExpr(tokens[2]), AtomExpr(tokens[4]))), 5))
  {
    var (l1, op1) := InfixToken(tokens[1]).value;
    var op2 := InfixToken(tokens[3]).value.1;
    var bc := Combine(op2, AtomExpr(tokens[2]), AtomExpr(tokens[4]));
    AtomIsUnary(tokens, 0);
    TwoAtoms(tokens, 2, l1 + 1);
    Binary(tokens, 0, 0, AtomExpr(tokens[0]), 1, l1, op1, bc, 5);
  }

  /**
   * `a op1 b op2 c` groups as `(a op1 b) op2 c` when `op1` binds at least as tightly as `op2`
   * (left associativity when they share a level), and as `a op1 (b op2 c)` when `op2` binds
   * tighter.
   */
  lemma {:induction false} Precedence(tokens: seq<T.Token>)
    requires |tokens| >= 5 && IsAtom(tokens[0]) && IsAtom(tokens[2]) && IsAtom(tokens[4])
    requires InfixToken(tokens[1]).Some? && InfixToken(tokens[3]).Some?
    requires Ends(Current(tokens, 5))
    ensures var (l1, op1) := InfixToken(tokens[1]).value;
      var (l2, op2) := InfixToken(tokens[3]).value;
      var a, b, c := AtomExpr(tokens[0]), AtomExpr(tokens[2]), AtomExpr(tokens[4]);
      Expr(tokens, 0, 0) == Ok((if l1 >= l2 then Combine(op2, Combine(op1, a, b), c) else Combine(op1, a, Combine(op2, b, c)), 5))
  {
    var l1 := InfixToken(tokens[1]).value.0;
    var l2 := InfixToken(tokens[3]).value.0;
    if l1 == l2 {
      SameLevel(tokens);
    } else if l1 > l2 {
      TighterFirst(tokens);
    } else {
      TighterSecond(tokens);
    }
  }

  /** `!a` is read whole by the tightest level. */
  lemma {:induction false} NotOperand(tokens: seq<T.Token>)
    requires |tokens| >= 3 && tokens[0] == T.Not && IsAtom(tokens[1]) && tokens[2] != T.LeftParen
    ensures var a := AtomExpr(tokens[1]);
      Expr(tokens, 0, 6) == Ok((A.Unary(A.Not, a, FromTo(Placeholder, a.span)), 2))
  {
    AtomIsUnary(tokens, 1);
    assert UnaryExpr(tokens, 1) == Ok((AtomExpr(tokens[1]), 2));
  }

  /** `!a op b` is `(!a) op b` for every binary or logical operator. */
  lemma {:induction false} NotBindsTightest(tokens: seq<T.Token>)
    requires |tokens| >= 4 && tokens[0] == T.Not && IsAtom(tokens[1]) && IsAtom(tokens[3])
    requires InfixToken(tokens[2]).Some? && Ends(Current(tokens, 4))
    ensures var (l, op) := InfixToken(tokens[2]).value;
      var a := AtomExpr(tokens[1]);
      Expr(tokens, 0, 0) == Ok((Combine(op, A.Unary(A.Not, a, FromTo(Placeholder, a.span)), AtomExpr(tokens[3])), 4))
  {
    var (l, op) := InfixToken(tokens[2]).value;
    var a := AtomExpr(tokens[1]);
    NotOperand(tokens);
    AtomBefore(tokens, 3, l + 1);
    Binary(tokens, 0, 0, A.Unary(A.Not, a, FromTo(Placeholder, a.span)), 2, l, op, AtomExpr(tokens[3]), 4);
  }

  /** `(a op b)` is read whole by the tightest level. */
  lemma {:induction false} ParenOperand(tokens: seq<T.Token>)
    requires |tokens| >= 5 && tokens[0] == T.LeftParen && tokens[4] == T.RightParen
    requires IsAtom(tokens[1]) && IsAtom(tokens[3]) && InfixToken(tokens[2]).Some?
    ensures Expr(tokens, 0, 6) == Ok((Combine(InfixToken(tokens[2]).value.1, AtomExpr(tokens[1]), AtomExpr(tokens[3])), 5))
  {
    var inner := Combine(InfixToken(tokens[2]).value.1, AtomExpr(tokens[1]), AtomExpr(tokens[3]));
    TwoAtoms(tokens, 1, 0);
    assert Consume(tokens, 4, T.RightParen) == Ok(5);
    PrimaryParen(tokens, 0);
    assert Primary(tokens, 0) == Ok((inner, 5));
    assert UnaryExpr(tokens, 0) == Primary(tokens, 0);
  }

  /** `(a op1 b) op2 c` keeps the parenthesised pair together whatever the two levels are. */
  lemma {:induction false} ParenthesesGroup(tokens: seq<T.Token>)
    requires |tokens| >= 7 && tokens[0] == T.LeftParen && tokens[4] == T.RightParen
    requires IsAtom(tokens[1]) && IsAtom(tokens[3]) && IsAtom(tokens[6])
    requires InfixToken(tokens[2]).Some? && InfixToken(tokens[5]).Some?
    requires Ends(Current(tokens, 7))
    ensures var op1 := InfixToken(tokens[2]).value.1;
      var op2 := InfixToken(tokens[5]).value.1;
      Expr(tokens, 0, 0) == Ok((Combine(op2, Combine(op1, AtomExpr(tokens[1]), AtomExpr(tokens[3])), AtomExpr(tokens[6])), 7))
  {
    var (l2, op2) := InfixToken(tokens[5]).value;
    var inner := Combine(InfixToken(tokens[2]).value.1, AtomExpr(tokens[1]), AtomExpr(tokens[3]));
    ParenOperand(tokens);
    AtomBefore(tokens, 6, l2 + 1);
    Binary(tokens, 0, 0, inner, 5, l2, op2, AtomExpr(tokens[6]), 7);
  }

  /** A parenthesised expression is the expression inside, once the closing parenthesis is there. */
  lemma {:induction false} PrimaryParen(tokens: seq<T.Token>, pos: nat)
    requires pos < |tokens| && tokens[pos] == T.LeftParen
    ensures Primary(tokens, pos) ==
      match Expr(tokens, pos + 1, 0)
      case Err(e) => Err(e)
      case Ok((e, next)) =>
        match Consume(tokens, next, T.RightParen)
        case Err(err) => Err(err)
        case Ok(close) => Ok((e, close))
  {
  }

  /** One round of the argument loop: an argument, then a comma and more, or the end of the list. */
  lemma {:induction false} ArgumentsStep(tokens: seq<T.Token>, pos: nat, acc: seq<A.Expression>)
    requires pos <= |tokens|
    ensures Expr(tokens, pos, 0).Err? ==> Arguments(tokens, pos, acc) == Err(Expr(tokens, pos, 0).error)
    ensures Expr(tokens, pos, 0).Ok? ==>
      var (arg, next) := Expr(tokens, pos, 0).value;
      Arguments(tokens, pos, acc) ==
        if Check(tokens, next, T.Comma) then Arguments(tokens, next + 1, acc + [arg]) else Ok((acc + [arg], next))
  {
  }

  /** A variable followed by `(` is rejected: only `f$N` and `print` can be called. */
  lemma {:induction false} VariableCallRejected(tokens: seq<T.Token>, n: u32)
    requires |tokens| >= 2 && tokens[0] == T.Variable(n) && tokens[1] == T.LeftParen
    ensures Expr(tokens, 0, 0) == Err(UnexpectedToken(Placeholder, "function name (f$N) for function call", EntityName('v', n)))
  {
    assert Expr(tokens, 0, 6) == Primary(tokens, 0);
    FailRise(tokens, 0, 0, 6);
  }

  // ---------------------------------------------------------------------------------------------
  // Types and definitions

  /** A type keyword is read as the type that prints with the keyword's spelling. */
  lemma {:induction false} TypeKeywordSpelling(tok: T.Token)
    requires TypeOfToken(tok).Some?
    ensures ST.ValueTypeName(TypeOfToken(tok).value) == T.Display(tok)
  {
  }

  /** A function definition survives anything that keeps the definitions of its scope. */
  lemma {:induction false} DefinitionKept(before: seq<map<string, ST.Symbol>>, after: seq<map<string, ST.Symbol>>, f: A.Function)
    requires DefinesFunction(before, f) && ST.Keeps(before, after)
    ensures DefinesFunction(after, f)
  {
    assert f.name in before[|before| - 1];
  }

  /**
   * One round of the loop of `parse_program`: a function item defined under a name the innermost
   * scope did not hold before joins items that are all defined there, so the names stay distinct.
   */
  lemma {:induction false} DistinctExtend(scope: map<string, ST.Symbol>, items: seq<A.Item>, item: A.Item)
    requires DistinctFunctionNames(items)
    requires forall earlier <- items :: earlier.FunctionItem? ==> earlier.func.name in scope
    requires item.FunctionItem? ==> item.func.name !in scope
    ensures DistinctFunctionNames(items + [item])
  {
    var all := items + [item];
    forall i, j | 0 <= i < j < |all| && all[i].FunctionItem? && all[j].FunctionItem?
      ensures all[i].func.name != all[j].func.name
    {
      if j == |items| {
        assert all[i] in items;
      }
    }
  }

  /**
   * One round of the loop of `parse_program`: the functions defined so far survive the round,
   * and a new function item, defined under a name the innermost scope did not hold, joins them.
   */
  lemma {:induction false} FunctionsExtend(before: seq<map<string, ST.Symbol>>, after: seq<map<string, ST.Symbol>>,
                                           items: seq<A.Item>, item: A.Item)
    requires FunctionsDefined(before, items) && ST.Keeps(before, after) && |before| >= 1
    requires item.FunctionItem? ==> DefinesFunction(after, item.func) && item.func.name !in before[|before| - 1]
    ensures FunctionsDefined(after, items + [item])
  {
    forall earlier | earlier in items && earlier.FunctionItem?
      ensures earlier.func.name in before[|before| - 1] && DefinesFunction(after, earlier.func)
    {
      DefinitionKept(before, after, earlier.func);
    }
    DistinctExtend(before[|before| - 1], items, item);
  }

  /** What an inner scope does to the definitions of the outer ones, they keep when it is dropped. */
  lemma {:induction false} KeepsPrefix(before: seq<map<string, ST.Symbol>>, after: seq<map<string, ST.Symbol>>, k: nat)
    requires ST.Keeps(before, after) && k <= |before|
    ensures ST.Keeps(before[..k], after[..k])
  {
  }

  // ---------------------------------------------------------------------------------------------
  // Positions of parameters, statements and items

  /**
   * `(` then `)`, or `(`, comma-separated parameters and `)`: the list is empty exactly when `)`
   * follows `(`.
   */
  lemma {:induction false} ParameterListShape(tokens: seq<T.Token>, pos: nat)
    requires pos <= |tokens|
    ensures ParameterList(tokens, pos).Ok? ==>
      var (params, next) := ParameterList(tokens, pos).value;
      && Current(tokens, pos) == T.LeftParen && tokens[next - 1] == T.RightParen
      && (params == [] <==> Current(tokens, pos + 1) == T.RightParen)
  {
    if ParameterList(tokens, pos).Ok? {
      var items := ParameterItems(tokens, pos + 1);
      assert items.Ok? && ParameterList(tokens, pos) == Ok((items.value.0, items.value.1 + 1));
      ParameterItemsEmpty(tokens, pos + 1);
    }
  }

  /** No parameters are read exactly when `)` comes first. */
  lemma {:induction false} ParameterItemsEmpty(tokens: seq<T.Token>, pos: nat)
    requires pos <= |tokens|
    ensures ParameterItems(tokens, pos).Ok? ==> (ParameterItems(tokens, pos).value.0 == [] <==> Current(tokens, pos) == T.RightParen)
  {
  }

  /** Statement positions within bounds stay within any wider bounds. */
  lemma {:induction false} StatementsWiden(tokens: seq<T.Token>, statements: seq<A.Statement>, starts: seq<nat>,
                                           lo: nat, hi: nat, lo2: nat, hi2: nat)
    requires StatementsAt(tokens, statements, starts, lo, hi) && lo2 <= lo && hi <= hi2
    ensures StatementsAt(tokens, statements, starts, lo2, hi2)
    decreases |starts|
  {
    if starts != [] {
      var n := |starts| - 1;
      StatementsWiden(tokens, statements[..n], starts[..n], lo, starts[n], lo2, starts[n]);
    }
  }

  /**
   * `{`, any newlines, the statements of `parse_block` and `}` make a block; there are no
   * statements exactly when `}` follows the newlines at once.
   */
  lemma {:induction false} BlockClosed(tokens: seq<T.Token>, statements: seq<A.Statement>, starts: seq<nat>,
                                       open: nat, first: nat, close: nat)
    requires Check(tokens, open, T.LeftBrace) && first == SkipNewlines(tokens, open + 1)
    requires Check(tokens, close, T.RightBrace) && StatementsAt(tokens, statements, starts, first, close)
    requires statements == [] <==> Check(tokens, first, T.RightBrace) || Current(tokens, first) == T.Eof
    requires statements == [] ==> close == first
    ensures BlockAt(tokens, statements, starts, open, close + 1)
  {
    StatementsWiden(tokens, statements, starts, first, close, open + 1, close);
  }

  /** One more statement, read at or after the end of the previous ones, extends a block. */
  lemma {:induction false} StatementsExtend(tokens: seq<T.Token>, statements: seq<A.Statement>, starts: seq<nat>,
                                            s: A.Statement, at: nat, lo: nat, hi: nat, next: nat)
    requires StatementsAt(tokens, statements, starts, lo, hi)
    requires lo <= hi <= at < next && StartsWith(s, Current(tokens, at))
    ensures StatementsAt(tokens, statements + [s], starts + [at], lo, next)
  {
    StatementsWiden(tokens, statements, starts, lo, hi, lo, at);
    assert (statements + [s])[..|statements|] == statements && (starts + [at])[..|starts|] == starts;
  }

  /** One more item, read at or after the end of the previous ones, extends a program. */
  lemma {:induction false} ItemsExtend(tokens: seq<T.Token>, items: seq<A.Item>, starts: seq<nat>,
                                       item: A.Item, at: nat, lo: nat, hi: nat, next: nat)
    requires ItemsAt(tokens, items, starts, lo, hi)
    requires lo <= hi <= at < next && ItemAt(tokens, item, at)
    ensures ItemsAt(tokens, items + [item], starts + [at], lo, next)
  {
    assert (items + [item])[..|items|] == items && (starts + [at])[..|starts|] == starts;
  }
}
