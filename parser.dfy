/**
 * The recursive-descent parser. Its cursor moves over the token list as the functions of
 * `ParserSpec` say, every expression it builds is the one `ParserSpec.Expr` reads at the same
 * position, and its declarations go into the innermost scope of the shared symbol table
 * without disturbing any definition already there.
 */
module Parsers {
  import opened Common
  import opened Text
  import opened Spans
  import opened Errors
  import T = Tokens
  import A = Ast
  import ST = SymbolTables
  import LS = LexerSpec
  import Lexers
  import opened ParserSpec
  import PL = ParserLemmas

  class Parser {
    const tokens: seq<T.Token>
    var current: nat
    const symbolTable: ST.SymbolTable

    /** The cursor never runs past the end, and the symbol table keeps its global scope. */
    ghost predicate Valid()
      reads this, symbolTable
    {
      current <= |tokens| && symbolTable.Valid()
    }

    /** `current_token`. */
    function CurrentToken(): T.Token
      reads this
    {
      ParserSpec.Current(tokens, current)
    }

    /** The scopes of the symbol table. */
    ghost function Scopes(): seq<map<string, ST.Symbol>>
      reads symbolTable
    {
      symbolTable.scopes
    }

    /** `r` is the outcome `spec` predicts, and on success the cursor is where `spec` leaves it. */
    predicate Agrees<R(==)>(r: Result<R>, spec: Result<(R, nat)>)
      reads this
    {
      && (r.Ok? <==> spec.Ok?)
      && (r.Ok? ==> r.value == spec.value.0 && current == spec.value.1)
      && (r.Err? ==> r.error == spec.error)
    }

    /**
     * The `match` on an entity token that opens several productions: its name when the prefix
     * is accepted here, or an `UnexpectedToken` error naming what was expected.
     */
    method ParseName(accept: set<char>, expected: string) returns (r: Result<string>)
      requires Valid()
      modifies this
      ensures Valid()
      ensures NameOf(accept, old(CurrentToken())).Some? ==>
        r == Ok(NameOf(accept, old(CurrentToken())).value) && current == old(current) + 1
      ensures NameOf(accept, old(CurrentToken())).None? ==>
        r == Err(Unexpected(expected, old(CurrentToken()))) && current == old(current)
    {
      var name := NameOf(accept, CurrentToken());
      if name.None? {
        return Err(Unexpected(expected, CurrentToken()));
      }
      var _ := Advance();
      r := Ok(name.value);
    }

    /** The parser over a token list, at its first token. */
    constructor FromTokens(tokens: seq<T.Token>, symbolTable: ST.SymbolTable)
      requires symbolTable.Valid()
      ensures this.tokens == tokens && this.symbolTable == symbolTable && current == 0 && Valid()
    {
      this.tokens := tokens;
      this.symbolTable := symbolTable;
      current := 0;
    }

    /** `Parser::new`: tokenizes the whole source first; a lexical error is returned as it is. */
    static method New(source: string, symbolTable: ST.SymbolTable) returns (r: Result<Parser>)
      requires symbolTable.Valid()
      ensures r.Ok? <==> LS.Lex(source, LS.Start).Ok?
      ensures r.Ok? ==> fresh(r.value) && r.value.Valid()
      ensures r.Ok? ==> r.value.tokens == LS.Lex(source, LS.Start).value
      ensures r.Ok? ==> r.value.symbolTable == symbolTable && r.value.current == 0
      ensures r.Err? ==> r.error == LS.Lex(source, LS.Start).error
    {
      var lexer := new Lexers.Lexer(source);
      var tokens := lexer.Tokenize();
      if tokens.Err? {
        return Err(tokens.error);
      }
      var parser := new Parser.FromTokens(tokens.value, symbolTable);
      r := Ok(parser);
    }

    // -------------------------------------------------------------------------------------------
    // The cursor

    /** `advance`: moves on unless at `Eof`, and returns the token it moved over. */
    method Advance() returns (previous: T.Token)
      requires Valid()
      modifies this
      ensures Valid() && current == Next(tokens, old(current))
      ensures old(CurrentToken()) != T.Eof ==> previous == old(CurrentToken())
    {
      if CurrentToken() != T.Eof {
        current := current + 1;
      }
      previous := if current > 0 then tokens[current - 1] else T.Eof;
    }

    /** `check`. */
    predicate Check(expected: T.Token)
      reads this
    {
      ParserSpec.Check(tokens, current, expected)
    }

    /** `consume`: the expected token, or an `UnexpectedToken` error that leaves the cursor where it is. */
    method Consume(expected: T.Token) returns (r: Result<T.Token>)
      requires Valid()
      modifies this
      ensures Valid()
      ensures r.Ok? <==> ParserSpec.Check(tokens, old(current), expected)
      ensures r.Ok? ==> current == old(current) + 1 && r.value == tokens[old(current)]
      ensures r.Err? ==> r.error == Unexpected(T.Display(expected), old(CurrentToken())) && current == old(current)
      ensures ParserSpec.Consume(tokens, old(current), expected) == if r.Ok? then Ok(current) else Err(r.error)
    {
      if Check(expected) {
        var previous := Advance();
        return Ok(previous);
      }
      r := Err(Unexpected(T.Display(expected), CurrentToken()));
    }

    /** `skip_newlines`. */
    method SkipNewlines()
      requires Valid()
      modifies this
      ensures Valid() && current == ParserSpec.SkipNewlines(tokens, old(current))
    {
      while CurrentToken() == T.Newline
        invariant Valid()
        invariant ParserSpec.SkipNewlines(tokens, current) == ParserSpec.SkipNewlines(tokens, old(current))
        decreases |tokens| - current
      {
        var _ := Advance();
      }
    }

    /** `collect_documentation`: the doc comments ahead, joined by newlines, or None when there are none. */
    method CollectDocumentation() returns (docs: Option<string>)
      requires Valid()
      modifies this
      ensures Valid()
      ensures current == DocComments(tokens, old(current)).1
      ensures docs == ST.PendingDocumentation(DocComments(tokens, old(current)).0)
    {
      var lines: seq<string> := [];
      while CurrentToken().DocComment?
        invariant Valid()
        invariant DocComments(tokens, old(current)).0 == lines + DocComments(tokens, current).0
        invariant DocComments(tokens, old(current)).1 == DocComments(tokens, current).1
        decreases |tokens| - current
      {
        ghost var before := current;
        lines := lines + [CurrentToken().doc];
        var _ := Advance();
        SkipNewlines();
        assert DocComments(tokens, before).0 == [tokens[before].doc] + DocComments(tokens, current).0;
      }
      assert DocComments(tokens, current).0 == [];
      assert lines == DocComments(tokens, old(current)).0;
      docs := if lines == [] then None else Some(Join(lines, "\n"));
    }

    // -------------------------------------------------------------------------------------------
    // Expressions

    /** `parse_expression`: the loosest level of the ladder. */
    method ParseExpression() returns (r: Result<A.Expression>)
      requires Valid()
      modifies this
      ensures Valid() && Agrees(r, Expr(tokens, old(current), 0))
      decreases |tokens| - current, 8, 0
    {
      r := ParseLevel(0);
    }

    /**
     * `parse_logical_or`, `parse_logical_and`, `parse_equality`, `parse_comparison`,
     * `parse_additive` and `parse_multiplicative` (levels 0 to 5), and `parse_unary` at level 6.
     */
    method ParseLevel(level: nat) returns (r: Result<A.Expression>)
      requires Valid() && level <= 6
      modifies this
      ensures Valid() && Agrees(r, Expr(tokens, old(current), level))
      decreases |tokens| - current, 7 - level, 1
    {
      if level == 6 {
        r := ParseUnary();
        return;
      }
      var left := ParseLevel(level + 1);
      if left.Err? {
        return Err(left.error);
      }
      var expr := left.value;
      while InfixAt(level, CurrentToken()).Some?
        invariant Valid() && old(current) < current
        invariant Loop(tokens, level, expr, current) == Expr(tokens, old(current), level)
        decreases |tokens| - current
      {
        var op := InfixAt(level, CurrentToken()).value;
        var _ := Advance();
        var right := ParseLevel(level + 1);
        if right.Err? {
          return Err(right.error);
        }
        expr := Combine(op, expr, right.value);
      }
      r := Ok(expr);
    }

    /** `parse_unary`. */
    method ParseUnary() returns (r: Result<A.Expression>)
      requires Valid()
      modifies this
      ensures Valid() && Agrees(r, UnaryExpr(tokens, old(current)))
      decreases |tokens| - current, 0, 2
    {
      if CurrentToken() == T.Not {
        var _ := Advance();
        var operand := ParseUnary();
        if operand.Err? {
          return Err(operand.error);
        }
        r := Ok(A.Unary(A.Not, operand.value, FromTo(Placeholder, operand.value.span)));
      } else {
        r := ParsePrimary();
      }
    }

    /** `parse_primary`. */
    method ParsePrimary() returns (r: Result<A.Expression>)
      requires Valid()
      modifies this
      ensures Valid() && Agrees(r, Primary(tokens, old(current)))
      decreases |tokens| - current, 0, 1
    {
      var tok := CurrentToken();
      if tok.Function? {
        var _ := Advance();
        r := ParseCall(EntityName('f', tok.number));
      } else if tok == T.Print {
        var _ := Advance();
        r := ParseCall("print");
      } else if tok == T.LeftParen {
        r := ParseParenthesised();
      } else {
        r := ParseLiteral();
      }
    }

    /** The literal and entity-name arms of `parse_primary`. */
    method ParseLiteral() returns (r: Result<A.Expression>)
      requires Valid()
      modifies this
      ensures Valid() && Agrees(r, Literal(tokens, old(current)))
    {
      var span := Placeholder;
      var tok := CurrentToken();
      if tok.Integer? {
        var _ := Advance();
        r := Ok(A.Integer(tok.intValue, span));
      } else if tok.String? {
        var _ := Advance();
        r := Ok(A.String(tok.text, span));
      } else if tok == T.True || tok == T.False {
        var _ := Advance();
        r := Ok(A.Boolean(tok == T.True, span));
      } else if tok.Variable? {
        var name := EntityName('v', tok.number);
        var _ := Advance();
        if Check(T.LeftParen) {
          return Err(UnexpectedToken(span, "function name (f$N) for function call", name));
        }
        r := Ok(A.Variable(name, span));
      } else if tok.Constant? {
        var _ := Advance();
        r := Ok(A.Variable(EntityName('c', tok.number), span));
      } else {
        r := Err(Unexpected("expression", tok));
      }
    }

    /** The `(` arm of `parse_primary`: an expression and the closing parenthesis. */
    method ParseParenthesised() returns (r: Result<A.Expression>)
      requires Valid() && CurrentToken() == T.LeftParen
      modifies this
      ensures Valid() && Agrees(r, Primary(tokens, old(current)))
      decreases |tokens| - current, 0, 0
    {
      ghost var start := current;
      var _ := Advance();
      var e := ParseExpression();
      if e.Err? {
        assert Primary(tokens, start) == Err(e.error);
        return Err(e.error);
      }
      var close := Consume(T.RightParen);
      if close.Err? {
        return Err(close.error);
      }
      r := Ok(e.value);
    }

    /** The argument list of the `f$N` and `print` arms of `parse_primary`, entered after the callee's name. */
    method ParseCall(name: string) returns (r: Result<A.Expression>)
      requires Valid()
      modifies this
      ensures Valid() && Agrees(r, Call(tokens, old(current), name))
      decreases |tokens| - current, 0, 0
    {
      var open := Consume(T.LeftParen);
      if open.Err? {
        return Err(open.error);
      }
      var arguments := ParseArgumentList();
      if arguments.Err? {
        return Err(arguments.error);
      }
      var close := Consume(T.RightParen);
      if close.Err? {
        return Err(close.error);
      }
      r := Ok(A.FunctionCall(name, arguments.value, FromTo(Placeholder, Placeholder)));
    }

    /** The arguments between the parentheses of a call: none when `)` comes at once. */
    method ParseArgumentList() returns (r: Result<seq<A.Expression>>)
      requires Valid()
      modifies this
      ensures Valid() && Agrees(r, ArgumentList(tokens, old(current)))
      decreases |tokens| - current, 8, 2
    {
      if Check(T.RightParen) {
        return Ok([]);
      }
      r := ParseArguments();
    }

    /** The `loop` over comma-separated call arguments. */
    method ParseArguments() returns (r: Result<seq<A.Expression>>)
      requires Valid()
      modifies this
      ensures Valid() && Agrees(r, Arguments(tokens, old(current), []))
      decreases |tokens| - current, 8, 1
    {
      var arguments: seq<A.Expression> := [];
      while true
        invariant Valid() && old(current) <= current
        invariant Arguments(tokens, current, arguments) == Arguments(tokens, old(current), [])
        decreases |tokens| - current
      {
        ghost var before := current;
        ghost var soFar := arguments;
        var arg := ParseExpression();
        PL.ArgumentsStep(tokens, before, soFar);
        if arg.Err? {
          return Err(arg.error);
        }
        arguments := arguments + [arg.value];
        if Check(T.Comma) {
          var _ := Advance();
        } else {
          return Ok(arguments);
        }
      }
    }

    // -------------------------------------------------------------------------------------------
    // Program, items and types

    /** The innermost scope holds `name` with this kind and type, initialised or not. */
    ghost predicate Declared(name: string, entityType: ST.EntityType, initialized: bool)
      reads this, symbolTable
    {
      && symbolTable.Valid()
      && name in symbolTable.Current()
      && symbolTable.Current()[name].entityType == entityType
      && symbolTable.Current()[name].isInitialized == initialized
    }

    /**
     * `parse_program`: items up to `Eof`, each preceded by its documentation. Every function the
     * program defines is in the scope that was innermost when parsing began, and no two
     * functions share a name.
     */
    method ParseProgram() returns (r: Result<A.Program>, ghost starts: seq<nat>)
      requires Valid()
      modifies this, symbolTable
      ensures Valid()
      ensures r.Ok? ==> CurrentToken() == T.Eof && ST.Keeps(old(Scopes()), Scopes())
      ensures r.Ok? ==> FunctionsDefined(Scopes(), r.value.items)
      ensures r.Ok? ==> ItemsAt(tokens, r.value.items, starts, old(current), current)
    {
      var startSpan := Placeholder;
      var items: seq<A.Item> := [];
      starts := [];
      SkipNewlines();
      while CurrentToken() != T.Eof
        invariant Valid() && ST.Keeps(old(Scopes()), Scopes())
        invariant old(current) <= current && ItemsAt(tokens, items, starts, old(current), current)
        invariant FunctionsDefined(Scopes(), items)
        decreases |tokens| - current
      {
        ghost var before := Scopes();
        var item;
        ghost var at;
        item, at := ParseProgramItem(items, starts, old(current));
        if item.Err? {
          r := Err(item.error);
          return;
        }
        ST.KeepsTransitive(old(Scopes()), before, Scopes());
        items := items + [item.value];
        starts := starts + [at];
        SkipNewlines();
      }
      r := Ok(A.Program(items, FromTo(startSpan, Placeholder)));
    }

    /**
     * The body of the loop of `parse_program`, after `items` read from `lo` on: one more item,
     * which joins them; every function among them stays defined, under a name of its own.
     */
    method ParseProgramItem(ghost items: seq<A.Item>, ghost starts: seq<nat>, ghost lo: nat) returns (r: Result<A.Item>, ghost at: nat)
      requires Valid() && lo <= current && ItemsAt(tokens, items, starts, lo, current)
      requires FunctionsDefined(Scopes(), items)
      modifies this, symbolTable
      ensures Valid()
      ensures r.Ok? ==> old(current) < current && ST.Keeps(old(Scopes()), Scopes())
      ensures r.Ok? ==> ItemsAt(tokens, items + [r.value], starts + [at], lo, current)
      ensures r.Ok? ==> FunctionsDefined(Scopes(), items + [r.value])
    {
      ghost var before := Scopes();
      ghost var scope := symbolTable.Current();
      assert scope == before[|before| - 1];
      at := DocComments(tokens, current).1;
      r := ParseDocumentedItem();
      if r.Err? {
        return;
      }
      assert r.value.FunctionItem? ==> r.value.func.name !in scope;
      PL.FunctionsExtend(before, Scopes(), items, r.value);
      PL.ItemsExtend(tokens, items, starts, r.value, at, lo, old(current), current);
    }

    /** One round of the loop of `parse_program`: the doc comments ahead become pending, then an item. */
    method ParseDocumentedItem() returns (r: Result<A.Item>)
      requires Valid()
      modifies this, symbolTable
      ensures Valid()
      ensures r.Ok? ==> old(current) < current && ST.Keeps(old(Scopes()), Scopes())
      ensures r.Ok? && r.value.FunctionItem? ==>
        DefinesFunction(Scopes(), r.value.func) && r.value.func.name !in old(symbolTable.Current())
      ensures r.Ok? ==> var at := DocComments(tokens, old(current)).1; at < current && ItemAt(tokens, r.value, at)
      ensures r.Ok? ==> symbolTable.pendingDocs == []
      ensures var at := DocComments(tokens, old(current)).1;
        Current(tokens, at) != T.Fn && Current(tokens, at) != T.Main ==> r == Err(Unexpected("fn or main", Current(tokens, at)))
    {
      var docs := CollectDocumentation();
      if docs.Some? {
        symbolTable.AddPendingDoc(docs.value);
      }
      r := ParseItem();
    }

    /** `parse_item`: a function after `fn`, the main block after `main`; any other token is an error. */
    method ParseItem() returns (r: Result<A.Item>)
      requires Valid()
      modifies this, symbolTable
      ensures Valid()
      ensures old(CurrentToken()) != T.Fn && old(CurrentToken()) != T.Main ==>
        r == Err(Unexpected("fn or main", old(CurrentToken()))) && current == old(current) && Scopes() == old(Scopes())
      ensures r.Ok? ==> old(current) < current && ST.Keeps(old(Scopes()), Scopes())
      ensures r.Ok? ==> (r.value.FunctionItem? <==> old(CurrentToken()) == T.Fn)
      ensures r.Ok? && r.value.FunctionItem? ==>
        DefinesFunction(Scopes(), r.value.func) && r.value.func.name !in old(symbolTable.Current())
      ensures r.Ok? ==> ItemAt(tokens, r.value, old(current)) && symbolTable.pendingDocs == []
    {
      if CurrentToken() == T.Fn {
        var f;
        ghost var bodyStarts;
        f, bodyStarts := ParseFunction();
        if f.Err? {
          return Err(f.error);
        }
        r := Ok(A.FunctionItem(f.value));
      } else if CurrentToken() == T.Main {
        var m;
        ghost var bodyStarts;
        m, bodyStarts := ParseMainBlock();
        if m.Err? {
          return Err(m.error);
        }
        r := Ok(A.MainItem(m.value));
      } else {
        r := Err(Unexpected("fn or main", CurrentToken()));
      }
    }

    /**
     * `parse_function`: the function is defined in the innermost scope before its body is read,
     * its parameters in a new scope that is dropped after the body.
     */
    method ParseFunction() returns (r: Result<A.Function>, ghost bodyStarts: seq<nat>)
      requires Valid()
      modifies this, symbolTable
      ensures Valid()
      ensures r.Ok? ==> old(current) < current && ST.Keeps(old(Scopes()), Scopes())
      ensures r.Ok? ==> DefinesFunction(Scopes(), r.value) && r.value.name !in old(symbolTable.Current())
      ensures r.Ok? ==> old(CurrentToken()) == T.Fn && NameOf({'f'}, Current(tokens, old(current) + 1)) == Some(r.value.name)
      ensures r.Ok? ==> DistinctParameterNames(r.value.params)
      ensures r.Ok? ==> Signature(tokens, old(current)).Ok? && Signature(tokens, old(current)).value.0 == (r.value.name, r.value.params, r.value.returnType)
      ensures r.Ok? ==> BlockAt(tokens, r.value.body.statements, bodyStarts, Signature(tokens, old(current)).value.1, current)
      ensures r.Ok? ==> symbolTable.pendingDocs == []
    {
      bodyStarts := [];
      var startSpan := Placeholder;
      var signature := ParseSignature();
      if signature.Err? {
        r := Err(signature.error);
        return;
      }
      var (name, params, returnType) := signature.value;
      var funcSymbol := ST.NewSymbol(ST.Function(ParamTypes(params), returnType), startSpan);
      var defined := symbolTable.Define(name, funcSymbol);
      if defined.Err? {
        r := Err(defined.error);
        return;
      }
      ghost var withFunction := Scopes();
      var body;
      body, bodyStarts := ParseBodyInScope(params);
      if body.Err? {
        r := Err(body.error);
        return;
      }
      ST.KeepsTransitive(old(Scopes()), withFunction, Scopes());
      var docs := symbolTable.TakePendingDocs();
      var f := A.NewFunction(name, params, returnType, body.value, FromTo(startSpan, Placeholder));
      if docs.Some? {
        f := A.FunctionWithDocumentation(f, docs.value);
      }
      assert f.params == params;
      PL.DefinitionKept(withFunction, Scopes(), f);
      r := Ok(f);
    }

    /** The signature read by `parse_function`: `fn f$N(parameters) -> type`. */
    method ParseSignature() returns (r: Result<(string, seq<A.Parameter>, ST.ValueType)>)
      requires Valid()
      modifies this
      ensures Valid()
      ensures r.Ok? ==> old(current) < current && old(CurrentToken()) == T.Fn
      ensures r.Ok? ==> NameOf({'f'}, Current(tokens, old(current) + 1)) == Some(r.value.0)
      ensures old(CurrentToken()) == T.Fn && NameOf({'f'}, Current(tokens, old(current) + 1)).None? ==>
        r == Err(Unexpected("function name (f$N)", Current(tokens, old(current) + 1)))
      ensures Agrees(r, Signature(tokens, old(current)))
    {
      var fnToken := Consume(T.Fn);
      if fnToken.Err? {
        return Err(fnToken.error);
      }
      var name := ParseName({'f'}, "function name (f$N)");
      if name.Err? {
        return Err(name.error);
      }
      var params := ParseParameterList();
      if params.Err? {
        return Err(params.error);
      }
      var returnType := ParseReturnType();
      if returnType.Err? {
        return Err(returnType.error);
      }
      r := Ok((name.value, params.value, returnType.value));
    }

    /** The parenthesised, comma-separated parameter list of `parse_function`. */
    method ParseParameterList() returns (r: Result<seq<A.Parameter>>)
      requires Valid()
      modifies this
      ensures Valid()
      ensures Agrees(r, ParameterList(tokens, old(current)))
    {
      var open := Consume(T.LeftParen);
      if open.Err? {
        return Err(open.error);
      }
      var params := ParseParameterItems();
      if params.Err? {
        return Err(params.error);
      }
      var close := Consume(T.RightParen);
      if close.Err? {
        return Err(close.error);
      }
      r := Ok(params.value);
    }

    /** The parameters between the parentheses: none when `)` follows at once, otherwise the loop. */
    method ParseParameterItems() returns (r: Result<seq<A.Parameter>>)
      requires Valid()
      modifies this
      ensures Valid() && Agrees(r, ParameterItems(tokens, old(current)))
    {
      if Check(T.RightParen) {
        return Ok([]);
      }
      r := ParseParameters();
    }

    /** The loop of `parse_function` that reads parameters while a comma follows. */
    method ParseParameters() returns (r: Result<seq<A.Parameter>>)
      requires Valid()
      modifies this
      ensures Valid()
      ensures Agrees(r, Parameters(tokens, old(current), []))
    {
      var params: seq<A.Parameter> := [];
      while true
        invariant Valid() && old(current) <= current
        invariant Parameters(tokens, current, params) == Parameters(tokens, old(current), [])
        decreases |tokens| - current
      {
        var step := ParseParameterRound(params);
        if step.Err? {
          return Err(step.error);
        }
        params := step.value.0;
        if !step.value.1 {
          return Ok(params);
        }
      }
    }

    /**
     * One round of the `loop` of `parse_function`: a parameter joins those read so far, and the
     * loop goes on exactly when a comma follows it, which is then consumed.
     */
    method ParseParameterRound(params: seq<A.Parameter>) returns (r: Result<(seq<A.Parameter>, bool)>)
      requires Valid()
      modifies this
      ensures Valid()
      ensures Agrees(r, ParameterRound(tokens, old(current), params))
    {
      var param := ParseParameter();
      if param.Err? {
        return Err(param.error);
      }
      if Check(T.Comma) {
        var _ := Advance();
        r := Ok((params + [param.value], true));
      } else {
        r := Ok((params + [param.value], false));
      }
    }

    /** `parse_parameter`: a `v$N` name and its type. */
    method ParseParameter() returns (r: Result<A.Parameter>)
      requires Valid()
      modifies this
      ensures Valid()
      ensures Agrees(r, Parameter(tokens, old(current)))
    {
      var startSpan := Placeholder;
      var name := ParseName({'v'}, "parameter name (v$N)");
      if name.Err? {
        return Err(name.error);
      }
      var paramType := ParseType();
      if paramType.Err? {
        return Err(paramType.error);
      }
      r := Ok(A.Parameter(name.value, paramType.value, FromTo(startSpan, Placeholder)));
    }

    /**
     * The scope of a body (`enter_scope`, the parameters, `parse_block`, `exit_scope`) shared by
     * `parse_function` and, with no parameters, `parse_main_block`. Every definition made in it
     * is dropped with it.
     */
    method ParseBodyInScope(params: seq<A.Parameter>) returns (r: Result<A.Block>, ghost starts: seq<nat>)
      requires Valid()
      modifies this, symbolTable
      ensures Valid()
      ensures r.Ok? ==> old(current) < current && ST.Keeps(old(Scopes()), Scopes())
      ensures r.Ok? ==> DistinctParameterNames(params)
      ensures r.Ok? ==> BlockAt(tokens, r.value.statements, starts, old(current), current)
    {
      starts := [];
      ghost var outer := Scopes();
      symbolTable.EnterScope();
      var defined := DefineParameters(params);
      if defined.Err? {
        r := Err(defined.error);
        return;
      }
      ghost var entered := Scopes();
      assert entered[..|outer|] == outer;
      var body;
      body, starts := ParseBlock();
      if body.Err? {
        r := Err(body.error);
        return;
      }
      ghost var afterBody := Scopes();
      symbolTable.ExitScope();
      PL.KeepsPrefix(entered, afterBody, |outer|);
      r := body;
    }

    /**
     * The `for` loop of `parse_function`: each parameter becomes a variable of its type in the
     * innermost scope, which is the only scope that changes. A name given twice is an error.
     */
    method DefineParameters(params: seq<A.Parameter>) returns (r: Result<()>)
      requires Valid()
      modifies symbolTable
      ensures Valid() && |Scopes()| == old(|Scopes()|)
      ensures r.Ok? ==> Scopes()[..|Scopes()| - 1] == old(Scopes())[..|Scopes()| - 1]
      ensures r.Ok? ==> forall p <- params :: Declared(p.name, ST.Variable(p.paramType), false)
      ensures r.Ok? ==> DistinctParameterNames(params)
    {
      var i := 0;
      while i < |params|
        invariant Valid() && 0 <= i <= |params| && |Scopes()| == old(|Scopes()|)
        invariant Scopes()[..|Scopes()| - 1] == old(Scopes())[..|Scopes()| - 1]
        invariant forall j :: 0 <= j < i ==> Declared(params[j].name, ST.Variable(params[j].paramType), false)
        invariant forall j, k :: 0 <= j < k < i ==> params[j].name != params[k].name
      {
        var defined := DefineParameter(params[i]);
        if defined.Err? {
          return Err(defined.error);
        }
        i := i + 1;
      }
      r := Ok(());
    }

    /** One parameter of `parse_function`'s loop: a fresh, uninitialised variable in the innermost scope. */
    method DefineParameter(param: A.Parameter) returns (r: Result<()>)
      requires Valid()
      modifies symbolTable
      ensures Valid() && |Scopes()| == old(|Scopes()|)
      ensures Scopes()[..|Scopes()| - 1] == old(Scopes())[..|Scopes()| - 1]
      ensures r.Ok? <==> param.name !in old(symbolTable.Current())
      ensures r.Ok? ==>
        && param.name in symbolTable.Current()
        && symbolTable.Current() == old(symbolTable.Current())[param.name := symbolTable.Current()[param.name]]
      ensures r.Ok? ==> Declared(param.name, ST.Variable(param.paramType), false)
    {
      var symbol := ST.NewSymbol(ST.Variable(param.paramType), param.span);
      r := symbolTable.Define(param.name, symbol);
    }

    /** `parse_main_block`: the body is read in a scope of its own, dropped afterwards. */
    method ParseMainBlock() returns (r: Result<A.MainBlock>, ghost starts: seq<nat>)
      requires Valid()
      modifies this, symbolTable
      ensures Valid()
      ensures r.Ok? ==> old(current) < current && ST.Keeps(old(Scopes()), Scopes()) && old(CurrentToken()) == T.Main
      ensures r.Ok? ==> BlockAt(tokens, r.value.body.statements, starts, old(current) + 1, current)
      ensures r.Ok? ==> symbolTable.pendingDocs == []
    {
      starts := [];
      var startSpan := Placeholder;
      var mainToken := Consume(T.Main);
      if mainToken.Err? {
        r := Err(mainToken.error);
        return;
      }
      var body;
      body, starts := ParseBodyInScope([]);
      if body.Err? {
        r := Err(body.error);
        return;
      }
      var docs := symbolTable.TakePendingDocs();
      var m := A.NewMainBlock(body.value, FromTo(startSpan, Placeholder));
      if docs.Some? {
        m := A.MainWithDocumentation(m, docs.value);
      }
      r := Ok(m);
    }

    /** The `->` and return type of `parse_function`. */
    method ParseReturnType() returns (r: Result<ST.ValueType>)
      requires Valid()
      modifies this
      ensures Valid()
      ensures Agrees(r, ReturnType(tokens, old(current)))
    {
      var arrow := Consume(T.Arrow);
      if arrow.Err? {
        return Err(arrow.error);
      }
      r := ParseType();
    }

    /** `parse_type`: `int`, `str` or `bool`. */
    method ParseType() returns (r: Result<ST.ValueType>)
      requires Valid()
      modifies this
      ensures Valid()
      ensures TypeOfToken(old(CurrentToken())).Some? ==>
        r == Ok(TypeOfToken(old(CurrentToken())).value) && current == old(current) + 1
      ensures TypeOfToken(old(CurrentToken())).None? ==>
        r == Err(Unexpected("type", old(CurrentToken()))) && current == old(current)
    {
      var valueType := TypeOfToken(CurrentToken());
      if valueType.None? {
        return Err(Unexpected("type", CurrentToken()));
      }
      var _ := Advance();
      r := Ok(valueType.value);
    }

    // -------------------------------------------------------------------------------------------
    // Blocks and statements

    /** `parse_block`: statements between braces, each preceded by its documentation. */
    method ParseBlock() returns (r: Result<A.Block>, ghost starts: seq<nat>)
      requires Valid()
      modifies this, symbolTable
      ensures Valid()
      ensures r.Ok? ==> old(current) < current && ST.Keeps(old(Scopes()), Scopes())
      ensures r.Ok? ==> BlockAt(tokens, r.value.statements, starts, old(current), current)
      decreases |tokens| - current, 0
    {
      starts := [];
      var startSpan := Placeholder;
      var open := Consume(T.LeftBrace);
      if open.Err? {
        r := Err(open.error);
        return;
      }
      SkipNewlines();
      ghost var before := Scopes();
      var statements;
      ghost var inner;
      statements, inner := ParseStatements(old(current));
      if statements.Err? {
        r := Err(statements.error);
        return;
      }
      ghost var after := Scopes();
      var close := Consume(T.RightBrace);
      if close.Err? {
        r := Err(close.error);
        return;
      }
      assert old(Scopes()) == before && Scopes() == after;
      assert BlockAt(tokens, statements.value, inner, old(current), current);
      starts := inner;
      r := Ok(A.Block(statements.value, FromTo(startSpan, Placeholder)));
      assert r.value.statements == statements.value;
    }

    /**
     * The loop of `parse_block`: statements, each followed by any newlines, until `}` or the
     * end of the input.
     */
    method ParseStatements(ghost open: nat) returns (r: Result<seq<A.Statement>>, ghost starts: seq<nat>)
      requires Valid() && ParserSpec.Check(tokens, open, T.LeftBrace)
      requires current == ParserSpec.SkipNewlines(tokens, open + 1)
      modifies this, symbolTable
      ensures Valid()
      ensures r.Ok? ==> old(current) <= current && ST.Keeps(old(Scopes()), Scopes())
      ensures r.Ok? ==> ParserSpec.Check(tokens, current, T.RightBrace) || Current(tokens, current) == T.Eof
      ensures r.Ok? && ParserSpec.Check(tokens, current, T.RightBrace) ==> BlockAt(tokens, r.value, starts, open, current + 1)
      decreases |tokens| - current, 4
    {
      starts := [];
      ghost var atEnd := Check(T.RightBrace) || CurrentToken() == T.Eof;
      var statements: seq<A.Statement> := [];
      while !Check(T.RightBrace) && CurrentToken() != T.Eof
        invariant Valid() && old(current) <= current && ST.Keeps(old(Scopes()), Scopes())
        invariant StatementsAt(tokens, statements, starts, old(current), current)
        invariant statements == [] ==> current == old(current)
        invariant statements != [] ==> !atEnd
        decreases |tokens| - current
      {
        ghost var before := Scopes();
        ghost var beforeCurrent := current;
        ghost var at := DocComments(tokens, current).1;
        var statement := ParseDocumentedStatement();
        if statement.Err? {
          r := Err(statement.error);
          return;
        }
        ST.KeepsTransitive(old(Scopes()), before, Scopes());
        PL.StatementsExtend(tokens, statements, starts, statement.value, at, old(current), beforeCurrent, current);
        statements := statements + [statement.value];
        starts := starts + [at];
        SkipNewlines();
      }
      if Check(T.RightBrace) {
        PL.BlockClosed(tokens, statements, starts, open, old(current), current);
      }
      r := Ok(statements);
    }

    /** One round of the loop of `parse_block`: the doc comments ahead become pending, then a statement. */
    method ParseDocumentedStatement() returns (r: Result<A.Statement>)
      requires Valid()
      modifies this, symbolTable
      ensures Valid()
      ensures r.Ok? ==> old(current) < current && ST.Keeps(old(Scopes()), Scopes())
      ensures r.Ok? ==> DocComments(tokens, old(current)).1 < current
      ensures r.Ok? ==> StartsWith(r.value, Current(tokens, DocComments(tokens, old(current)).1))
      decreases |tokens| - current, 3
    {
      var docs := CollectDocumentation();
      if docs.Some? {
        symbolTable.AddPendingDoc(docs.value);
      }
      r := ParseStatement();
    }

    /**
     * `parse_statement`: the first token decides the kind of statement; a type keyword must be
     * followed by a variable or a constant name.
     */
    method ParseStatement() returns (r: Result<A.Statement>)
      requires Valid()
      modifies this, symbolTable
      ensures Valid()
      ensures r.Ok? ==> old(current) < current && ST.Keeps(old(Scopes()), Scopes())
      ensures r.Ok? ==> StartsWith(r.value, old(CurrentToken()))
      decreases |tokens| - current, 2
    {
      var tok := CurrentToken();
      if TypeOfToken(tok).Some? {
        r := ParseTypedDeclaration();
      } else if tok.Variable? {
        r := ParseAssignment();
      } else if tok == T.Ret {
        r := ParseReturn();
      } else if tok == T.Describe {
        r := ParseDescribe();
      } else if tok == T.If {
        ghost var closeParen, thenStarts, thenEnd, elseStarts;
        r, closeParen, thenStarts, thenEnd, elseStarts := ParseIf();
      } else {
        r := ParseExpressionStatement();
      }
    }

    /** The arm of `parse_statement` for a type keyword: the type, then a variable or a constant declaration. */
    method ParseTypedDeclaration() returns (r: Result<A.Statement>)
      requires Valid()
      modifies this, symbolTable
      ensures Valid()
      ensures r.Ok? ==> old(current) < current && ST.Keeps(old(Scopes()), Scopes())
      ensures r.Ok? ==> (r.value.VariableDeclaration? || r.value.ConstantDeclaration?) && TypeOfToken(old(CurrentToken())) == Some(r.value.valueType)
      ensures TypeOfToken(old(CurrentToken())).Some? && NameOf({'v', 'c'}, Current(tokens, old(current) + 1)).None? ==>
        r == Err(Unexpected("variable or constant name", Current(tokens, old(current) + 1)))
    {
      var valueType := ParseType();
      if valueType.Err? {
        return Err(valueType.error);
      }
      if CurrentToken().Variable? {
        r := ParseVariableDeclarationAfterType(valueType.value);
      } else if CurrentToken().Constant? {
        r := ParseConstantDeclarationAfterType(valueType.value);
      } else {
        r := Err(Unexpected("variable or constant name", CurrentToken()));
      }
    }

    /** The last arm of `parse_statement`: an expression followed by `;`. */
    method ParseExpressionStatement() returns (r: Result<A.Statement>)
      requires Valid()
      modifies this
      ensures Valid()
      ensures r.Ok? ==> old(current) < current && r.value.ExpressionStatement?
      ensures r.Ok? ==> Expr(tokens, old(current), 0).Ok? && r.value.expr == Expr(tokens, old(current), 0).value.0
      ensures r.Ok? ==> tokens[current - 1] == T.Semicolon
    {
      var e := ParseExpression();
      if e.Err? {
        return Err(e.error);
      }
      var semi := Consume(T.Semicolon);
      if semi.Err? {
        return Err(semi.error);
      }
      r := Ok(A.ExpressionStatement(e.value));
    }

    /**
     * `parse_if_statement`: a parenthesised condition, a block, and a block after `else` when one
     * follows. The condition ends at the `)` at `closeParen`, the then-block runs from just after it
     * to `thenEnd`, and the else-block, when there is one, from just after the `else` at `thenEnd`
     * to where the statement ends.
     */
    method ParseIf()
      returns (r: Result<A.Statement>, ghost closeParen: nat, ghost thenStarts: seq<nat>, ghost thenEnd: nat, ghost elseStarts: seq<nat>)
      requires Valid()
      modifies this, symbolTable
      ensures Valid()
      ensures r.Ok? ==> old(current) < current && ST.Keeps(old(Scopes()), Scopes())
      ensures r.Ok? ==> r.value.If? && old(CurrentToken()) == T.If && IfHead(tokens, old(current), r.value.condition, closeParen)
      ensures r.Ok? ==> IfBlocksAt(tokens, r.value, closeParen, thenStarts, thenEnd, elseStarts, current)
      decreases |tokens| - current, 1
    {
      closeParen, thenStarts, thenEnd, elseStarts := 0, [], 0, [];
      var startSpan := Placeholder;
      var condition := ParseCondition();
      if condition.Err? {
        r := Err(condition.error);
        return;
      }
      closeParen := current - 1;
      assert IfHead(tokens, old(current), condition.value, closeParen);
      r, thenStarts, thenEnd, elseStarts := ParseIfBlocks(condition.value, startSpan, closeParen);
    }

    /** The blocks of `parse_if_statement`, read once the condition and its `)` at `closeParen` are behind the cursor. */
    method ParseIfBlocks(condition: A.Expression, startSpan: Span, ghost closeParen: nat)
      returns (r: Result<A.Statement>, ghost thenStarts: seq<nat>, ghost thenEnd: nat, ghost elseStarts: seq<nat>)
      requires Valid() && current == closeParen + 1
      modifies this, symbolTable
      ensures Valid()
      ensures r.Ok? ==> old(current) < current && ST.Keeps(old(Scopes()), Scopes())
      ensures r.Ok? ==> r.value.If? && r.value.condition == condition
      ensures r.Ok? ==> IfBlocksAt(tokens, r.value, closeParen, thenStarts, thenEnd, elseStarts, current)
      decreases |tokens| - current, 1
    {
      thenEnd, elseStarts := 0, [];
      ghost var beforeThen := Scopes();
      var thenBlock;
      thenBlock, thenStarts := ParseBlock();
      if thenBlock.Err? {
        r := Err(thenBlock.error);
        return;
      }
      thenEnd := current;
      ghost var beforeElse := Scopes();
      var elseBlock;
      elseBlock, elseStarts := ParseElse();
      if elseBlock.Err? {
        r := Err(elseBlock.error);
        return;
      }
      ST.KeepsTransitive(beforeThen, beforeElse, Scopes());
      r := Ok(A.If(condition, thenBlock.value, elseBlock.value, FromTo(startSpan, Placeholder)));
    }

    /** The optional `else` block of `parse_if_statement`. */
    method ParseElse() returns (r: Result<Option<A.Block>>, ghost starts: seq<nat>)
      requires Valid()
      modifies this, symbolTable
      ensures Valid()
      ensures r.Ok? ==> old(current) <= current && ST.Keeps(old(Scopes()), Scopes())
      ensures r.Ok? && r.value.None? ==> CurrentToken() != T.Else && current == old(current)
      ensures r.Ok? && r.value.Some? ==> old(CurrentToken()) == T.Else && BlockAt(tokens, r.value.value.statements, starts, old(current) + 1, current)
      decreases |tokens| - current, 1
    {
      if !Check(T.Else) {
        return Ok(None), [];
      }
      var _ := Advance();
      ghost var open := current + 1;
      var block;
      block, starts := ParseBlock();
      if block.Err? {
        return Err(block.error), starts;
      }
      assert open == old(current) + 2;
      r := Ok(Some(block.value));
    }

    /** The head of `parse_if_statement`: `if`, then the condition in parentheses. */
    method ParseCondition() returns (r: Result<A.Expression>)
      requires Valid()
      modifies this
      ensures Valid()
      ensures r.Ok? ==> old(current) < current && old(CurrentToken()) == T.If && IfHead(tokens, old(current), r.value, current - 1)
    {
      var ifToken := Consume(T.If);
      if ifToken.Err? {
        return Err(ifToken.error);
      }
      var open := Consume(T.LeftParen);
      if open.Err? {
        return Err(open.error);
      }
      var condition := ParseExpression();
      if condition.Err? {
        return Err(condition.error);
      }
      var close := Consume(T.RightParen);
      if close.Err? {
        return Err(close.error);
      }
      r := condition;
    }

    /**
     * `parse_variable_declaration_after_type`: `v$N`, an optional initializer and `;`. The variable
     * is defined in the innermost scope, initialised exactly when it has an initializer; the
     * pending documentation goes to the symbol, so the statement's own is always empty.
     */
    method ParseVariableDeclarationAfterType(valueType: ST.ValueType) returns (r: Result<A.Statement>)
      requires Valid()
      modifies this, symbolTable
      ensures Valid()
      ensures NameOf({'v'}, old(CurrentToken())).None? ==> r == Err(Unexpected("variable name (v$N)", old(CurrentToken())))
      ensures r.Ok? ==> old(current) < current && ST.Keeps(old(Scopes()), Scopes())
      ensures r.Ok? ==> r.value.VariableDeclaration? && NameOf({'v'}, old(CurrentToken())) == Some(r.value.name)
      ensures r.Ok? ==> r.value.valueType == valueType && r.value.documentation == None
      ensures r.Ok? ==> (r.value.initializer.Some? <==> Current(tokens, old(current) + 1) == T.Assign)
      ensures r.Ok? && r.value.initializer.Some? ==>
        Expr(tokens, old(current) + 2, 0).Ok? && r.value.initializer.value == Expr(tokens, old(current) + 2, 0).value.0
      ensures r.Ok? ==> r.value.name !in old(symbolTable.Current())
      ensures r.Ok? ==> Declared(r.value.name, ST.Variable(valueType), r.value.initializer.Some?)
    {
      var name := ParseName({'v'}, "variable name (v$N)");
      if name.Err? {
        return Err(name.error);
      }
      r := DeclareVariable(name.value, valueType);
    }

    /** The rest of a variable declaration once its name is read: the optional initializer, `;`, and `define`. */
    method DeclareVariable(name: string, valueType: ST.ValueType) returns (r: Result<A.Statement>)
      requires Valid()
      modifies this, symbolTable
      ensures Valid()
      ensures r.Ok? ==> old(current) < current && ST.Keeps(old(Scopes()), Scopes())
      ensures r.Ok? ==> r.value.VariableDeclaration? && r.value.name == name
      ensures r.Ok? ==> r.value.valueType == valueType && r.value.documentation == None
      ensures r.Ok? ==> (r.value.initializer.Some? <==> old(CurrentToken()) == T.Assign)
      ensures r.Ok? && r.value.initializer.Some? ==>
        Expr(tokens, old(current) + 1, 0).Ok? && r.value.initializer.value == Expr(tokens, old(current) + 1, 0).value.0
      ensures r.Ok? ==> name !in old(symbolTable.Current())
      ensures r.Ok? ==> Declared(name, ST.Variable(valueType), r.value.initializer.Some?)
    {
      var startSpan := Placeholder;
      var initializer: Option<A.Expression> := None;
      if Check(T.Assign) {
        var value := ParseInitializer();
        if value.Err? {
          return Err(value.error);
        }
        initializer := Some(value.value);
      } else {
        var semi := Consume(T.Semicolon);
        if semi.Err? {
          return Err(semi.error);
        }
      }
      var span := FromTo(startSpan, Placeholder);
      var symbol := ST.NewSymbol(ST.Variable(valueType), span);
      if initializer.Some? {
        symbol := ST.MarkInitialized(symbol);
      }
      var docs := Declare(name, symbol);
      if docs.Err? {
        return Err(docs.error);
      }
      r := Ok(A.VariableDeclaration(name, valueType, initializer, span, docs.value));
    }

    /**
     * `parse_constant_declaration_after_type`: `c$N`, a mandatory initializer and `;`. The constant
     * is defined, initialised, in the innermost scope.
     */
    method ParseConstantDeclarationAfterType(valueType: ST.ValueType) returns (r: Result<A.Statement>)
      requires Valid()
      modifies this, symbolTable
      ensures Valid()
      ensures NameOf({'c'}, old(CurrentToken())).None? ==> r == Err(Unexpected("constant name (c$N)", old(CurrentToken())))
      ensures NameOf({'c'}, old(CurrentToken())).Some? && !ParserSpec.Check(tokens, old(current) + 1, T.Assign) ==>
        r == Err(Unexpected("=", Current(tokens, old(current) + 1)))
      ensures r.Ok? ==> old(current) < current && ST.Keeps(old(Scopes()), Scopes())
      ensures r.Ok? ==> r.value.ConstantDeclaration? && NameOf({'c'}, old(CurrentToken())) == Some(r.value.name)
      ensures r.Ok? ==> r.value.valueType == valueType && r.value.documentation == None
      ensures r.Ok? ==> Expr(tokens, old(current) + 2, 0).Ok? && r.value.value == Expr(tokens, old(current) + 2, 0).value.0
      ensures r.Ok? ==> r.value.name !in old(symbolTable.Current())
      ensures r.Ok? ==> Declared(r.value.name, ST.Constant(valueType), true)
    {
      ghost var scopes := Scopes();
      ghost var innermost := symbolTable.Current();
      var name := ParseName({'c'}, "constant name (c$N)");
      if name.Err? {
        return Err(name.error);
      }
      assert Scopes() == scopes && symbolTable.Current() == innermost;
      ghost var next := CurrentToken();
      assert next == Current(tokens, old(current) + 1);
      assert ParserSpec.Check(tokens, current, T.Assign) == ParserSpec.Check(tokens, old(current) + 1, T.Assign);
      assert current + 1 == old(current) + 2;
      r := DeclareConstant(name.value, valueType);
    }

    /** The rest of a constant declaration once its name is read: the initializer, `;`, and `define`. */
    method DeclareConstant(name: string, valueType: ST.ValueType) returns (r: Result<A.Statement>)
      requires Valid()
      modifies this, symbolTable
      ensures Valid()
      ensures !ParserSpec.Check(tokens, old(current), T.Assign) ==> r == Err(Unexpected("=", old(CurrentToken())))
      ensures r.Ok? ==> old(current) < current && ST.Keeps(old(Scopes()), Scopes())
      ensures r.Ok? ==> r.value.ConstantDeclaration? && r.value.name == name
      ensures r.Ok? ==> r.value.valueType == valueType && r.value.documentation == None
      ensures r.Ok? ==> Expr(tokens, old(current) + 1, 0).Ok? && r.value.value == Expr(tokens, old(current) + 1, 0).value.0
      ensures r.Ok? ==> name !in old(symbolTable.Current())
      ensures r.Ok? ==> Declared(name, ST.Constant(valueType), true)
    {
      var startSpan := Placeholder;
      var initializer := ParseInitializer();
      if initializer.Err? {
        return Err(initializer.error);
      }
      r := DefineConstant(name, valueType, initializer.value, FromTo(startSpan, Placeholder));
    }

    /** The end of `parse_constant_declaration_after_type`: the constant is defined, initialised. */
    method DefineConstant(name: string, valueType: ST.ValueType, value: A.Expression, span: Span)
      returns (r: Result<A.Statement>)
      requires Valid()
      modifies symbolTable
      ensures Valid() && ST.Keeps(old(Scopes()), Scopes())
      ensures name in old(symbolTable.Current()) <==> r.Err?
      ensures r.Ok? ==> r.value == A.ConstantDeclaration(name, valueType, value, span, None)
      ensures r.Ok? ==> Declared(name, ST.Constant(valueType), true)
    {
      var symbol := ST.MarkInitialized(ST.NewSymbol(ST.Constant(valueType), span));
      var docs := Declare(name, symbol);
      if docs.Err? {
        return Err(docs.error);
      }
      r := Ok(A.ConstantDeclaration(name, valueType, value, span, docs.value));
    }

    /** The `= expression ;` that ends a constant declaration, an assignment, and an initialised variable declaration. */
    method ParseInitializer() returns (r: Result<A.Expression>)
      requires Valid()
      modifies this
      ensures Valid()
      ensures !ParserSpec.Check(tokens, old(current), T.Assign) ==> r == Err(Unexpected("=", old(CurrentToken()))) && current == old(current)
      ensures r.Ok? ==> old(current) < current && old(CurrentToken()) == T.Assign && tokens[current - 1] == T.Semicolon
      ensures r.Ok? ==> old(current) + 1 <= |tokens| && Expr(tokens, old(current) + 1, 0).Ok?
      ensures r.Ok? ==> r.value == Expr(tokens, old(current) + 1, 0).value.0
    {
      var assign := Consume(T.Assign);
      if assign.Err? {
        return Err(assign.error);
      }
      var value := ParseExpression();
      if value.Err? {
        return Err(value.error);
      }
      var semi := Consume(T.Semicolon);
      if semi.Err? {
        return Err(semi.error);
      }
      r := value;
    }

    /**
     * The end of both declarations: `define` the symbol in the innermost scope, then take the
     * pending documentation for the statement, which `define` has already emptied.
     */
    method Declare(name: string, symbol: ST.Symbol) returns (r: Result<Option<string>>)
      requires Valid()
      modifies symbolTable
      ensures Valid() && ST.Keeps(old(Scopes()), Scopes())
      ensures name in old(symbolTable.Current()) <==> r.Err?
      ensures r.Ok? ==> r.value == None
      ensures r.Ok? ==> Declared(name, symbol.entityType, symbol.isInitialized)
    {
      var defined := symbolTable.Define(name, symbol);
      if defined.Err? {
        return Err(defined.error);
      }
      var docs := symbolTable.TakePendingDocs();
      r := Ok(docs);
    }

    /**
     * `parse_assignment`: the target must already be defined, as something other than a constant,
     * before `=` and the value are read.
     */
    method ParseAssignment() returns (r: Result<A.Statement>)
      requires Valid()
      modifies this
      ensures Valid()
      ensures NameOf({'v'}, old(CurrentToken())).None? ==> r == Err(Unexpected("variable name (v$N)", old(CurrentToken())))
      ensures NameOf({'v'}, old(CurrentToken())).Some? ==>
        var name := NameOf({'v'}, old(CurrentToken())).value;
        && (symbolTable.Lookup(name).None? ==> r == Err(UndefinedEntity(Placeholder, name)))
        && (symbolTable.Lookup(name).Some? && ST.IsConstant(symbolTable.Lookup(name).value) ==> r == Err(CannotAssignToConstant(Placeholder, name)))
      ensures r.Ok? ==> old(current) < current && r.value.Assignment? && NameOf({'v'}, old(CurrentToken())) == Some(r.value.target)
      ensures r.Ok? ==> symbolTable.Lookup(r.value.target).Some? && !ST.IsConstant(symbolTable.Lookup(r.value.target).value)
      ensures r.Ok? ==> Current(tokens, old(current) + 1) == T.Assign && Expr(tokens, old(current) + 2, 0).Ok?
      ensures r.Ok? ==> r.value.value == Expr(tokens, old(current) + 2, 0).value.0
    {
      var target := ParseName({'v'}, "variable name (v$N)");
      if target.Err? {
        return Err(target.error);
      }
      ghost var valueStart := current + 1;
      assert valueStart == old(current) + 2;
      r := AssignTo(target.value);
      if r.Ok? {
        ghost var value := Expr(tokens, valueStart, 0);
        assert value.Ok? && r.value.value == value.value.0;
      }
    }

    /** The rest of `parse_assignment` once the target's name is read: the checks on it, `=`, the value and `;`. */
    method AssignTo(target: string) returns (r: Result<A.Statement>)
      requires Valid()
      modifies this
      ensures Valid()
      ensures symbolTable.Lookup(target).None? ==> r == Err(UndefinedEntity(Placeholder, target))
      ensures symbolTable.Lookup(target).Some? && ST.IsConstant(symbolTable.Lookup(target).value) ==>
        r == Err(CannotAssignToConstant(Placeholder, target))
      ensures r.Ok? ==> old(current) < current && r.value.Assignment? && r.value.target == target
      ensures r.Ok? ==> symbolTable.Lookup(target).Some? && !ST.IsConstant(symbolTable.Lookup(target).value)
      ensures r.Ok? ==> old(CurrentToken()) == T.Assign && Expr(tokens, old(current) + 1, 0).Ok?
      ensures r.Ok? ==> r.value.value == Expr(tokens, old(current) + 1, 0).value.0
    {
      var startSpan := Placeholder;
      var symbol := symbolTable.Lookup(target);
      if symbol.None? {
        return Err(UndefinedEntity(Placeholder, target));
      }
      if ST.IsConstant(symbol.value) {
        return Err(CannotAssignToConstant(Placeholder, target));
      }
      var value := ParseInitializer();
      if value.Err? {
        return Err(value.error);
      }
      r := Ok(A.Assignment(target, value.value, FromTo(startSpan, Placeholder)));
    }

    /** `parse_return`: `ret;` carries no value, anything else before `;` is the value. */
    method ParseReturn() returns (r: Result<A.Statement>)
      requires Valid()
      modifies this
      ensures Valid()
      ensures r.Ok? ==> old(current) < current && old(CurrentToken()) == T.Ret && r.value.Return?
      ensures r.Ok? ==> (r.value.returnValue.None? <==> Current(tokens, old(current) + 1) == T.Semicolon)
      ensures r.Ok? && r.value.returnValue.Some? ==>
        Expr(tokens, old(current) + 1, 0).Ok? && r.value.returnValue.value == Expr(tokens, old(current) + 1, 0).value.0
      ensures r.Ok? ==> tokens[current - 1] == T.Semicolon
    {
      var startSpan := Placeholder;
      var retToken := Consume(T.Ret);
      if retToken.Err? {
        return Err(retToken.error);
      }
      var value: Option<A.Expression> := None;
      if !Check(T.Semicolon) {
        var e := ParseExpression();
        if e.Err? {
          return Err(e.error);
        }
        value := Some(e.value);
      }
      var semi := Consume(T.Semicolon);
      if semi.Err? {
        return Err(semi.error);
      }
      r := Ok(A.Return(value, FromTo(startSpan, Placeholder)));
    }

    /**
     * `parse_describe`: `describe(entity, "text");` appends the text to the documentation of the
     * entity when it is already defined, and is accepted unchanged when it is not.
     */
    method ParseDescribe() returns (r: Result<A.Statement>)
      requires Valid()
      modifies this, symbolTable
      ensures Valid()
      ensures r.Ok? ==> old(current) < current && ST.Keeps(old(Scopes()), Scopes())
      ensures r.Ok? <==> DescribeStatement(tokens, old(current)).Ok?
      ensures r.Err? ==> r.error == DescribeStatement(tokens, old(current)).error
      ensures r.Ok? ==> r.value.Describe? && DescribeStatement(tokens, old(current)).value == ((r.value.target, r.value.description), current)
      ensures r.Ok? && old(symbolTable.Lookup(r.value.target)).Some? ==>
        var described := old(symbolTable.Lookup(r.value.target)).value;
        symbolTable.Lookup(r.value.target) == Some(described.(documentation := Some(ST.AppendDoc(described.documentation, r.value.description))))
      ensures r.Ok? && old(symbolTable.Lookup(r.value.target)).None? ==> Scopes() == old(Scopes())
    {
      var startSpan := Placeholder;
      var target := ParseDescribeTarget();
      if target.Err? {
        return Err(target.error);
      }
      var description := ParseDescription();
      if description.Err? {
        return Err(description.error);
      }
      var _ := symbolTable.AddDocumentation(target.value, description.value);
      r := Ok(A.Describe(target.value, description.value, FromTo(startSpan, Placeholder)));
    }

    /** The head of `parse_describe`: `describe (` and the name of the entity described. */
    method ParseDescribeTarget() returns (r: Result<string>)
      requires Valid()
      modifies this
      ensures Valid()
      ensures Agrees(r, DescribeTarget(tokens, old(current)))
    {
      var describeToken := Consume(T.Describe);
      if describeToken.Err? {
        return Err(describeToken.error);
      }
      var open := Consume(T.LeftParen);
      if open.Err? {
        return Err(open.error);
      }
      r := ParseName({'v', 'c', 'f'}, "entity name (v$N, c$N, or f$N)");
    }

    /** The tail of `parse_describe`: `, "text" ) ;`. */
    method ParseDescription() returns (r: Result<string>)
      requires Valid()
      modifies this
      ensures Valid()
      ensures Agrees(r, Description(tokens, old(current)))
    {
      var comma := Consume(T.Comma);
      if comma.Err? {
        return Err(comma.error);
      }
      var description := ParseStringLiteral();
      if description.Err? {
        return Err(description.error);
      }
      var close := Consume(T.RightParen);
      if close.Err? {
        return Err(close.error);
      }
      var semi := Consume(T.Semicolon);
      if semi.Err? {
        return Err(semi.error);
      }
      r := Ok(description.value);
    }

    /** The `Token::String` arm of `parse_describe`. */
    method ParseStringLiteral() returns (r: Result<string>)
      requires Valid()
      modifies this
      ensures Valid()
      ensures Agrees(r, StringLiteral(tokens, old(current)))
    {
      if !CurrentToken().String? {
        return Err(Unexpected("string literal", CurrentToken()));
      }
      r := Ok(CurrentToken().text);
      var _ := Advance();
    }
  }
}
