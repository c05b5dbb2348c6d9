/**
 * The code generator: a first pass that hands out runtime slots, and a second pass that emits
 * instructions into a `Bytecode` and records spans and function starts in a `DebugInfo`. Every
 * method is proved to do what the functions of `CodegenSpec` describe.
 */
module CodeGenerators {
  import opened Common
  import opened Errors
  import opened Spans
  import opened DebugInfos
  import A = Ast
  import I = Instructions
  import ST = SymbolTables
  import S = CodegenSpec
  import L = CodegenLemmas

  /** Replacing the middle element of `a + [x] + b`. */
  lemma {:induction false} UpdateMiddle<T>(a: seq<T>, x: T, b: seq<T>, y: T)
    ensures (a + [x] + b)[|a| := y] == a + [y] + b
  {
  }

  /** The code of an `if` with `else` read as what came before followed by the statement's own code. */
  lemma {:induction false} Regroup<T>(before: seq<T>, c: seq<T>, x: T, t: seq<T>, y: T, e: seq<T>)
    ensures before + c + [x] + t + [y] + e == before + (c + [x] + t + [y] + e)
  {
  }

  /** The instruction at `index` with its jump target replaced, when it is a jump. */
  function Retargeted(code: seq<I.Instruction>, index: nat, target: nat): (r: seq<I.Instruction>)
    ensures |r| == |code|
    ensures index < |code| && code[index].JumpIfFalse? ==> r == code[index := I.JumpIfFalse(target)]
    ensures index < |code| && code[index].Jump? ==> r == code[index := I.Jump(target)]
    ensures !(index < |code| && (code[index].Jump? || code[index].JumpIfFalse?)) ==> r == code
  {
    if index < |code| && code[index].JumpIfFalse? then code[index := I.JumpIfFalse(target)]
    else if index < |code| && code[index].Jump? then code[index := I.Jump(target)]
    else code
  }

  class CodeGenerator {
    var bytecode: I.Bytecode
    var debugInfo: DebugInfo
    /** Runtime slot of every variable and constant name. */
    var variableSlots: map<string, nat>
    /** Declared and initialised empty; no pass reads or writes it. */
    var constantValues: map<string, I.Value>
    var nextVariableSlot: nat

    /** The slot state of the first pass. */
    function Slots(): S.Slots
      reads this
    {
      S.Slots(variableSlots, nextVariableSlot)
    }

    /** What has been generated so far: instructions, entry point and function starts. */
    function Layout(): S.Layout
      reads this, bytecode, debugInfo
    {
      S.Layout(bytecode.instructions, bytecode.entryPoint, debugInfo.functionStarts)
    }

    /** Every emitted instruction has a recorded span. */
    predicate SpansComplete()
      reads this, bytecode, debugInfo
    {
      forall i :: 0 <= i < |bytecode.instructions| ==> i in debugInfo.instructionSpans
    }

    /** Lowering emits only instructions and their spans: constants, entry point, documentation and function starts stay. */
    twostate predicate KeepsRest()
      reads this, bytecode, debugInfo
    {
      && bytecode.constants == old(bytecode.constants) && bytecode.entryPoint == old(bytecode.entryPoint)
      && debugInfo.entityDocs == old(debugInfo.entityDocs) && debugInfo.functionStarts == old(debugInfo.functionStarts)
    }

    /** The first pass changes only the slot state (and, for the symbol table, the documentation). */
    twostate predicate SameParts()
      reads this
    {
      bytecode == old(bytecode) && debugInfo == old(debugInfo) && constantValues == old(constantValues)
    }

    /** `r` is the outcome `spec` predicts, and on success exactly `spec`'s code was appended to `before`. */
    predicate Lowered(r: Result<()>, spec: Result<seq<I.Instruction>>, before: seq<I.Instruction>)
      reads this, bytecode
    {
      && (r.Ok? <==> spec.Ok?)
      && (r.Err? ==> r.error == spec.error)
      && (r.Ok? ==> bytecode.instructions == before + spec.value)
    }

    /** `CodeGenerator::new`. */
    constructor ()
      ensures fresh(bytecode) && fresh(debugInfo)
      ensures Layout() == S.EmptyLayout && bytecode.constants == []
      ensures debugInfo.instructionSpans == map[] && debugInfo.entityDocs == map[] && debugInfo.source == None
      ensures Slots() == S.NoSlots && constantValues == map[]
      ensures SpansComplete()
    {
      bytecode := new I.Bytecode();
      debugInfo := new DebugInfo();
      variableSlots := map[];
      constantValues := map[];
      nextVariableSlot := 0;
    }

    /** `emit_with_span`: appends the instruction and records its span under its index. */
    method EmitWithSpan(inst: I.Instruction, span: Span) returns (index: nat)
      requires SpansComplete()
      modifies bytecode, debugInfo
      ensures SpansComplete() && KeepsRest()
      ensures index == old(|bytecode.instructions|) && bytecode.instructions == old(bytecode.instructions) + [inst]
      ensures debugInfo.instructionSpans == old(debugInfo.instructionSpans)[index := span]
    {
      index := bytecode.Emit(inst);
      debugInfo.AddInstructionSpan(index, span);
    }

    /** The `get_mut` patch of a placeholder: retargets the jump at `index`. */
    method Patch(index: nat, target: nat)
      requires SpansComplete()
      modifies bytecode
      ensures SpansComplete() && KeepsRest()
      ensures bytecode.instructions == Retargeted(old(bytecode.instructions), index, target)
    {
      bytecode.instructions := Retargeted(bytecode.instructions, index, target);
    }

    // -------------------------------------------------------------------------------------------
    // First pass

    /** `collect_from_expression`. */
    method CollectFromExpression(e: A.Expression)
      modifies this
      ensures SameParts()
      ensures Slots() == S.CollectExpr(old(Slots()), e)
      decreases e, 1
    {
      match e
      case Variable(name, _) =>
        if name !in variableSlots {
          variableSlots := variableSlots[name := nextVariableSlot];
          nextVariableSlot := nextVariableSlot + 1;
        }
      case Binary(left, _, right, _) =>
        CollectFromExpression(left);
        CollectFromExpression(right);
      case Logical(left, _, right, _) =>
        CollectFromExpression(left);
        CollectFromExpression(right);
      case Unary(_, operand, _) =>
        CollectFromExpression(operand);
      case FunctionCall(_, args, _) =>
        var i := 0;
        while i < |args|
          invariant i <= |args|
          invariant SameParts()
          invariant Slots() == S.CollectArgs(old(Slots()), e, i)
        {
          CollectFromExpression(args[i]);
          i := i + 1;
        }
      case _ =>
    }

    /** The `if !contains_key { insert }` step shared by declarations, assignments and parameters. */
    method AssignSlot(name: string)
      modifies this
      ensures SameParts()
      ensures Slots() == S.Assign(old(Slots()), name)
    {
      if name !in variableSlots {
        variableSlots := variableSlots[name := nextVariableSlot];
        nextVariableSlot := nextVariableSlot + 1;
      }
    }

    /** `collect_from_statement`. */
    method CollectFromStatement(s: A.Statement)
      modifies this
      ensures SameParts()
      ensures Slots() == S.CollectStmt(old(Slots()), s)
      decreases s, 1
    {
      match s
      case VariableDeclaration(name, _, init, _, _) =>
        AssignSlot(name);
        if init.Some? {
          CollectFromExpression(init.value);
        }
      case ConstantDeclaration(name, _, value, _, _) =>
        AssignSlot(name);
        CollectFromExpression(value);
      case Assignment(target, value, _) =>
        AssignSlot(target);
        CollectFromExpression(value);
      case Return(value, _) =>
        if value.Some? {
          CollectFromExpression(value.value);
        }
      case ExpressionStatement(e) =>
        CollectFromExpression(e);
      case Describe(_, _, _) =>
      case If(c, t, els, _) =>
        CollectFromExpression(c);
        CollectFromBlock(t);
        if els.Some? {
          CollectFromBlock(els.value);
        }
    }

    /** `collect_from_block`. */
    method CollectFromBlock(b: A.Block)
      modifies this
      ensures SameParts()
      ensures Slots() == S.CollectBlock(old(Slots()), b, |b.statements|)
      decreases b, 0
    {
      var i := 0;
      while i < |b.statements|
        invariant i <= |b.statements|
        invariant SameParts()
        invariant Slots() == S.CollectBlock(old(Slots()), b, i)
      {
        CollectFromStatement(b.statements[i]);
        i := i + 1;
      }
    }

    /** `collect_from_ast`: each function's body, then its parameters; each main block's body. */
    method CollectFromAst(program: A.Program)
      modifies this
      ensures SameParts()
      ensures Slots() == S.CollectItems(old(Slots()), program.items, |program.items|)
    {
      var i := 0;
      while i < |program.items|
        invariant i <= |program.items|
        invariant SameParts()
        invariant Slots() == S.CollectItems(old(Slots()), program.items, i)
      {
        match program.items[i] {
          case FunctionItem(f) =>
            CollectFromBlock(f.body);
            var j := 0;
            while j < |f.params|
              invariant j <= |f.params|
              invariant SameParts()
              invariant Slots() == S.CollectParams(S.CollectBlock(S.CollectItems(old(Slots()), program.items, i), f.body, |f.body.statements|), f.params, j)
            {
              AssignSlot(f.params[j].name);
              j := j + 1;
            }
          case MainItem(m) =>
            CollectFromBlock(m.body);
        }
        i := i + 1;
      }
    }

    /**
     * `collect_entities`: every `v$…` variable and `c$…` constant of the symbol table gets a new
     * slot (even one that already has a slot), documented entries have their text copied into the
     * debug information, and then the syntax tree is walked.
     */
    method CollectEntities(program: A.Program, entries: seq<(string, ST.Symbol)>)
      requires SpansComplete()
      modifies this, debugInfo
      ensures SameParts() && SpansComplete()
      ensures Slots() == S.CollectEntities(old(Slots()), program, entries)
      ensures debugInfo.entityDocs == S.EntityDocs(old(debugInfo.entityDocs), entries, |entries|)
      ensures debugInfo.instructionSpans == old(debugInfo.instructionSpans)
      ensures debugInfo.functionStarts == old(debugInfo.functionStarts) && debugInfo.source == old(debugInfo.source)
    {
      var i := 0;
      while i < |entries|
        invariant i <= |entries|
        invariant SameParts()
        invariant Slots() == S.CollectSymbols(old(Slots()), entries, i)
        invariant debugInfo.entityDocs == S.EntityDocs(old(debugInfo.entityDocs), entries, i)
        invariant debugInfo.instructionSpans == old(debugInfo.instructionSpans)
        invariant debugInfo.functionStarts == old(debugInfo.functionStarts) && debugInfo.source == old(debugInfo.source)
      {
        var (name, symbol) := entries[i];
        if S.NeedsSlot(name, symbol) {
          variableSlots := variableSlots[name := nextVariableSlot];
          nextVariableSlot := nextVariableSlot + 1;
        }
        if symbol.documentation.Some? {
          debugInfo.AddEntityDoc(name, symbol.documentation.value);
        }
        i := i + 1;
      }
      CollectFromAst(program);
    }

    // -------------------------------------------------------------------------------------------
    // Second pass

    /** `generate_expression`: operands first, operator last. */
    method GenerateExpression(e: A.Expression) returns (r: Result<()>)
      requires SpansComplete()
      modifies bytecode, debugInfo
      ensures SpansComplete() && KeepsRest()
      ensures Lowered(r, S.CompileExpr(variableSlots, e), old(bytecode.instructions))
      decreases e, 1
    {
      match e
      case Integer(n, span) =>
        var _ := EmitWithSpan(I.Push(I.Int(n)), span);
        r := Ok(());
      case String(text, span) =>
        var _ := EmitWithSpan(I.Push(I.Str(text)), span);
        r := Ok(());
      case Boolean(b, span) =>
        var _ := EmitWithSpan(I.Push(I.Bool(b)), span);
        r := Ok(());
      case Variable(name, span) =>
        if name in variableSlots {
          var _ := EmitWithSpan(I.LoadVar(variableSlots[name]), span);
          r := Ok(());
        } else {
          r := Err(S.MissingSlot("Variable", name));
        }
      case Binary(left, op, right, span) =>
        r := GenerateExpression(left);
        if r.Err? {
          return;
        }
        r := GenerateExpression(right);
        if r.Err? {
          return;
        }
        var _ := EmitWithSpan(S.BinaryInstruction(op), span);
      case Logical(left, op, right, span) =>
        r := GenerateExpression(left);
        if r.Err? {
          return;
        }
        r := GenerateExpression(right);
        if r.Err? {
          return;
        }
        var _ := EmitWithSpan(S.LogicalInstruction(op), span);
      case Unary(_, operand, span) =>
        r := GenerateExpression(operand);
        if r.Err? {
          return;
        }
        var _ := EmitWithSpan(I.Not, span);
      case FunctionCall(name, args, span) =>
        r := GenerateArguments(e);
        if r.Err? {
          return;
        }
        if name == "print" {
          if |args| != 1 {
            r := Err(WrongArgumentCount(span, name, 1, |args|));
            return;
          }
          var _ := EmitWithSpan(I.Print, span);
        } else {
          var _ := EmitWithSpan(I.Call(name, |args|), span);
        }
    }

    /** The argument loop of a call: every argument, in order. */
    method GenerateArguments(call: A.Expression) returns (r: Result<()>)
      requires call.FunctionCall? && SpansComplete()
      modifies bytecode, debugInfo
      ensures SpansComplete() && KeepsRest()
      ensures Lowered(r, S.CompileArgs(variableSlots, call, |call.arguments|), old(bytecode.instructions))
      decreases call, 0
    {
      var i := 0;
      while i < |call.arguments|
        invariant i <= |call.arguments|
        invariant SpansComplete() && KeepsRest()
        invariant S.CompileArgs(variableSlots, call, i).Ok?
        invariant bytecode.instructions == old(bytecode.instructions) + S.CompileArgs(variableSlots, call, i).value
      {
        r := GenerateExpression(call.arguments[i]);
        if r.Err? {
          L.ArgsErrorPersists(variableSlots, call, i + 1, |call.arguments|);
          return;
        }
        i := i + 1;
      }
      r := Ok(());
    }

    /** The declaration and assignment arms of `generate_statement`: the value, then `STOREVAR` into the name's slot. */
    method GenerateStore(s: A.Statement) returns (r: Result<()>)
      requires s.VariableDeclaration? ==> s.initializer.Some?
      requires s.VariableDeclaration? || s.ConstantDeclaration? || s.Assignment?
      requires SpansComplete()
      modifies bytecode, debugInfo
      ensures SpansComplete() && KeepsRest()
      ensures Lowered(r, S.CompileStmt(variableSlots, s, old(|bytecode.instructions|)), old(bytecode.instructions))
      decreases s, 0
    {
      var kind := if s.ConstantDeclaration? then "Constant" else "Variable";
      var name := if s.Assignment? then s.target else s.name;
      var value := if s.VariableDeclaration? then s.initializer.value else s.value;
      r := GenerateExpression(value);
      if r.Err? {
        return;
      }
      if name in variableSlots {
        var _ := EmitWithSpan(I.StoreVar(variableSlots[name]), s.span);
      } else {
        r := Err(S.MissingSlot(kind, name));
      }
    }

    /** The `If` arm of `generate_statement`: placeholder jumps patched once their targets are known. */
    method GenerateIf(s: A.Statement) returns (r: Result<()>)
      requires s.If? && SpansComplete()
      modifies bytecode, debugInfo
      ensures SpansComplete() && KeepsRest()
      ensures Lowered(r, S.CompileIf(variableSlots, s, old(|bytecode.instructions|)), old(bytecode.instructions))
      decreases s, 0, 2
    {
      ghost var before := bytecode.instructions;
      r := GenerateExpression(s.condition);
      if r.Err? {
        L.IfConditionFails(variableSlots, s, |before|);
        return;
      }
      ghost var cc := S.CompileExpr(variableSlots, s.condition).value;
      var elseJump := EmitWithSpan(I.JumpIfFalse(0), s.span);
      r := GenerateBlock(s.thenBlock);
      if r.Err? {
        L.IfThenFails(variableSlots, s, |before|, cc);
        return;
      }
      ghost var thenStart := |before| + |cc| + 1;
      ghost var tc := S.CompileBlock(variableSlots, s.thenBlock, |s.thenBlock.statements|, thenStart).value;
      assert bytecode.instructions == before + cc + [I.JumpIfFalse(0)] + tc;
      if s.elseBlock.Some? {
        r := GenerateElse(s, elseJump, before, cc, tc);
      } else {
        var endTarget := |bytecode.instructions|;
        Patch(elseJump, endTarget);
        UpdateMiddle(before + cc, I.JumpIfFalse(0), tc, I.JumpIfFalse(endTarget));
        L.IfLowersWithoutElse(variableSlots, s, |before|, cc, tc);
        assert bytecode.instructions == before + (cc + [I.JumpIfFalse(endTarget)] + tc);
      }
    }

    /**
     * The `else` half of the `If` arm: the jump over the else branch, the patch of the condition's
     * jump to the else branch, the branch itself and the patch of the jump over it.
     */
    method GenerateElse(s: A.Statement, elseJump: nat, ghost before: seq<I.Instruction>, ghost cc: seq<I.Instruction>, ghost tc: seq<I.Instruction>)
        returns (r: Result<()>)
      requires s.If? && s.elseBlock.Some? && SpansComplete()
      requires S.CompileExpr(variableSlots, s.condition) == Ok(cc)
      requires S.CompileBlock(variableSlots, s.thenBlock, |s.thenBlock.statements|, |before| + |cc| + 1) == Ok(tc)
      requires elseJump == |before| + |cc|
      requires bytecode.instructions == before + cc + [I.JumpIfFalse(0)] + tc
      modifies bytecode, debugInfo
      ensures SpansComplete() && KeepsRest()
      ensures Lowered(r, S.CompileIf(variableSlots, s, |before|), before)
      decreases s, 0, 1
    {
      var endJump := EmitWithSpan(I.Jump(0), s.span);
      var elseTarget := |bytecode.instructions|;
      Patch(elseJump, elseTarget);
      UpdateMiddle(before + cc, I.JumpIfFalse(0), tc + [I.Jump(0)], I.JumpIfFalse(elseTarget));
      assert bytecode.instructions == before + cc + [I.JumpIfFalse(elseTarget)] + tc + [I.Jump(0)];
      r := GenerateElseBlock(s, endJump, before, cc, tc);
    }

    /**
     * The else branch of `generate_if_statement`, once the jump over it is emitted: the branch,
     * then the patch of that jump to the end.
     */
    method GenerateElseBlock(s: A.Statement, endJump: nat, ghost before: seq<I.Instruction>, ghost cc: seq<I.Instruction>,
                             ghost tc: seq<I.Instruction>)
        returns (r: Result<()>)
      requires s.If? && s.elseBlock.Some? && SpansComplete()
      requires S.CompileExpr(variableSlots, s.condition) == Ok(cc)
      requires S.CompileBlock(variableSlots, s.thenBlock, |s.thenBlock.statements|, |before| + |cc| + 1) == Ok(tc)
      requires endJump == |before| + |cc| + 1 + |tc|
      requires bytecode.instructions == before + cc + [I.JumpIfFalse(endJump + 1)] + tc + [I.Jump(0)]
      modifies bytecode, debugInfo
      ensures SpansComplete() && KeepsRest()
      ensures Lowered(r, S.CompileIf(variableSlots, s, |before|), before)
      decreases s, 0, 0
    {
      var elseTarget := endJump + 1;
      r := GenerateBlock(s.elseBlock.value);
      if r.Err? {
        L.IfElseFails(variableSlots, s, |before|, cc, tc, elseTarget);
        return;
      }
      ghost var ec := S.CompileBlock(variableSlots, s.elseBlock.value, |s.elseBlock.value.statements|, elseTarget).value;
      ghost var head := before + cc + [I.JumpIfFalse(elseTarget)] + tc;
      assert bytecode.instructions == head + [I.Jump(0)] + ec;
      var endTarget := |bytecode.instructions|;
      assert endTarget == elseTarget + |ec|;
      assert endJump == |head| && bytecode.instructions[endJump] == I.Jump(0);
      Patch(endJump, endTarget);
      UpdateMiddle(head, I.Jump(0), ec, I.Jump(endTarget));
      assert bytecode.instructions == head + [I.Jump(endTarget)] + ec;
      L.IfLowersWithElse(variableSlots, s, |before|, cc, tc, ec, elseTarget, endTarget);
      Regroup(before, cc, I.JumpIfFalse(elseTarget), tc, I.Jump(endTarget), ec);
    }

    /** `generate_statement`. */
    method GenerateStatement(s: A.Statement) returns (r: Result<()>)
      requires SpansComplete()
      modifies bytecode, debugInfo
      ensures SpansComplete() && KeepsRest()
      ensures Lowered(r, S.CompileStmt(variableSlots, s, old(|bytecode.instructions|)), old(bytecode.instructions))
      decreases s, 1
    {
      match s
      case If(_, _, _, _) =>
        r := GenerateIf(s);
      case VariableDeclaration(_, _, init, _, _) =>
        if init.Some? {
          r := GenerateStore(s);
        } else {
          r := Ok(());
        }
      case ConstantDeclaration(_, _, _, _, _) =>
        r := GenerateStore(s);
      case Assignment(_, _, _) =>
        r := GenerateStore(s);
      case Return(value, span) =>
        if value.Some? {
          r := GenerateExpression(value.value);
          if r.Err? {
            return;
          }
          var _ := EmitWithSpan(I.ReturnValue, span);
        } else {
          var _ := EmitWithSpan(I.Return, span);
          r := Ok(());
        }
      case Describe(target, description, span) =>
        var _ := EmitWithSpan(I.Describe(target, description), span);
        r := Ok(());
      case ExpressionStatement(e) =>
        r := GenerateExpression(e);
        if r.Err? {
          return;
        }
        // `print` consumes its argument and leaves nothing to pop.
        if !(e.FunctionCall? && e.name == "print") {
          var _ := EmitWithSpan(I.Pop, e.span);
        }
    }

    /** `generate_block`: the statements in order, stopping at the first error. */
    method GenerateBlock(b: A.Block) returns (r: Result<()>)
      requires SpansComplete()
      modifies bytecode, debugInfo
      ensures SpansComplete() && KeepsRest()
      ensures Lowered(r, S.CompileBlock(variableSlots, b, |b.statements|, old(|bytecode.instructions|)), old(bytecode.instructions))
      decreases b, 0
    {
      ghost var base := |bytecode.instructions|;
      var i := 0;
      while i < |b.statements|
        invariant i <= |b.statements|
        invariant SpansComplete() && KeepsRest()
        invariant S.CompileBlock(variableSlots, b, i, base).Ok?
        invariant bytecode.instructions == old(bytecode.instructions) + S.CompileBlock(variableSlots, b, i, base).value
      {
        r := GenerateStatement(b.statements[i]);
        if r.Err? {
          L.BlockErrorPersists(variableSlots, b, i + 1, |b.statements|, base);
          return;
        }
        i := i + 1;
      }
      r := Ok(());
    }

    /**
     * `generate_function`: records the start, lowers the body and adds an implicit `RETURN`.
     * The implicit `RETURN` follows the corrected rule of `CodegenSpec.CompileFunction`.
     */
    method GenerateFunction(f: A.Function) returns (r: Result<()>)
      requires SpansComplete()
      modifies bytecode, debugInfo
      ensures SpansComplete()
      ensures Lowered(r, S.CompileFunction(variableSlots, f, old(|bytecode.instructions|)), old(bytecode.instructions))
      ensures debugInfo.functionStarts == old(debugInfo.functionStarts)[f.name := old(|bytecode.instructions|)]
      ensures bytecode.constants == old(bytecode.constants) && bytecode.entryPoint == old(bytecode.entryPoint)
      ensures debugInfo.entityDocs == old(debugInfo.entityDocs)
    {
      var start := bytecode.Len();
      debugInfo.MarkFunctionStart(f.name, start);
      r := GenerateBlock(f.body);
      if r.Err? {
        return;
      }
      if !S.EndsWithReturn(f.body) {
        var _ := EmitWithSpan(I.Return, f.span);
      }
    }

    /** The main-block arm of `generate`: sets the entry point, records the start, lowers the body and ends with `HALT`. */
    method GenerateMain(m: A.MainBlock) returns (r: Result<()>)
      requires SpansComplete()
      modifies bytecode, debugInfo
      ensures SpansComplete()
      ensures Lowered(r, S.CompileMain(variableSlots, m, old(|bytecode.instructions|)), old(bytecode.instructions))
      ensures debugInfo.functionStarts == old(debugInfo.functionStarts)["main" := old(|bytecode.instructions|)]
      ensures bytecode.entryPoint == old(|bytecode.instructions|)
      ensures bytecode.constants == old(bytecode.constants) && debugInfo.entityDocs == old(debugInfo.entityDocs)
    {
      var start := bytecode.Len();
      bytecode.SetEntryPoint(start);
      debugInfo.MarkFunctionStart("main", start);
      r := GenerateBlock(m.body);
      if r.Err? {
        return;
      }
      var _ := EmitWithSpan(I.Halt, m.span);
    }

    /** The second pass of `generate`: every item in order, stopping at the first error. */
    method GenerateItems(items: seq<A.Item>) returns (r: Result<()>)
      requires SpansComplete()
      modifies bytecode, debugInfo
      ensures SpansComplete() && debugInfo.entityDocs == old(debugInfo.entityDocs)
      ensures r.Ok? <==> S.LayoutItems(variableSlots, items, |items|, old(Layout())).Ok?
      ensures r.Err? ==> r.error == S.LayoutItems(variableSlots, items, |items|, old(Layout())).error
      ensures r.Ok? ==> Layout() == S.LayoutItems(variableSlots, items, |items|, old(Layout())).value
    {
      ghost var start := Layout();
      var i := 0;
      while i < |items|
        invariant i <= |items|
        invariant SpansComplete()
        invariant S.LayoutItems(variableSlots, items, i, start).Ok?
        invariant Layout() == S.LayoutItems(variableSlots, items, i, start).value
        invariant debugInfo.entityDocs == old(debugInfo.entityDocs)
      {
        var step: Result<()>;
        match items[i] {
          case FunctionItem(f) =>
            step := GenerateFunction(f);
          case MainItem(m) =>
            step := GenerateMain(m);
        }
        if step.Err? {
          r := Err(step.error);
          L.LayoutErrorPersists(variableSlots, items, i + 1, |items|, start);
          return;
        }
        i := i + 1;
      }
      r := Ok(());
    }

    /**
     * `generate`: collects the slots from the symbol table's entries (`entries`, in the order the
     * table lists them) and the syntax tree, lowers every item, and returns copies of the results.
     */
    method Generate(program: A.Program, table: ST.SymbolTable) returns (r: Result<(I.Bytecode, DebugInfo)>, ghost entries: seq<(string, ST.Symbol)>)
      requires SpansComplete()
      modifies this, bytecode, debugInfo
      ensures SameParts() && SpansComplete()
      ensures |entries| == ST.TotalSize(table.scopes)
      ensures forall k :: 0 <= k < |entries| ==> ST.InSomeScope(table.scopes, entries[k])
      ensures Slots() == S.CollectEntities(old(Slots()), program, entries)
      ensures debugInfo.entityDocs == S.EntityDocs(old(debugInfo.entityDocs), entries, |entries|)
      ensures r.Ok? <==> S.Generate(old(Slots()), old(Layout()), program, entries).Ok?
      ensures r.Err? ==> r.error == S.Generate(old(Slots()), old(Layout()), program, entries).error
      ensures r.Ok? ==> Layout() == S.Generate(old(Slots()), old(Layout()), program, entries).value
      ensures r.Ok? ==> fresh(r.value.0) && fresh(r.value.1)
      ensures r.Ok? ==> r.value.0.instructions == bytecode.instructions && r.value.0.entryPoint == bytecode.entryPoint
      ensures r.Ok? ==> r.value.1.functionStarts == debugInfo.functionStarts && r.value.1.entityDocs == debugInfo.entityDocs
    {
      ghost var start := Layout();
      var symbols := table.AllSymbols();
      entries := symbols;
      CollectEntities(program, symbols);
      assert Layout() == start;
      var generated := GenerateItems(program.items);
      if generated.Err? {
        return Err(generated.error), entries;
      }
      var code := bytecode.Clone();
      var debug := debugInfo.Clone();
      r := Ok((code, debug));
    }
  }
}
