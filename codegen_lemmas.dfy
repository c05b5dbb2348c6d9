/** Properties of the lowering: jump targets, coverage of the slot assignment, and the shape of the code. */
module CodegenLemmas {
  import opened Common
  import opened Errors
  import opened Spans
  import opened CodegenSpec
  import A = Ast
  import I = Instructions
  import ST = SymbolTables

  /** Every `JUMP`/`JUMP_IF_FALSE` in `code` targets an index in `[lo, hi]`. */
  predicate TargetsWithin(code: seq<I.Instruction>, lo: nat, hi: nat) {
    forall i :: 0 <= i < |code| && (code[i].Jump? || code[i].JumpIfFalse?) ==> lo <= code[i].target <= hi
  }

  /** Code that neither jumps, returns, halts nor stores: what an expression lowers to. */
  predicate StraightLine(code: seq<I.Instruction>) {
    forall i :: 0 <= i < |code| ==>
      !(code[i].Jump? || code[i].JumpIfFalse? || code[i].Return? || code[i].ReturnValue? || code[i].Halt? || code[i].StoreVar?)
  }

  lemma {:induction false} TargetsConcat(a: seq<I.Instruction>, b: seq<I.Instruction>, lo: nat, hi: nat)
    requires TargetsWithin(a, lo, hi) && TargetsWithin(b, lo, hi)
    ensures TargetsWithin(a + b, lo, hi)
  {
    forall i | 0 <= i < |a + b| && ((a + b)[i].Jump? || (a + b)[i].JumpIfFalse?)
      ensures lo <= (a + b)[i].target <= hi
    {
      if i >= |a| {
        assert (a + b)[i] == b[i - |a|];
      }
    }
  }

  lemma {:induction false} StraightLineConcat(a: seq<I.Instruction>, b: seq<I.Instruction>)
    requires StraightLine(a) && StraightLine(b)
    ensures StraightLine(a + b)
  {
    forall i | 0 <= i < |a + b|
      ensures !((a + b)[i].Jump? || (a + b)[i].JumpIfFalse? || (a + b)[i].Return? || (a + b)[i].ReturnValue?
                || (a + b)[i].Halt? || (a + b)[i].StoreVar?)
    {
      if i >= |a| {
        assert (a + b)[i] == b[i - |a|];
      }
    }
  }

  /** An expression lowers to non-empty straight-line code. */
  lemma {:induction false} ExprCodeShape(slots: map<string, nat>, e: A.Expression)
    ensures CompileExpr(slots, e).Ok? ==> |CompileExpr(slots, e).value| > 0 && StraightLine(CompileExpr(slots, e).value)
    decreases e, 1
  {
    match e
    case Binary(l, op, r, _) =>
      ExprCodeShape(slots, l);
      ExprCodeShape(slots, r);
      if CompileExpr(slots, e).Ok? {
        StraightLineConcat(CompileExpr(slots, l).value, CompileExpr(slots, r).value);
        StraightLineConcat(CompileExpr(slots, l).value + CompileExpr(slots, r).value, [BinaryInstruction(op)]);
      }
    case Logical(l, op, r, _) =>
      ExprCodeShape(slots, l);
      ExprCodeShape(slots, r);
      if CompileExpr(slots, e).Ok? {
        StraightLineConcat(CompileExpr(slots, l).value, CompileExpr(slots, r).value);
        StraightLineConcat(CompileExpr(slots, l).value + CompileExpr(slots, r).value, [LogicalInstruction(op)]);
      }
    case Unary(_, operand, _) =>
      ExprCodeShape(slots, operand);
      if CompileExpr(slots, e).Ok? {
        StraightLineConcat(CompileExpr(slots, operand).value, [I.Not]);
      }
    case FunctionCall(name, args, _) =>
      ArgsCodeShape(slots, e, |args|);
      if CompileExpr(slots, e).Ok? {
        var last := if name == "print" then I.Print else I.Call(name, |args|);
        StraightLineConcat(CompileArgs(slots, e, |args|).value, [last]);
      }
    case _ =>
  }

  lemma {:induction false} ArgsCodeShape(slots: map<string, nat>, call: A.Expression, n: nat)
    requires call.FunctionCall? && n <= |call.arguments|
    ensures CompileArgs(slots, call, n).Ok? ==> StraightLine(CompileArgs(slots, call, n).value)
    decreases call, 0, n
  {
    if n > 0 {
      ArgsCodeShape(slots, call, n - 1);
      ExprCodeShape(slots, call.arguments[n - 1]);
      if CompileArgs(slots, call, n).Ok? {
        StraightLineConcat(CompileArgs(slots, call, n - 1).value, CompileExpr(slots, call.arguments[n - 1]).value);
      }
    }
  }

  lemma {:induction false} TargetsWiden(code: seq<I.Instruction>, lo: nat, hi: nat, lo2: nat, hi2: nat)
    requires TargetsWithin(code, lo, hi) && lo2 <= lo && hi <= hi2
    ensures TargetsWithin(code, lo2, hi2)
  {
  }

  lemma {:induction false} StraightLineHasNoTargets(code: seq<I.Instruction>, lo: nat, hi: nat)
    requires StraightLine(code)
    ensures TargetsWithin(code, lo, hi)
  {
  }

  /** An expression whose names all have slots lowers without a slot error (a `print` arity error remains possible). */
  lemma {:induction false} ExprCompilesWhenCovered(slots: map<string, nat>, e: A.Expression)
    requires ExprNames(e) <= slots.Keys
    ensures CompileExpr(slots, e).Ok? || CompileExpr(slots, e).error.WrongArgumentCount?
    decreases e, 1
  {
    match e
    case Binary(l, _, r, _) =>
      ExprCompilesWhenCovered(slots, l);
      ExprCompilesWhenCovered(slots, r);
    case Logical(l, _, r, _) =>
      ExprCompilesWhenCovered(slots, l);
      ExprCompilesWhenCovered(slots, r);
    case Unary(_, operand, _) =>
      ExprCompilesWhenCovered(slots, operand);
    case FunctionCall(_, args, _) =>
      ArgsCompileWhenCovered(slots, e, |args|);
    case _ =>
  }

  lemma {:induction false} ArgsCompileWhenCovered(slots: map<string, nat>, call: A.Expression, n: nat)
    requires call.FunctionCall? && n <= |call.arguments|
    requires ArgNames(call, n) <= slots.Keys
    ensures CompileArgs(slots, call, n).Ok? || CompileArgs(slots, call, n).error.WrongArgumentCount?
    decreases call, 0, n
  {
    if n > 0 {
      ArgsCompileWhenCovered(slots, call, n - 1);
      ExprCompilesWhenCovered(slots, call.arguments[n - 1]);
    }
  }

  /** Conversely, an expression reading a name without a slot does not lower. */
  lemma {:induction false} ExprFailsWhenUncovered(slots: map<string, nat>, e: A.Expression)
    requires !(ExprNames(e) <= slots.Keys)
    ensures CompileExpr(slots, e).Err?
    decreases e, 1
  {
    match e
    case Binary(l, _, r, _) =>
      if !(ExprNames(l) <= slots.Keys) { ExprFailsWhenUncovered(slots, l); } else { ExprFailsWhenUncovered(slots, r); }
    case Logical(l, _, r, _) =>
      if !(ExprNames(l) <= slots.Keys) { ExprFailsWhenUncovered(slots, l); } else { ExprFailsWhenUncovered(slots, r); }
    case Unary(_, operand, _) =>
      ExprFailsWhenUncovered(slots, operand);
    case FunctionCall(_, args, _) =>
      ArgsFailWhenUncovered(slots, e, |args|);
    case Variable(_, _) =>
  }

  lemma {:induction false} ArgsFailWhenUncovered(slots: map<string, nat>, call: A.Expression, n: nat)
    requires call.FunctionCall? && n <= |call.arguments|
    requires !(ArgNames(call, n) <= slots.Keys)
    ensures CompileArgs(slots, call, n).Err?
    decreases call, 0, n
  {
    if !(ArgNames(call, n - 1) <= slots.Keys) {
      ArgsFailWhenUncovered(slots, call, n - 1);
    } else {
      ExprFailsWhenUncovered(slots, call.arguments[n - 1]);
    }
  }

  /** A statement whose names all have slots lowers without a slot error. */
  lemma {:induction false} StmtCompilesWhenCovered(slots: map<string, nat>, s: A.Statement, base: nat)
    requires StmtNames(s) <= slots.Keys
    ensures CompileStmt(slots, s, base).Ok? || CompileStmt(slots, s, base).error.WrongArgumentCount?
    decreases s, 1
  {
    match s
    case If(c, t, els, _) =>
      ExprCompilesWhenCovered(slots, c);
      if CompileExpr(slots, c).Ok? {
        var thenStart := base + |CompileExpr(slots, c).value| + 1;
        BlockCompilesWhenCovered(slots, t, |t.statements|, thenStart);
        if els.Some? && CompileBlock(slots, t, |t.statements|, thenStart).Ok? {
          var elseStart := thenStart + |CompileBlock(slots, t, |t.statements|, thenStart).value| + 1;
          BlockCompilesWhenCovered(slots, els.value, |els.value.statements|, elseStart);
        }
      }
    case VariableDeclaration(_, _, init, _, _) =>
      if init.Some? { ExprCompilesWhenCovered(slots, init.value); }
    case ConstantDeclaration(_, _, value, _, _) => ExprCompilesWhenCovered(slots, value);
    case Assignment(_, value, _) => ExprCompilesWhenCovered(slots, value);
    case Return(value, _) =>
      if value.Some? { ExprCompilesWhenCovered(slots, value.value); }
    case Describe(_, _, _) =>
    case ExpressionStatement(e) => ExprCompilesWhenCovered(slots, e);
  }

  lemma {:induction false} BlockCompilesWhenCovered(slots: map<string, nat>, b: A.Block, n: nat, base: nat)
    requires n <= |b.statements|
    requires BlockNames(b, n) <= slots.Keys
    ensures CompileBlock(slots, b, n, base).Ok? || CompileBlock(slots, b, n, base).error.WrongArgumentCount?
    decreases b, 0, n
  {
    if n > 0 {
      BlockCompilesWhenCovered(slots, b, n - 1, base);
      if CompileBlock(slots, b, n - 1, base).Ok? {
        StmtCompilesWhenCovered(slots, b.statements[n - 1], base + |CompileBlock(slots, b, n - 1, base).value|);
      }
    }
  }

  /** Every jump a statement lowers to stays within the statement's own code or lands just after it. */
  lemma {:induction false} StmtTargetsWithin(slots: map<string, nat>, s: A.Statement, base: nat)
    ensures CompileStmt(slots, s, base).Ok? ==>
      TargetsWithin(CompileStmt(slots, s, base).value, base, base + |CompileStmt(slots, s, base).value|)
    decreases s, 1
  {
    match s
    case If(_, _, _, _) => IfTargetsWithin(slots, s, base);
    case VariableDeclaration(_, _, init, _, _) =>
      if init.Some? { ExprCodeShape(slots, init.value); }
    case ConstantDeclaration(_, _, value, _, _) => ExprCodeShape(slots, value);
    case Assignment(_, value, _) => ExprCodeShape(slots, value);
    case Return(value, _) =>
      if value.Some? { ExprCodeShape(slots, value.value); }
    case Describe(_, _, _) =>
    case ExpressionStatement(e) => ExprCodeShape(slots, e);
  }

  /** The `if` case of `StmtTargetsWithin`: both patched jumps land inside the statement or just after it. */
  lemma {:induction false} IfTargetsWithin(slots: map<string, nat>, s: A.Statement, base: nat)
    requires s.If?
    ensures CompileIf(slots, s, base).Ok? ==>
      TargetsWithin(CompileIf(slots, s, base).value, base, base + |CompileIf(slots, s, base).value|)
    decreases s, 0
  {
    var (c, t, els) := (s.condition, s.thenBlock, s.elseBlock);
    if CompileIf(slots, s, base).Ok? {
      var code := CompileIf(slots, s, base).value;
      var cc := CompileExpr(slots, c).value;
      ExprCodeShape(slots, c);
      var thenStart := base + |cc| + 1;
      var tc := CompileBlock(slots, t, |t.statements|, thenStart).value;
      BlockTargetsWithin(slots, t, |t.statements|, thenStart);
      if els.None? {
        IfThenCodeWithin(cc, tc, base, code);
      } else {
        var elseStart := thenStart + |tc| + 1;
        var ec := CompileBlock(slots, els.value, |els.value.statements|, elseStart).value;
        BlockTargetsWithin(slots, els.value, |els.value.statements|, elseStart);
        IfElseCodeWithin(cc, tc, ec, base, code);
      }
    }
  }

  /** An `if` without `else` laid out at `base`: the conditional jump lands just after the then-block. */
  lemma {:induction false} IfThenCodeWithin(cc: seq<I.Instruction>, tc: seq<I.Instruction>, base: nat, code: seq<I.Instruction>)
    requires StraightLine(cc)
    requires TargetsWithin(tc, base + |cc| + 1, base + |cc| + 1 + |tc|)
    requires code == cc + [I.JumpIfFalse(base + |cc| + 1 + |tc|)] + tc
    ensures TargetsWithin(code, base, base + |code|)
  {
    var hi := base + |cc| + 1 + |tc|;
    TargetsConcat(cc, [I.JumpIfFalse(hi)], base, hi);
    TargetsConcat(cc + [I.JumpIfFalse(hi)], tc, base, hi);
  }

  /**
   * An `if` with `else` laid out at `base`: the conditional jump lands on the else-block, the jump
   * closing the then-block just after the else-block.
   */
  lemma {:induction false} IfElseCodeWithin(cc: seq<I.Instruction>, tc: seq<I.Instruction>, ec: seq<I.Instruction>, base: nat,
                                            code: seq<I.Instruction>)
    requires StraightLine(cc)
    requires TargetsWithin(tc, base + |cc| + 1, base + |cc| + 1 + |tc|)
    requires TargetsWithin(ec, base + |cc| + |tc| + 2, base + |cc| + |tc| + 2 + |ec|)
    requires var elseStart := base + |cc| + |tc| + 2;
      code == cc + [I.JumpIfFalse(elseStart)] + tc + [I.Jump(elseStart + |ec|)] + ec
    ensures TargetsWithin(code, base, base + |code|)
  {
    var elseStart := base + |cc| + |tc| + 2;
    var hi := elseStart + |ec|;
    var head := cc + [I.JumpIfFalse(elseStart)];
    TargetsConcat(cc, [I.JumpIfFalse(elseStart)], base, hi);
    TargetsConcat(head, tc, base, hi);
    TargetsConcat(head + tc, [I.Jump(hi)], base, hi);
    TargetsConcat(head + tc + [I.Jump(hi)], ec, base, hi);
  }

  lemma {:induction false} BlockTargetsWithin(slots: map<string, nat>, b: A.Block, n: nat, base: nat)
    requires n <= |b.statements|
    ensures CompileBlock(slots, b, n, base).Ok? ==>
      TargetsWithin(CompileBlock(slots, b, n, base).value, base, base + |CompileBlock(slots, b, n, base).value|)
    decreases b, 0, n
  {
    if n > 0 && CompileBlock(slots, b, n, base).Ok? {
      var earlier := CompileBlock(slots, b, n - 1, base).value;
      var last := CompileStmt(slots, b.statements[n - 1], base + |earlier|).value;
      BlockTargetsWithin(slots, b, n - 1, base);
      StmtTargetsWithin(slots, b.statements[n - 1], base + |earlier|);
      var hi := base + |earlier + last|;
      TargetsConcat(earlier, last, base, hi);
    }
  }

  /**
   * The corrected function lowering: its code ends in a return and every jump in it lands strictly
   * inside it, so control never runs on into the next item.
   */
  lemma {:induction false} FunctionStaysInside(slots: map<string, nat>, f: A.Function, base: nat)
    ensures CompileFunction(slots, f, base).Ok? ==>
      var code := CompileFunction(slots, f, base).value;
      |code| > 0 && IsReturn(code[|code| - 1]) && TargetsWithin(code, base, base + |code| - 1)
  {
    var n := |f.body.statements|;
    if CompileFunction(slots, f, base).Ok? {
      var code := CompileFunction(slots, f, base).value;
      var bc := CompileBlock(slots, f.body, n, base).value;
      if EndsWithReturn(f.body) {
        var earlier := CompileBlock(slots, f.body, n - 1, base).value;
        var last := CompileStmt(slots, f.body.statements[n - 1], base + |earlier|).value;
        assert code == earlier + last;
        BlockTargetsWithin(slots, f.body, n - 1, base);
        var ret := f.body.statements[n - 1];
        if ret.returnValue.Some? {
          ExprCodeShape(slots, ret.returnValue.value);
        }
        assert StraightLine(last[..|last| - 1]);
        assert last == last[..|last| - 1] + [last[|last| - 1]];
        TargetsConcat(earlier, last, base, base + |code| - 1);
      } else {
        BlockTargetsWithin(slots, f.body, n, base);
        TargetsConcat(bc, [I.Return], base, base + |code| - 1);
      }
    }
  }

  /** The main block's code ends in `HALT` and every jump in it lands strictly inside it. */
  lemma {:induction false} MainStaysInside(slots: map<string, nat>, m: A.MainBlock, base: nat)
    ensures CompileMain(slots, m, base).Ok? ==>
      var code := CompileMain(slots, m, base).value;
      |code| > 0 && code[|code| - 1] == I.Halt && TargetsWithin(code, base, base + |code| - 1)
  {
    if CompileMain(slots, m, base).Ok? {
      var bc := CompileBlock(slots, m.body, |m.body.statements|, base).value;
      BlockTargetsWithin(slots, m.body, |m.body.statements|, base);
      TargetsConcat(bc, [I.Halt], base, base + |bc|);
    }
  }

  /** Whether one of the first `n` items is a main block. */
  predicate HasMain(items: seq<A.Item>, n: nat)
    requires n <= |items|
  {
    exists k :: 0 <= k < n && items[k].MainItem?
  }

  // `CompileIf`, one stage at a time.

  /** A condition that fails to lower fails the whole `if`. */
  lemma {:induction false} IfConditionFails(slots: map<string, nat>, s: A.Statement, base: nat)
    requires s.If? && CompileExpr(slots, s.condition).Err?
    ensures CompileIf(slots, s, base) == Err(CompileExpr(slots, s.condition).error)
  {
  }

  /** A then-block that fails to lower fails the whole `if`. */
  lemma {:induction false} IfThenFails(slots: map<string, nat>, s: A.Statement, base: nat, cc: seq<I.Instruction>)
    requires s.If? && CompileExpr(slots, s.condition) == Ok(cc)
    requires CompileBlock(slots, s.thenBlock, |s.thenBlock.statements|, base + |cc| + 1).Err?
    ensures CompileIf(slots, s, base) == Err(CompileBlock(slots, s.thenBlock, |s.thenBlock.statements|, base + |cc| + 1).error)
  {
  }

  /** Without `else`: the condition, a jump past the then-block, the then-block. */
  lemma {:induction false} IfLowersWithoutElse(slots: map<string, nat>, s: A.Statement, base: nat, cc: seq<I.Instruction>, tc: seq<I.Instruction>)
    requires s.If? && s.elseBlock.None? && CompileExpr(slots, s.condition) == Ok(cc)
    requires CompileBlock(slots, s.thenBlock, |s.thenBlock.statements|, base + |cc| + 1) == Ok(tc)
    ensures CompileIf(slots, s, base) == Ok(cc + [I.JumpIfFalse(base + |cc| + 1 + |tc|)] + tc)
  {
  }

  /** An else-block that fails to lower, starting at `elseStart`, fails the whole `if`. */
  lemma {:induction false} IfElseFails(slots: map<string, nat>, s: A.Statement, base: nat, cc: seq<I.Instruction>, tc: seq<I.Instruction>, elseStart: nat)
    requires s.If? && s.elseBlock.Some? && CompileExpr(slots, s.condition) == Ok(cc)
    requires CompileBlock(slots, s.thenBlock, |s.thenBlock.statements|, base + |cc| + 1) == Ok(tc)
    requires elseStart == base + |cc| + 1 + |tc| + 1
    requires CompileBlock(slots, s.elseBlock.value, |s.elseBlock.value.statements|, elseStart).Err?
    ensures CompileIf(slots, s, base) == Err(CompileBlock(slots, s.elseBlock.value, |s.elseBlock.value.statements|, elseStart).error)
  {
  }

  /**
   * With `else`: the condition, a jump to the else-block at `elseStart`, the then-block, a jump
   * past the else-block to `end`, the else-block.
   */
  lemma {:induction false} IfLowersWithElse(slots: map<string, nat>, s: A.Statement, base: nat, cc: seq<I.Instruction>, tc: seq<I.Instruction>,
                                            ec: seq<I.Instruction>, elseStart: nat, end: nat)
    requires s.If? && s.elseBlock.Some? && CompileExpr(slots, s.condition) == Ok(cc)
    requires CompileBlock(slots, s.thenBlock, |s.thenBlock.statements|, base + |cc| + 1) == Ok(tc)
    requires elseStart == base + |cc| + 1 + |tc| + 1 && end == elseStart + |ec|
    requires CompileBlock(slots, s.elseBlock.value, |s.elseBlock.value.statements|, elseStart) == Ok(ec)
    ensures CompileIf(slots, s, base) == Ok(cc + [I.JumpIfFalse(elseStart)] + tc + [I.Jump(end)] + ec)
  {
  }

  /** Lowering stops at the first error: once a prefix of the arguments fails, the whole list fails the same way. */
  lemma {:induction false} ArgsErrorPersists(slots: map<string, nat>, call: A.Expression, i: nat, n: nat)
    requires call.FunctionCall? && i <= n <= |call.arguments|
    requires CompileArgs(slots, call, i).Err?
    ensures CompileArgs(slots, call, n) == CompileArgs(slots, call, i)
    decreases n
  {
    if n > i {
      ArgsErrorPersists(slots, call, i, n - 1);
    }
  }

  /** Once a prefix of a block fails, the whole block fails with the same error. */
  lemma {:induction false} BlockErrorPersists(slots: map<string, nat>, b: A.Block, i: nat, n: nat, base: nat)
    requires i <= n <= |b.statements|
    requires CompileBlock(slots, b, i, base).Err?
    ensures CompileBlock(slots, b, n, base) == CompileBlock(slots, b, i, base)
    decreases n
  {
    if n > i {
      BlockErrorPersists(slots, b, i, n - 1, base);
    }
  }

  /** Once a prefix of the items fails, the whole program fails with the same error. */
  lemma {:induction false} LayoutErrorPersists(slots: map<string, nat>, items: seq<A.Item>, i: nat, n: nat, start: Layout)
    requires i <= n <= |items|
    requires LayoutItems(slots, items, i, start).Err?
    ensures LayoutItems(slots, items, n, start) == LayoutItems(slots, items, i, start)
    decreases n
  {
    if n > i {
      LayoutErrorPersists(slots, items, i, n - 1, start);
    }
  }

  /** Every jump target, the entry point and every function start of a layout is an instruction index. */
  predicate Closed(l: Layout) {
    && (forall i :: 0 <= i < |l.code| && (l.code[i].Jump? || l.code[i].JumpIfFalse?) ==> l.code[i].target < |l.code|)
    && (forall name :: name in l.functionStarts ==> l.functionStarts[name] < |l.code|)
  }

  /** Appending code whose jumps stay inside it, and recording where it starts, keeps a layout closed. */
  lemma {:induction false} AppendStaysClosed(prev: Layout, code: seq<I.Instruction>, name: string, entryPoint: nat)
    requires Closed(prev) && |code| > 0
    requires TargetsWithin(code, |prev.code|, |prev.code| + |code| - 1)
    ensures Closed(Layout(prev.code + code, entryPoint, prev.functionStarts[name := |prev.code|]))
  {
    var hi := |prev.code| + |code| - 1;
    assert TargetsWithin(prev.code, 0, hi);
    TargetsWiden(code, |prev.code|, hi, 0, hi);
    TargetsConcat(prev.code, code, 0, hi);
  }

  /**
   * Generated code is closed: starting from a closed layout (a new generator's is), every jump
   * target and every recorded function start is an instruction index, and so is the entry point
   * once a main block has been laid out.
   */
  lemma {:induction false} LayoutInBounds(slots: map<string, nat>, items: seq<A.Item>, n: nat, start: Layout)
    requires n <= |items|
    requires Closed(start)
    ensures LayoutItems(slots, items, n, start).Ok? ==>
      var l := LayoutItems(slots, items, n, start).value;
      Closed(l) && (HasMain(items, n) ==> l.entryPoint < |l.code|)
  {
    if n > 0 && LayoutItems(slots, items, n, start).Ok? {
      LayoutInBounds(slots, items, n - 1, start);
      assert LayoutItems(slots, items, n - 1, start).Ok?;
      var prev := LayoutItems(slots, items, n - 1, start).value;
      var base := |prev.code|;
      match items[n - 1] {
        case FunctionItem(f) =>
          FunctionStaysInside(slots, f, base);
          AppendStaysClosed(prev, CompileFunction(slots, f, base).value, f.name, prev.entryPoint);
          assert HasMain(items, n) ==> HasMain(items, n - 1);
        case MainItem(m) =>
          MainStaysInside(slots, m, base);
          AppendStaysClosed(prev, CompileMain(slots, m, base).value, "main", base);
      }
    }
  }

  /** The names of the first `n` items are covered, so laying them out raises no slot error. */
  lemma {:induction false} LayoutCompilesWhenCovered(slots: map<string, nat>, items: seq<A.Item>, n: nat, start: Layout)
    requires n <= |items|
    requires ItemsNames(items, n) <= slots.Keys
    ensures LayoutItems(slots, items, n, start).Ok? || LayoutItems(slots, items, n, start).error.WrongArgumentCount?
  {
    if n > 0 {
      LayoutCompilesWhenCovered(slots, items, n - 1, start);
      if LayoutItems(slots, items, n - 1, start).Ok? {
        var base := |LayoutItems(slots, items, n - 1, start).value.code|;
        match items[n - 1]
        case FunctionItem(f) => BlockCompilesWhenCovered(slots, f.body, |f.body.statements|, base);
        case MainItem(m) => BlockCompilesWhenCovered(slots, m.body, |m.body.statements|, base);
      }
    }
  }

  /**
   * The first pass gives a slot to every name the second pass looks up: code generation can fail
   * only on a `print` call with the wrong number of arguments, never with a missing slot.
   */
  lemma {:induction false} GenerateFailsOnlyOnPrintArity(st: Slots, start: Layout, program: A.Program, entries: seq<(string, ST.Symbol)>)
    ensures Generate(st, start, program, entries).Ok? || Generate(st, start, program, entries).error.WrongArgumentCount?
  {
    var collected := CollectEntities(st, program, entries);
    CollectEntitiesCovers(st, program, entries);
    LayoutCompilesWhenCovered(collected.slots, program.items, |program.items|, start);
  }

  /** A new generator's output is closed, and its entry point is the main block's start when there is one. */
  lemma {:induction false} GeneratedProgramIsClosed(program: A.Program, entries: seq<(string, ST.Symbol)>)
    ensures Generate(NoSlots, EmptyLayout, program, entries).Ok? ==>
      var l := Generate(NoSlots, EmptyLayout, program, entries).value;
      Closed(l) && (HasMain(program.items, |program.items|) ==> l.entryPoint < |l.code|)
  {
    var collected := CollectEntities(NoSlots, program, entries);
    LayoutInBounds(collected.slots, program.items, |program.items|, EmptyLayout);
  }

  // ---------------------------------------------------------------------------------------------
  // The implicit return as written

  const S0 := Span(1, 1, 1, 1)

  /** `fn f$0(v$0 int) -> int { if (v$0) { ret 1; } }` */
  const IfWithoutElse := A.Function(
    "f$0", [A.Parameter("v$0", ST.Int, S0)], ST.Int,
    A.Block([A.If(A.Variable("v$0", S0), A.Block([A.Return(Some(A.Integer(1, S0)), S0)], S0), None, S0)], S0),
    S0, None)

  /**
   * As written, the function above gets no implicit `RETURN` because its last emitted instruction
   * is the `ret` inside the `if`; the false branch then jumps to index 4, past the function's code.
   */
  lemma {:induction false} AsWrittenFallsOffTheEnd()
    ensures CompileFunctionAsWritten(map["v$0" := 0], IfWithoutElse, [])
      == Ok([I.LoadVar(0), I.JumpIfFalse(4), I.Push(I.Int(1)), I.ReturnValue])
    ensures CompileFunction(map["v$0" := 0], IfWithoutElse, 0)
      == Ok([I.LoadVar(0), I.JumpIfFalse(4), I.Push(I.Int(1)), I.ReturnValue, I.Return])
  {
    var slots := map["v$0" := 0];
    var thenBlock := A.Block([A.Return(Some(A.Integer(1, S0)), S0)], S0);
    assert CompileExpr(slots, A.Variable("v$0", S0)) == Ok([I.LoadVar(0)]);
    assert CompileExpr(slots, A.Integer(1, S0)) == Ok([I.Push(I.Int(1))]);
    var ret := A.Return(Some(A.Integer(1, S0)), S0);
    assert ret.returnValue.value == A.Integer(1, S0);
    assert CompileExpr(slots, ret.returnValue.value).value + [I.ReturnValue] == [I.Push(I.Int(1)), I.ReturnValue];
    assert CompileStmt(slots, A.Return(Some(A.Integer(1, S0)), S0), 2) == Ok([I.Push(I.Int(1)), I.ReturnValue]);
    assert CompileBlock(slots, thenBlock, 0, 2) == Ok([]);
    assert thenBlock.statements[0] == ret;
    assert CompileBlock(slots, thenBlock, 1, 2) == Ok([] + [I.Push(I.Int(1)), I.ReturnValue]);
    var ifStmt := IfWithoutElse.body.statements[0];
    assert ifStmt.thenBlock == thenBlock && ifStmt.elseBlock == None && ifStmt.condition == A.Variable("v$0", S0);
    var code := [I.LoadVar(0)] + [I.JumpIfFalse(4)] + [I.Push(I.Int(1)), I.ReturnValue];
    assert ifStmt == A.If(A.Variable("v$0", S0), thenBlock, None, S0);
    assert |thenBlock.statements| == 1;
    assert CompileStmt(slots, ifStmt, 0).Ok?;
    assert CompileStmt(slots, ifStmt, 0).value == code;
    assert CompileBlock(slots, IfWithoutElse.body, 0, 0) == Ok([]);
    assert CompileBlock(slots, IfWithoutElse.body, 1, 0) == Ok([] + code);
    assert code == [I.LoadVar(0), I.JumpIfFalse(4), I.Push(I.Int(1)), I.ReturnValue];
    assert !EndsWithReturn(IfWithoutElse.body);
    assert |IfWithoutElse.body.statements| == 1;
    assert ([] + code)[|code| - 1] == I.ReturnValue;
    assert CompileFunctionAsWritten(slots, IfWithoutElse, []).Ok?;
    assert CompileFunctionAsWritten(slots, IfWithoutElse, []).value == code;
    assert CompileFunction(slots, IfWithoutElse, 0).Ok?;
    assert CompileFunction(slots, IfWithoutElse, 0).value == code + [I.Return];
    assert code + [I.Return] == [I.LoadVar(0), I.JumpIfFalse(4), I.Push(I.Int(1)), I.ReturnValue, I.Return];
  }

  // ---------------------------------------------------------------------------------------------
  // Parameter slots

  const S1 := Span(1, 1, 1, 1)

  /** `fn f$0(v$0 int, v$1 int) -> int { ret v$1 - v$0; }` as the only item. */
  const Subtraction := A.FunctionItem(A.Function(
    "f$0", [A.Parameter("v$0", ST.Int, S1), A.Parameter("v$1", ST.Int, S1)], ST.Int,
    A.Block([A.Return(Some(A.Binary(A.Variable("v$1", S1), A.Subtract, A.Variable("v$0", S1), S1)), S1)], S1),
    S1, None))

  /**
   * Slots follow the order in which names are first met in the body, not the parameter list:
   * here `v$1` gets slot 0 and `v$0` slot 1, while a call stores its first argument in slot 0.
   */
  lemma {:induction false} ParameterSlotsFollowBodyOrder()
    ensures CollectItems(NoSlots, [Subtraction], 1).slots == map["v$1" := 0, "v$0" := 1]
  {
    var body := Subtraction.func.body;
    var afterBody := CollectBlock(NoSlots, body, 1);
    assert CollectBlock(NoSlots, body, 0) == NoSlots;
    var v1 := A.Variable("v$1", S1);
    var v0 := A.Variable("v$0", S1);
    assert "v$1"[2] != "v$0"[2];
    assert CollectExpr(NoSlots, v1) == Slots(map["v$1" := 0], 1);
    assert CollectExpr(Slots(map["v$1" := 0], 1), v0) == Slots(map["v$1" := 0, "v$0" := 1], 2);
    assert CollectStmt(NoSlots, body.statements[0]) == CollectExpr(CollectExpr(NoSlots, v1), v0);
    assert afterBody == Slots(map["v$1" := 0, "v$0" := 1], 2);
    assert CollectParams(afterBody, Subtraction.func.params, 0) == afterBody;
    assert CollectParams(afterBody, Subtraction.func.params, 1) == afterBody;
  }
}
