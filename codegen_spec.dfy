/**
 * What the code generator computes, as functions on the syntax tree: the slot assignment of the
 * first pass, the instruction sequences of the second pass (jump targets absolute, so every
 * statement is lowered at a known base index), and the properties of both.
 */
module CodegenSpec {
  import opened Common
  import opened Errors
  import A = Ast
  import I = Instructions
  import ST = SymbolTables

  // ---------------------------------------------------------------------------------------------
  // First pass: runtime slots

  /** The slot assignment: every named entity's runtime slot, and the next slot to hand out. */
  datatype Slots = Slots(slots: map<string, nat>, next: nat)

  const NoSlots := Slots(map[], 0)

  /** Slots are below the counter and no two names share one. */
  predicate WellFormed(st: Slots) {
    (forall n :: n in st.slots ==> st.slots[n] < st.next)
    && (forall a, b :: a in st.slots && b in st.slots && a != b ==> st.slots[a] != st.slots[b])
  }

  /** `r` grows out of `st`: no name loses or changes its slot and the counter never goes back. */
  predicate Extends(st: Slots, r: Slots) {
    (forall n :: n in st.slots ==> n in r.slots && r.slots[n] == st.slots[n]) && st.next <= r.next
  }

  /** The AST walk's rule: a name gets the next slot unless it already has one. */
  function Assign(st: Slots, name: string): (r: Slots)
    ensures r.slots.Keys == st.slots.Keys + {name}
    ensures Extends(st, r)
    ensures WellFormed(st) ==> WellFormed(r)
    ensures name !in st.slots ==> r.slots[name] == st.next && r.next == st.next + 1
    ensures name in st.slots ==> r == st
  {
    if name in st.slots then st else Slots(st.slots[name := st.next], st.next + 1)
  }

  /** The symbol-table walk's rule: the name gets the next slot even if it already has one. */
  function Reassign(st: Slots, name: string): (r: Slots)
    ensures r.slots.Keys == st.slots.Keys + {name}
    ensures r.slots[name] == st.next && r.next == st.next + 1
    ensures forall n :: n in st.slots && n != name ==> r.slots[n] == st.slots[n]
    ensures WellFormed(st) ==> WellFormed(r)
  {
    Slots(st.slots[name := st.next], st.next + 1)
  }

  predicate HasPrefix(name: string, prefix: string) {
    |prefix| <= |name| && name[..|prefix|] == prefix
  }

  /** Whether a symbol-table entry gets a slot: variables named `v$…` and constants named `c$…`. */
  predicate NeedsSlot(name: string, symbol: ST.Symbol) {
    (symbol.entityType.Variable? && HasPrefix(name, "v$"))
    || (symbol.entityType.Constant? && HasPrefix(name, "c$"))
  }

  /** The slot assignment after the first `n` symbol-table entries. */
  function CollectSymbols(st: Slots, entries: seq<(string, ST.Symbol)>, n: nat): Slots
    requires n <= |entries|
  {
    if n == 0 then st
    else
      var earlier := CollectSymbols(st, entries, n - 1);
      var (name, symbol) := entries[n - 1];
      if NeedsSlot(name, symbol) then Reassign(earlier, name) else earlier
  }

  /** No entry after the `k`-th among the first `n` documents the same name. */
  predicate LastDocumented(entries: seq<(string, ST.Symbol)>, n: nat, k: nat)
    requires k < n <= |entries|
  {
    forall j :: k < j < n && entries[j].0 == entries[k].0 ==> entries[j].1.documentation.None?
  }

  /** None of the first `n` entries documents `name`. */
  predicate Undocumented(entries: seq<(string, ST.Symbol)>, n: nat, name: string)
    requires n <= |entries|
  {
    forall k :: 0 <= k < n && entries[k].0 == name ==> entries[k].1.documentation.None?
  }

  /** The documentation copied out of the first `n` symbol-table entries (a later entry wins). */
  function EntityDocs(docs: map<string, string>, entries: seq<(string, ST.Symbol)>, n: nat): (r: map<string, string>)
    requires n <= |entries|
    ensures forall k :: 0 <= k < n && entries[k].1.documentation.Some? ==> entries[k].0 in r
    ensures forall name :: name in r ==> name in docs || exists k :: 0 <= k < n && entries[k].0 == name
    ensures forall k :: 0 <= k < n && entries[k].1.documentation.Some? && LastDocumented(entries, n, k) ==>
      r[entries[k].0] == entries[k].1.documentation.value
    ensures forall name :: name in docs && Undocumented(entries, n, name) ==> name in r && r[name] == docs[name]
  {
    if n == 0 then docs
    else
      var earlier := EntityDocs(docs, entries, n - 1);
      var (name, symbol) := entries[n - 1];
      if symbol.documentation.Some? then earlier[name := symbol.documentation.value] else earlier
  }

  /** The names an expression reads. */
  function ExprNames(e: A.Expression): set<string>
    decreases e, 1
  {
    match e
    case Variable(name, _) => {name}
    case Binary(l, _, r, _) => ExprNames(l) + ExprNames(r)
    case Logical(l, _, r, _) => ExprNames(l) + ExprNames(r)
    case Unary(_, operand, _) => ExprNames(operand)
    case FunctionCall(_, args, _) => ArgNames(e, |args|)
    case _ => {}
  }

  /** The names the first `n` arguments of a call read. */
  function ArgNames(call: A.Expression, n: nat): set<string>
    requires call.FunctionCall? && n <= |call.arguments|
    decreases call, 0, n
  {
    if n == 0 then {} else ArgNames(call, n - 1) + ExprNames(call.arguments[n - 1])
  }

  /** The names a statement declares, assigns or reads. */
  function StmtNames(s: A.Statement): set<string>
    decreases s, 1
  {
    match s
    case VariableDeclaration(name, _, init, _, _) => {name} + (if init.Some? then ExprNames(init.value) else {})
    case ConstantDeclaration(name, _, value, _, _) => {name} + ExprNames(value)
    case Assignment(target, value, _) => {target} + ExprNames(value)
    case ExpressionStatement(e) => ExprNames(e)
    case Return(value, _) => if value.Some? then ExprNames(value.value) else {}
    case Describe(_, _, _) => {}
    case If(c, t, els, _) =>
      ExprNames(c) + BlockNames(t, |t.statements|)
      + (if els.Some? then BlockNames(els.value, |els.value.statements|) else {})
  }

  /** The names the first `n` statements of a block mention. */
  function BlockNames(b: A.Block, n: nat): set<string>
    requires n <= |b.statements|
    decreases b, 0, n
  {
    if n == 0 then {} else BlockNames(b, n - 1) + StmtNames(b.statements[n - 1])
  }

  /** The parameter names among the first `n`. */
  function ParamNames(params: seq<A.Parameter>, n: nat): set<string>
    requires n <= |params|
  {
    if n == 0 then {} else ParamNames(params, n - 1) + {params[n - 1].name}
  }

  /** The names an item mentions: its body's, and a function's parameters. */
  function ItemNames(item: A.Item): set<string> {
    match item
    case FunctionItem(f) => BlockNames(f.body, |f.body.statements|) + ParamNames(f.params, |f.params|)
    case MainItem(m) => BlockNames(m.body, |m.body.statements|)
  }

  /** The names the first `n` items mention. */
  function ItemsNames(items: seq<A.Item>, n: nat): set<string>
    requires n <= |items|
  {
    if n == 0 then {} else ItemsNames(items, n - 1) + ItemNames(items[n - 1])
  }

  /** `collect_from_expression`: exactly the names the expression reads gain a slot. */
  function CollectExpr(st: Slots, e: A.Expression): Slots
    decreases e, 1
  {
    match e
    case Variable(name, _) => Assign(st, name)
    case Binary(l, _, r, _) => CollectExpr(CollectExpr(st, l), r)
    case Logical(l, _, r, _) => CollectExpr(CollectExpr(st, l), r)
    case Unary(_, operand, _) => CollectExpr(st, operand)
    case FunctionCall(_, args, _) => CollectArgs(st, e, |args|)
    case _ => st
  }

  /** Collection over the first `n` arguments of a call, left to right. */
  function CollectArgs(st: Slots, call: A.Expression, n: nat): Slots
    requires call.FunctionCall? && n <= |call.arguments|
    decreases call, 0, n
  {
    if n == 0 then st else CollectExpr(CollectArgs(st, call, n - 1), call.arguments[n - 1])
  }

  /** `collect_from_statement`: the declared or assigned name first, then the expressions. */
  function CollectStmt(st: Slots, s: A.Statement): Slots
    decreases s, 1
  {
    match s
    case VariableDeclaration(name, _, init, _, _) =>
      var named := Assign(st, name);
      if init.Some? then CollectExpr(named, init.value) else named
    case ConstantDeclaration(name, _, value, _, _) => CollectExpr(Assign(st, name), value)
    case Assignment(target, value, _) => CollectExpr(Assign(st, target), value)
    case ExpressionStatement(e) => CollectExpr(st, e)
    case Return(value, _) => if value.Some? then CollectExpr(st, value.value) else st
    case Describe(_, _, _) => st
    case If(c, t, els, _) =>
      var afterThen := CollectBlock(CollectExpr(st, c), t, |t.statements|);
      if els.Some? then CollectBlock(afterThen, els.value, |els.value.statements|) else afterThen
  }

  /** `collect_from_block` over the first `n` statements. */
  function CollectBlock(st: Slots, b: A.Block, n: nat): Slots
    requires n <= |b.statements|
    decreases b, 0, n
  {
    if n == 0 then st else CollectStmt(CollectBlock(st, b, n - 1), b.statements[n - 1])
  }

  /** The first `n` parameters of a function, each given a slot unless it already has one. */
  function CollectParams(st: Slots, params: seq<A.Parameter>, n: nat): Slots
    requires n <= |params|
  {
    if n == 0 then st else Assign(CollectParams(st, params, n - 1), params[n - 1].name)
  }

  /** One item of `collect_from_ast`: a function's body first, then its parameters. */
  function CollectItem(st: Slots, item: A.Item): Slots
  {
    match item
    case FunctionItem(f) => CollectParams(CollectBlock(st, f.body, |f.body.statements|), f.params, |f.params|)
    case MainItem(m) => CollectBlock(st, m.body, |m.body.statements|)
  }

  /** `collect_from_ast` over the first `n` items. */
  function CollectItems(st: Slots, items: seq<A.Item>, n: nat): Slots
    requires n <= |items|
  {
    if n == 0 then st else CollectItem(CollectItems(st, items, n - 1), items[n - 1])
  }

  /** `collect_entities` from the slot state `st`: the symbol table's entries, then the syntax tree. */
  function CollectEntities(st: Slots, program: A.Program, entries: seq<(string, ST.Symbol)>): Slots
  {
    var fromTable := CollectSymbols(st, entries, |entries|);
    CollectItems(fromTable, program.items, |program.items|)
  }

  // ---------------------------------------------------------------------------------------------
  // First pass: what collection guarantees

  /** `r` extends `st`, stays well formed with it, and names exactly `st`'s names plus `names`. */
  predicate Grows(st: Slots, r: Slots, names: set<string>) {
    Extends(st, r) && (WellFormed(st) ==> WellFormed(r)) && r.slots.Keys == st.slots.Keys + names
  }

  lemma {:induction false} GrowsTrans(a: Slots, b: Slots, c: Slots, first: set<string>, second: set<string>)
    requires Grows(a, b, first) && Grows(b, c, second)
    ensures Grows(a, c, first + second)
  {
  }

  lemma {:induction false} AssignGrows(st: Slots, name: string)
    ensures Grows(st, Assign(st, name), {name})
  {
  }

  /** Collecting an expression gives a slot to exactly the names it reads and moves no other slot. */
  lemma {:induction false} CollectExprGrows(st: Slots, e: A.Expression)
    ensures Grows(st, CollectExpr(st, e), ExprNames(e))
    decreases e, 1
  {
    match e {
      case Variable(name, _) => AssignGrows(st, name);
      case Binary(l, _, r, _) =>
        CollectExprGrows(st, l);
        CollectExprGrows(CollectExpr(st, l), r);
        GrowsTrans(st, CollectExpr(st, l), CollectExpr(CollectExpr(st, l), r), ExprNames(l), ExprNames(r));
      case Logical(l, _, r, _) =>
        CollectExprGrows(st, l);
        CollectExprGrows(CollectExpr(st, l), r);
        GrowsTrans(st, CollectExpr(st, l), CollectExpr(CollectExpr(st, l), r), ExprNames(l), ExprNames(r));
      case Unary(_, operand, _) => CollectExprGrows(st, operand);
      case FunctionCall(_, args, _) => CollectArgsGrows(st, e, |args|);
      case _ =>
    }
  }

  lemma {:induction false} CollectArgsGrows(st: Slots, call: A.Expression, n: nat)
    requires call.FunctionCall? && n <= |call.arguments|
    ensures Grows(st, CollectArgs(st, call, n), ArgNames(call, n))
    decreases call, 0, n
  {
    if n > 0 {
      var mid := CollectArgs(st, call, n - 1);
      CollectArgsGrows(st, call, n - 1);
      CollectExprGrows(mid, call.arguments[n - 1]);
      GrowsTrans(st, mid, CollectExpr(mid, call.arguments[n - 1]), ArgNames(call, n - 1), ExprNames(call.arguments[n - 1]));
    }
  }

  /** Collecting a statement gives a slot to exactly the names it mentions. */
  lemma {:induction false} CollectStmtGrows(st: Slots, s: A.Statement)
    ensures Grows(st, CollectStmt(st, s), StmtNames(s))
    decreases s, 1
  {
    match s {
      case VariableDeclaration(name, _, init, _, _) =>
        AssignGrows(st, name);
        if init.Some? {
          CollectExprGrows(Assign(st, name), init.value);
          GrowsTrans(st, Assign(st, name), CollectExpr(Assign(st, name), init.value), {name}, ExprNames(init.value));
        }
      case ConstantDeclaration(name, _, value, _, _) =>
        AssignGrows(st, name);
        CollectExprGrows(Assign(st, name), value);
        GrowsTrans(st, Assign(st, name), CollectExpr(Assign(st, name), value), {name}, ExprNames(value));
      case Assignment(target, value, _) =>
        AssignGrows(st, target);
        CollectExprGrows(Assign(st, target), value);
        GrowsTrans(st, Assign(st, target), CollectExpr(Assign(st, target), value), {target}, ExprNames(value));
      case ExpressionStatement(e) => CollectExprGrows(st, e);
      case Return(value, _) =>
        if value.Some? {
          CollectExprGrows(st, value.value);
        }
      case Describe(_, _, _) =>
      case If(_, _, _, _) => CollectIfGrows(st, s);
    }
  }

  lemma {:induction false} CollectIfGrows(st: Slots, s: A.Statement)
    requires s.If?
    ensures Grows(st, CollectStmt(st, s), StmtNames(s))
    decreases s, 0
  {
    var c, t, els := s.condition, s.thenBlock, s.elseBlock;
    var afterCond := CollectExpr(st, c);
    var afterThen := CollectBlock(afterCond, t, |t.statements|);
    CollectExprGrows(st, c);
    CollectBlockGrows(afterCond, t, |t.statements|);
    GrowsTrans(st, afterCond, afterThen, ExprNames(c), BlockNames(t, |t.statements|));
    if els.Some? {
      CollectBlockGrows(afterThen, els.value, |els.value.statements|);
      GrowsTrans(st, afterThen, CollectBlock(afterThen, els.value, |els.value.statements|),
        ExprNames(c) + BlockNames(t, |t.statements|), BlockNames(els.value, |els.value.statements|));
    } else {
      assert StmtNames(s) == ExprNames(c) + BlockNames(t, |t.statements|);
    }
  }

  lemma {:induction false} CollectBlockGrows(st: Slots, b: A.Block, n: nat)
    requires n <= |b.statements|
    ensures Grows(st, CollectBlock(st, b, n), BlockNames(b, n))
    decreases b, 0, n
  {
    if n > 0 {
      var mid := CollectBlock(st, b, n - 1);
      CollectBlockGrows(st, b, n - 1);
      CollectStmtGrows(mid, b.statements[n - 1]);
      GrowsTrans(st, mid, CollectStmt(mid, b.statements[n - 1]), BlockNames(b, n - 1), StmtNames(b.statements[n - 1]));
    }
  }

  lemma {:induction false} CollectParamsGrows(st: Slots, params: seq<A.Parameter>, n: nat)
    requires n <= |params|
    ensures Grows(st, CollectParams(st, params, n), ParamNames(params, n))
  {
    if n > 0 {
      var mid := CollectParams(st, params, n - 1);
      CollectParamsGrows(st, params, n - 1);
      AssignGrows(mid, params[n - 1].name);
      GrowsTrans(st, mid, Assign(mid, params[n - 1].name), ParamNames(params, n - 1), {params[n - 1].name});
    }
  }

  /** Collecting the first `n` items gives a slot to exactly the names they mention. */
  lemma {:induction false} CollectItemsGrows(st: Slots, items: seq<A.Item>, n: nat)
    requires n <= |items|
    ensures Grows(st, CollectItems(st, items, n), ItemsNames(items, n))
  {
    if n > 0 {
      var mid := CollectItems(st, items, n - 1);
      CollectItemsGrows(st, items, n - 1);
      CollectItemGrows(mid, items[n - 1]);
      GrowsTrans(st, mid, CollectItems(st, items, n), ItemsNames(items, n - 1), ItemNames(items[n - 1]));
    }
  }

  /** Collecting one item gives a slot to exactly the names it mentions. */
  lemma {:induction false} CollectItemGrows(st: Slots, item: A.Item)
    ensures Grows(st, CollectItem(st, item), ItemNames(item))
  {
    match item {
      case FunctionItem(f) =>
        var afterBody := CollectBlock(st, f.body, |f.body.statements|);
        CollectBlockGrows(st, f.body, |f.body.statements|);
        CollectParamsGrows(afterBody, f.params, |f.params|);
        GrowsTrans(st, afterBody, CollectParams(afterBody, f.params, |f.params|),
          BlockNames(f.body, |f.body.statements|), ParamNames(f.params, |f.params|));
      case MainItem(m) => CollectBlockGrows(st, m.body, |m.body.statements|);
    }
  }

  /**
   * The symbol-table pass keeps the slots well formed, drops no name, and gives a slot to every
   * entry that needs one.
   */
  lemma {:induction false} CollectSymbolsCovers(st: Slots, entries: seq<(string, ST.Symbol)>, n: nat)
    requires n <= |entries|
    ensures var r := CollectSymbols(st, entries, n);
      && (WellFormed(st) ==> WellFormed(r))
      && st.slots.Keys <= r.slots.Keys
      && st.next <= r.next
      && forall k :: 0 <= k < n && NeedsSlot(entries[k].0, entries[k].1) ==> entries[k].0 in r.slots
  {
    if n > 0 {
      CollectSymbolsCovers(st, entries, n - 1);
    }
  }

  /**
   * `collect_entities` keeps the slots well formed, gives a slot to every name the program
   * mentions, and to every symbol-table entry that needs one.
   */
  lemma {:induction false} CollectEntitiesCovers(st: Slots, program: A.Program, entries: seq<(string, ST.Symbol)>)
    ensures var r := CollectEntities(st, program, entries);
      && (WellFormed(st) ==> WellFormed(r))
      && ItemsNames(program.items, |program.items|) <= r.slots.Keys
      && forall k :: 0 <= k < |entries| && NeedsSlot(entries[k].0, entries[k].1) ==> entries[k].0 in r.slots
  {
    var fromTable := CollectSymbols(st, entries, |entries|);
    CollectSymbolsCovers(st, entries, |entries|);
    CollectItemsGrows(fromTable, program.items, |program.items|);
  }

  // ---------------------------------------------------------------------------------------------
  // Second pass: instructions

  /** The instruction for a binary operator. */
  function BinaryInstruction(op: A.BinaryOperator): I.Instruction {
    match op
    case Add => I.Add
    case Subtract => I.Sub
    case Multiply => I.Mul
    case Divide => I.Div
    case Equal => I.Equal
    case NotEqual => I.NotEqual
    case Less => I.Less
    case Greater => I.Greater
    case LessEqual => I.LessEqual
    case GreaterEqual => I.GreaterEqual
  }

  /** The instruction for a logical operator. */
  function LogicalInstruction(op: A.LogicalOperator): I.Instruction {
    match op
    case And => I.And
    case Or => I.Or
  }

  /** The message of a lookup that finds no slot. */
  function MissingSlot(kind: string, name: string): ZvarError {
    CodegenError(kind + " " + name + " not found in slots")
  }

  /** `generate_expression`: operands first, operator last (post-order). */
  function CompileExpr(slots: map<string, nat>, e: A.Expression): Result<seq<I.Instruction>>
    decreases e, 1
  {
    match e
    case Integer(n, _) => Ok([I.Push(I.Int(n))])
    case String(text, _) => Ok([I.Push(I.Str(text))])
    case Boolean(b, _) => Ok([I.Push(I.Bool(b))])
    case Variable(name, _) =>
      if name in slots then Ok([I.LoadVar(slots[name])]) else Err(MissingSlot("Variable", name))
    case Binary(l, op, r, _) =>
      var lc :- CompileExpr(slots, l);
      var rc :- CompileExpr(slots, r);
      Ok(lc + rc + [BinaryInstruction(op)])
    case Logical(l, op, r, _) =>
      var lc :- CompileExpr(slots, l);
      var rc :- CompileExpr(slots, r);
      Ok(lc + rc + [LogicalInstruction(op)])
    case Unary(_, operand, _) =>
      var oc :- CompileExpr(slots, operand);
      Ok(oc + [I.Not])
    case FunctionCall(name, args, span) =>
      var ac :- CompileArgs(slots, e, |args|);
      if name == "print" then
        if |args| != 1 then Err(WrongArgumentCount(span, name, 1, |args|)) else Ok(ac + [I.Print])
      else
        Ok(ac + [I.Call(name, |args|)])
  }

  /** The code of the first `n` arguments of a call, in order. */
  function CompileArgs(slots: map<string, nat>, call: A.Expression, n: nat): Result<seq<I.Instruction>>
    requires call.FunctionCall? && n <= |call.arguments|
    decreases call, 0, n
  {
    if n == 0 then Ok([])
    else
      var earlier :- CompileArgs(slots, call, n - 1);
      var last :- CompileExpr(slots, call.arguments[n - 1]);
      Ok(earlier + last)
  }

  /** The code stored after evaluating an initialiser or assigned value. */
  function CompileStore(slots: map<string, nat>, kind: string, name: string, value: A.Expression): Result<seq<I.Instruction>> {
    var vc :- CompileExpr(slots, value);
    if name in slots then Ok(vc + [I.StoreVar(slots[name])]) else Err(MissingSlot(kind, name))
  }

  /**
   * The `If` arm of `generate_statement`: the condition, a jump to the else-block (or past the
   * then-block), the then-block, and with an else-block a jump past it and the else-block.
   */
  function CompileIf(slots: map<string, nat>, s: A.Statement, base: nat): Result<seq<I.Instruction>>
    requires s.If?
    decreases s, 0
  {
    var cc :- CompileExpr(slots, s.condition);
    var thenStart := base + |cc| + 1;
    var tc :- CompileBlock(slots, s.thenBlock, |s.thenBlock.statements|, thenStart);
    if s.elseBlock.None? then
      Ok(cc + [I.JumpIfFalse(thenStart + |tc|)] + tc)
    else
      var elseStart := thenStart + |tc| + 1;
      var ec :- CompileBlock(slots, s.elseBlock.value, |s.elseBlock.value.statements|, elseStart);
      Ok(cc + [I.JumpIfFalse(elseStart)] + tc + [I.Jump(elseStart + |ec|)] + ec)
  }

  /** `generate_statement` for a statement whose first instruction lands at index `base`. */
  function CompileStmt(slots: map<string, nat>, s: A.Statement, base: nat): Result<seq<I.Instruction>>
    decreases s, 1
  {
    match s
    case If(_, _, _, _) => CompileIf(slots, s, base)
    case VariableDeclaration(name, _, init, _, _) =>
      if init.None? then Ok([]) else CompileStore(slots, "Variable", name, init.value)
    case ConstantDeclaration(name, _, value, _, _) => CompileStore(slots, "Constant", name, value)
    case Assignment(target, value, _) => CompileStore(slots, "Variable", target, value)
    case Return(value, _) =>
      if value.None? then Ok([I.Return])
      else
        var vc :- CompileExpr(slots, value.value);
        Ok(vc + [I.ReturnValue])
    case Describe(target, description, _) => Ok([I.Describe(target, description)])
    case ExpressionStatement(e) =>
      var ec :- CompileExpr(slots, e);
      if e.FunctionCall? && e.name == "print" then Ok(ec) else Ok(ec + [I.Pop])
  }

  /** `generate_block` over the first `n` statements, the first landing at index `base`. */
  function CompileBlock(slots: map<string, nat>, b: A.Block, n: nat, base: nat): Result<seq<I.Instruction>>
    requires n <= |b.statements|
    decreases b, 0, n
  {
    if n == 0 then Ok([])
    else
      var earlier :- CompileBlock(slots, b, n - 1, base);
      var last :- CompileStmt(slots, b.statements[n - 1], base + |earlier|);
      Ok(earlier + last)
  }

  /** Whether the block's last statement is a `ret`. */
  predicate EndsWithReturn(b: A.Block) {
    |b.statements| > 0 && b.statements[|b.statements| - 1].Return?
  }

  /** Whether an instruction hands control back to the caller. */
  predicate IsReturn(inst: I.Instruction) {
    inst.Return? || inst.ReturnValue?
  }

  /**
   * `generate_function` as written: the implicit `RETURN` is left out whenever the last
   * instruction emitted so far, anywhere in `previous` or the body, is a return.
   */
  function CompileFunctionAsWritten(slots: map<string, nat>, f: A.Function, previous: seq<I.Instruction>): Result<seq<I.Instruction>> {
    var bc :- CompileBlock(slots, f.body, |f.body.statements|, |previous|);
    var all := previous + bc;
    if |all| > 0 && IsReturn(all[|all| - 1]) then Ok(bc) else Ok(bc + [I.Return])
  }

  /** `generate_function` corrected: the implicit `RETURN` is left out only after a trailing `ret`. */
  function CompileFunction(slots: map<string, nat>, f: A.Function, base: nat): Result<seq<I.Instruction>> {
    var bc :- CompileBlock(slots, f.body, |f.body.statements|, base);
    if EndsWithReturn(f.body) then Ok(bc) else Ok(bc + [I.Return])
  }

  /** The main block: its body, then `HALT`. */
  function CompileMain(slots: map<string, nat>, m: A.MainBlock, base: nat): Result<seq<I.Instruction>> {
    var bc :- CompileBlock(slots, m.body, |m.body.statements|, base);
    Ok(bc + [I.Halt])
  }

  /** The bytecode's instructions, entry point and the function starts recorded in the debug information. */
  datatype Layout = Layout(code: seq<I.Instruction>, entryPoint: nat, functionStarts: map<string, nat>)

  /** What a new generator starts from. */
  const EmptyLayout := Layout([], 0, map[])

  /** The second pass of `generate` over the first `n` items, continuing the layout `start`. */
  function LayoutItems(slots: map<string, nat>, items: seq<A.Item>, n: nat, start: Layout): Result<Layout>
    requires n <= |items|
  {
    if n == 0 then Ok(start)
    else
      var l :- LayoutItems(slots, items, n - 1, start);
      var base := |l.code|;
      match items[n - 1]
      case FunctionItem(f) =>
        var fc :- CompileFunction(slots, f, base);
        Ok(Layout(l.code + fc, l.entryPoint, l.functionStarts[f.name := base]))
      case MainItem(m) =>
        var mc :- CompileMain(slots, m, base);
        Ok(Layout(l.code + mc, base, l.functionStarts["main" := base]))
  }

  /** `CodeGenerator::generate` on a generator in slot state `st` holding the layout `start`: both passes. */
  function Generate(st: Slots, start: Layout, program: A.Program, entries: seq<(string, ST.Symbol)>): Result<Layout> {
    LayoutItems(CollectEntities(st, program, entries).slots, program.items, |program.items|, start)
  }
}
