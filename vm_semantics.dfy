/**
 * The virtual machine described on values: what one instruction does to the machine state,
 * one turn of the run loop (including the return protocol), and a run of bounded length.
 * The `VM` class in vm.dfy is proved to behave exactly like these functions.
 */
module VmSemantics {
  import opened Common
  import opened Errors
  import opened Values
  import Text
  import I = Instructions
  import BR = BuiltinRegistry

  /** A pending call: where to resume, and the caller's parameter slots to put back. */
  datatype CallFrame = CallFrame(returnAddress: nat, functionName: string, savedVariables: seq<Option<Value>>, variableBase: nat)

  /**
   * The parts of the machine that execution changes. `stack` is bottom first and `capacity` is
   * the stack's fixed maximum size; `output` holds the lines written to standard output by `print`.
   */
  datatype Machine = Machine(
    stack: seq<Value>,
    capacity: nat,
    variables: seq<Option<Value>>,
    callStack: seq<CallFrame>,
    ip: nat,
    entityDocs: map<string, string>,
    output: seq<string>)

  /**
   * What execution reads and never changes: the loaded code and constants, the function start
   * indices of the debug information (None when none was loaded) and the built-in registry.
   */
  datatype Program = Program(
    code: seq<I.Instruction>,
    constants: seq<I.Value>,
    functionStarts: Option<map<string, nat>>,
    builtins: map<string, BR.BuiltinFn>)

  /** `ExecutionResult`: what an instruction asks the run loop to do next. */
  datatype Outcome = Continue | Jump(target: nat) | Return | Halt

  /** The machine after one instruction and the instruction's result (errors keep the partial effects). */
  datatype Executed = Executed(m: Machine, r: Result<Outcome>)

  /** The state of the run loop after one turn. */
  datatype RunState = Running | Finished | Failed(error: ZvarError)

  datatype Stepped = Stepped(m: Machine, state: RunState)

  /** The result of a bounded run: `Ok(true)` when the loop stopped by itself, `Ok(false)` when the bound was reached. */
  datatype Ran = Ran(m: Machine, result: Result<bool>)

  /** The stack holds no more values than its capacity. */
  predicate Fits(m: Machine) {
    |m.stack| <= m.capacity
  }

  function UnderflowMessage(op: string, available: nat, ip: nat): string {
    "Stack underflow: " + op + " needs 2 values, only " + Text.NatToString(available) + " available at IP " + Text.NatToString(ip)
  }

  function EmptyStackMessage(op: string, ip: nat): string {
    "Stack underflow: " + op + " needs 1 value, stack is empty at IP " + Text.NatToString(ip)
  }

  /** `Stack::push` on the machine: fails with StackOverflow and changes nothing when the stack is full. */
  function PushValue(m: Machine, v: Value): (e: Executed)
    ensures |m.stack| < m.capacity ==> e == Executed(m.(stack := m.stack + [v]), Ok(Continue))
    ensures |m.stack| >= m.capacity ==> e == Executed(m, Err(StackOverflow))
  {
    if |m.stack| >= m.capacity then Executed(m, Err(StackOverflow))
    else Executed(m.(stack := m.stack + [v]), Ok(Continue))
  }

  predicate IsBinary(inst: I.Instruction) {
    inst.Add? || inst.Sub? || inst.Mul? || inst.Div? || inst.Equal? || inst.NotEqual? || inst.Less?
    || inst.Greater? || inst.LessEqual? || inst.GreaterEqual? || inst.And? || inst.Or?
  }

  /** The name a binary instruction reports in its underflow message. */
  function BinaryName(inst: I.Instruction): string
    requires IsBinary(inst)
  {
    match inst
    case Add => "ADD"
    case Sub => "SUB"
    case Mul => "MUL"
    case Div => "DIV"
    case Equal => "EQUAL"
    case NotEqual => "NOT_EQUAL"
    case Less => "LESS"
    case Greater => "GREATER"
    case LessEqual => "LESS_EQUAL"
    case GreaterEqual => "GREATER_EQUAL"
    case And => "AND"
    case Or => "OR"
  }

  /** The value operation a binary instruction applies to `a` (pushed first) and `b` (the top). */
  function ApplyBinary(inst: I.Instruction, a: Value, b: Value): Result<Value>
    requires IsBinary(inst)
  {
    match inst
    case Add => Values.Add(a, b)
    case Sub => Values.Sub(a, b)
    case Mul => Values.Mul(a, b)
    case Div => Values.Div(a, b)
    case Equal => Values.Equal(a, b)
    case NotEqual => Values.NotEqual(a, b)
    case Less => Values.Less(a, b)
    case Greater => Values.Greater(a, b)
    case LessEqual => Values.LessEqual(a, b)
    case GreaterEqual => Values.GreaterEqual(a, b)
    case And => LogicalAnd(a, b)
    case Or => LogicalOr(a, b)
  }

  /** A binary instruction: check for two operands, pop `b` then `a`, apply, push the result. */
  function ExecBinary(m: Machine, inst: I.Instruction): (e: Executed)
    requires IsBinary(inst)
    ensures e.m == m.(stack := e.m.stack) && (Fits(m) ==> Fits(e.m))
    ensures |m.stack| < 2 ==> e.m == m && e.r.Err? && e.r.error.RuntimeError?
    ensures e.r.Ok? ==> e.r == Ok(Continue) && |e.m.stack| + 1 == |m.stack|
    ensures Fits(m) && |m.stack| >= 2 ==>
      (e.r.Ok? <==> ApplyBinary(inst, m.stack[|m.stack| - 2], m.stack[|m.stack| - 1]).Ok?)
  {
    var n := |m.stack|;
    if n < 2 then Executed(m, Err(Runtime(UnderflowMessage(BinaryName(inst), n, m.ip))))
    else
      var res := ApplyBinary(inst, m.stack[n - 2], m.stack[n - 1]);
      var popped := m.(stack := m.stack[..n - 2]);
      if res.Err? then Executed(popped, Err(res.error)) else PushValue(popped, res.value)
  }

  /** `NOT`: check for an operand, pop it, push its negation. */
  function ExecNot(m: Machine): (e: Executed)
    ensures e.m == m.(stack := e.m.stack) && (Fits(m) ==> Fits(e.m))
  {
    var n := |m.stack|;
    if n == 0 then Executed(m, Err(Runtime(EmptyStackMessage("NOT", m.ip))))
    else
      var res := LogicalNot(m.stack[n - 1]);
      var popped := m.(stack := m.stack[..n - 1]);
      if res.Err? then Executed(popped, Err(res.error)) else PushValue(popped, res.value)
  }

  /** Runs the registered built-in `name` on the machine's stack and appends what it prints. */
  function ExecBuiltin(p: Program, m: Machine, name: string): (e: Executed)
    ensures e.m == m.(stack := e.m.stack, output := e.m.output)
  {
    var e := BR.CallEffect(p.builtins, name, m.stack, m.capacity);
    Executed(m.(stack := e.values, output := m.output + e.printed), if e.result.Ok? then Ok(Continue) else Err(e.result.error))
  }

  /** The caller's slots `0..argc` saved in a call frame; slots that do not exist yet are saved as None. */
  function SavedSlots(variables: seq<Option<Value>>, argc: nat): (saved: seq<Option<Value>>)
    ensures |saved| == argc
    ensures forall i :: 0 <= i < argc ==> saved[i] == (if i < |variables| then variables[i] else None)
  {
    seq(argc, i requires 0 <= i < argc => if i < |variables| then variables[i] else None)
  }

  /** `Vec::resize(argc, None)` when the variable storage is shorter than `argc`. */
  function Grow(variables: seq<Option<Value>>, argc: nat): (grown: seq<Option<Value>>)
    ensures |grown| == if argc > |variables| then argc else |variables|
    ensures forall i :: 0 <= i < |grown| ==> grown[i] == (if i < |variables| then variables[i] else None)
  {
    if argc > |variables| then variables + seq(argc - |variables|, _ => None) else variables
  }

  /** Slots `0..|args|` take the arguments in order; the other slots keep their values. */
  function BindArguments(variables: seq<Option<Value>>, args: seq<Value>): (bound: seq<Option<Value>>)
    requires |args| <= |variables|
    ensures |bound| == |variables|
    ensures forall i :: 0 <= i < |bound| ==> bound[i] == (if i < |args| then Some(args[i]) else variables[i])
  {
    seq(|variables|, i requires 0 <= i < |variables| => if i < |args| then Some(args[i]) else variables[i])
  }

  /** A call of a user function: save slots, grow the storage, pop the arguments, bind them, push a frame and jump. */
  function ExecUserCall(m: Machine, name: string, argc: nat, start: nat): Executed {
    var saved := SavedSlots(m.variables, argc);
    var grown := Grow(m.variables, argc);
    var n := |m.stack|;
    if n < argc then
      Executed(m.(stack := [], variables := grown), Err(StackUnderflow))
    else
      var args := m.stack[n - argc..];
      Executed(
        m.(stack := m.stack[..n - argc],
           variables := BindArguments(grown, args),
           callStack := m.callStack + [CallFrame(m.ip + 1, name, saved, 0)]),
        Ok(Jump(start)))
  }

  /** `CALL name argc`: a built-in runs in place; a user function needs debug information to find its start. */
  function ExecCall(p: Program, m: Machine, name: string, argc: nat): (e: Executed)
    ensures name !in p.builtins && (p.functionStarts.None? || name !in p.functionStarts.value) ==>
      e.m == m && e.r.Err? && e.r.error.RuntimeError?
    ensures name !in p.builtins && p.functionStarts.Some? && name in p.functionStarts.value ==>
      (e.r.Ok? <==> argc <= |m.stack|)
      && (e.r.Ok? ==> e.r == Ok(Jump(p.functionStarts.value[name]))
                      && e.m.callStack == m.callStack + [CallFrame(m.ip + 1, name, SavedSlots(m.variables, argc), 0)]
                      && e.m.stack + m.stack[|m.stack| - argc..] == m.stack)
      && (e.r.Err? ==> e.r == Err(StackUnderflow))
    ensures name in p.builtins ==> e.m.callStack == m.callStack && e.m.variables == m.variables
  {
    if name in p.builtins then ExecBuiltin(p, m, name)
    else if p.functionStarts.None? then Executed(m, Err(Runtime("No debug info available for function calls")))
    else if name !in p.functionStarts.value then Executed(m, Err(Runtime("Unknown function: " + name)))
    else ExecUserCall(m, name, argc, p.functionStarts.value[name])
  }

  /** `POP`: drop the top value. */
  function ExecPop(m: Machine): (e: Executed)
    ensures e.m == m.(stack := e.m.stack) && |e.m.stack| <= |m.stack|
    ensures e.r.Err? <==> |m.stack| == 0
    ensures e.r.Err? ==> e.m == m && e.r.error.RuntimeError?
    ensures e.r.Ok? ==> e.r == Ok(Continue) && e.m.stack + [m.stack[|m.stack| - 1]] == m.stack
  {
    var n := |m.stack|;
    if n == 0 then Executed(m, Err(Runtime("Stack underflow: tried to POP from empty stack at IP " + Text.NatToString(m.ip))))
    else Executed(m.(stack := m.stack[..n - 1]), Ok(Continue))
  }

  /** `DUP`: push a copy of the top value. */
  function ExecDup(m: Machine): (e: Executed)
    ensures e.m == m.(stack := e.m.stack) && (Fits(m) ==> Fits(e.m))
  {
    var n := |m.stack|;
    if n == 0 then Executed(m, Err(StackUnderflow)) else PushValue(m, m.stack[n - 1])
  }

  /** `LOADVAR slot`: push the value of an existing, initialised slot. */
  function ExecLoadVar(m: Machine, slot: nat): (e: Executed)
    ensures e.m == m.(stack := e.m.stack) && (Fits(m) ==> Fits(e.m))
    ensures slot >= |m.variables| || m.variables[slot].None? ==> e.m == m && e.r.Err? && e.r.error.RuntimeError?
    ensures slot < |m.variables| && m.variables[slot].Some? && |m.stack| >= m.capacity ==> e == Executed(m, Err(StackOverflow))
    ensures e.r.Ok? ==> e.r == Ok(Continue) && slot < |m.variables| && e.m.stack == m.stack + [m.variables[slot].value]
  {
    if slot >= |m.variables| then Executed(m, Err(Runtime("Invalid variable slot: " + Text.NatToString(slot))))
    else if m.variables[slot].None? then Executed(m, Err(Runtime("Uninitialized variable v$" + Text.NatToString(slot))))
    else PushValue(m, m.variables[slot].value)
  }

  /** `STOREVAR slot`: pop the top value into an existing slot. */
  function ExecStoreVar(m: Machine, slot: nat): (e: Executed)
    ensures e.m == m.(stack := e.m.stack, variables := e.m.variables)
    ensures |e.m.variables| == |m.variables| && |e.m.stack| <= |m.stack|
    ensures e.r.Err? <==> |m.stack| == 0 || slot >= |m.variables|
    ensures e.r.Err? ==> e.m == m && e.r.error.RuntimeError?
    ensures e.r.Ok? ==> e.r == Ok(Continue) && e.m.stack + [m.stack[|m.stack| - 1]] == m.stack
                        && e.m.variables == m.variables[slot := Some(m.stack[|m.stack| - 1])]
  {
    var n := |m.stack|;
    if n == 0 then Executed(m, Err(Runtime(EmptyStackMessage("STOREVAR", m.ip))))
    else if slot >= |m.variables| then Executed(m, Err(Runtime("Invalid variable slot: " + Text.NatToString(slot))))
    else Executed(m.(stack := m.stack[..n - 1], variables := m.variables[slot := Some(m.stack[n - 1])]), Ok(Continue))
  }

  /** `LOADCONST index`: push an entry of the constant pool. */
  function ExecLoadConst(p: Program, m: Machine, index: nat): (e: Executed)
    ensures e.m == m.(stack := e.m.stack) && (Fits(m) ==> Fits(e.m))
  {
    if index >= |p.constants| then Executed(m, Err(Runtime("Invalid constant index: " + Text.NatToString(index))))
    else PushValue(m, I.ToRuntime(p.constants[index]))
  }

  /** `JUMP_IF_FALSE target`: pop the condition and jump when it is falsy. */
  function ExecJumpIfFalse(m: Machine, target: nat): (e: Executed)
    ensures e.m == m.(stack := e.m.stack) && |e.m.stack| <= |m.stack|
  {
    var n := |m.stack|;
    if n == 0 then Executed(m, Err(Runtime(EmptyStackMessage("JUMP_IF_FALSE", m.ip))))
    else
      var popped := m.(stack := m.stack[..n - 1]);
      if !IsTruthy(m.stack[n - 1]) then Executed(popped, Ok(Outcome.Jump(target))) else Executed(popped, Ok(Continue))
  }

  /** `PRINT`: the `print` built-in on a non-empty stack. */
  function ExecPrint(p: Program, m: Machine): (e: Executed)
    ensures e.m == m.(stack := e.m.stack, output := e.m.output)
  {
    if |m.stack| == 0 then Executed(m, Err(Runtime(EmptyStackMessage("PRINT", m.ip))))
    else ExecBuiltin(p, m, "print")
  }

  /** `VM::execute_instruction`. It never moves `ip`; the run loop does that from the outcome. */
  function Execute(p: Program, m: Machine, inst: I.Instruction): Executed {
    match inst
    case Pop => ExecPop(m)
    case Push(v) => PushValue(m, I.ToRuntime(v))
    case Dup => ExecDup(m)
    case Not => ExecNot(m)
    case LoadVar(slot) => ExecLoadVar(m, slot)
    case StoreVar(slot) => ExecStoreVar(m, slot)
    case LoadConst(index) => ExecLoadConst(p, m, index)
    case Call(name, argc) => ExecCall(p, m, name, argc)
    case Return => Executed(m, Ok(Outcome.Return))
    case ReturnValue => Executed(m, Ok(Outcome.Return))
    case Jump(target) => Executed(m, Ok(Outcome.Jump(target)))
    case JumpIfFalse(target) => ExecJumpIfFalse(m, target)
    case Print => ExecPrint(p, m)
    case Describe(entity, description) => Executed(m.(entityDocs := m.entityDocs[entity := description]), Ok(Continue))
    case Halt => Executed(m, Ok(Outcome.Halt))
    case Nop => Executed(m, Ok(Continue))
    case _ => ExecBinary(m, inst)
  }

  /** Slots that exist in both take the saved value; slots beyond the saved ones keep theirs. */
  function Restore(variables: seq<Option<Value>>, saved: seq<Option<Value>>): (restored: seq<Option<Value>>)
    ensures |restored| == |variables|
    ensures forall i :: 0 <= i < |variables| ==> restored[i] == (if i < |saved| then saved[i] else variables[i])
  {
    seq(|variables|, i requires 0 <= i < |variables| => if i < |saved| then saved[i] else variables[i])
  }

  /**
   * The return protocol of the run loop: with no frame the program ends; otherwise pop the frame,
   * keep the top value aside, restore the caller's slots, push the value back and resume the caller.
   */
  function ReturnFrom(m: Machine): Stepped {
    if |m.callStack| == 0 then Stepped(m, Finished)
    else
      var frame := m.callStack[|m.callStack| - 1];
      var unwound := m.(callStack := m.callStack[..|m.callStack| - 1], variables := Restore(m.variables, frame.savedVariables));
      var n := |m.stack|;
      if n == 0 then Stepped(unwound.(ip := frame.returnAddress), Running)
      else
        var rest := m.stack[..n - 1];
        if |rest| >= m.capacity then Stepped(unwound.(stack := rest), Failed(StackOverflow))
        else Stepped(unwound.(stack := rest + [m.stack[n - 1]], ip := frame.returnAddress), Running)
  }

  /** One turn of `VM::run`: stop past the end of the code, otherwise execute and act on the outcome. */
  function Step(p: Program, m: Machine): (s: Stepped)
    ensures m.ip >= |p.code| ==> s == Stepped(m, Finished)
    ensures m.ip < |p.code| ==> var e := Execute(p, m, p.code[m.ip]);
      && (e.r.Err? ==> s == Stepped(e.m, Failed(e.r.error)))
      && (e.r == Ok(Continue) ==> s.state == Running && s.m == e.m.(ip := m.ip + 1) && s.m.ip == m.ip + 1)
      && (e.r.Ok? && e.r.value.Jump? ==> s.state == Running && s.m == e.m.(ip := e.r.value.target) && s.m.ip == e.r.value.target)
      && (e.r == Ok(Halt) ==> s == Stepped(e.m, Finished))
      && (e.r == Ok(Outcome.Return) ==> s == ReturnFrom(e.m))
  {
    if m.ip >= |p.code| then Stepped(m, Finished)
    else
      var e := Execute(p, m, p.code[m.ip]);
      match e.r
      case Err(err) => Stepped(e.m, Failed(err))
      case Ok(Continue) => Stepped(e.m.(ip := m.ip + 1), Running)
      case Ok(Jump(target)) => Stepped(e.m.(ip := target), Running)
      case Ok(Return) => ReturnFrom(e.m)
      case Ok(Halt) => Stepped(e.m, Finished)
  }

  /** At most `fuel` turns of the run loop. */
  function Run(p: Program, m: Machine, fuel: nat): Ran
    decreases fuel
  {
    if fuel == 0 then Ran(m, Ok(false))
    else
      var s := Step(p, m);
      match s.state
      case Running => Run(p, s.m, fuel - 1)
      case Finished => Ran(s.m, Ok(true))
      case Failed(err) => Ran(s.m, Err(err))
  }

  /** The variable slot a `LOADVAR` or `STOREVAR` names. */
  function SlotOf(inst: I.Instruction): Option<nat> {
    match inst
    case LoadVar(slot) => Some(slot)
    case StoreVar(slot) => Some(slot)
    case _ => None
  }

  /** The largest slot named in `code`, or 0 when no instruction names one (`VM::load`). */
  function MaxSlot(code: seq<I.Instruction>): nat {
    if |code| == 0 then 0
    else
      var earlier := MaxSlot(code[..|code| - 1]);
      match SlotOf(code[|code| - 1])
      case Some(slot) => if slot > earlier then slot else earlier
      case None => earlier
  }

  /** `MaxSlot` is the maximum: it bounds every named slot and is one of them (or 0). */
  lemma {:induction false} MaxSlotIsMaximum(code: seq<I.Instruction>)
    ensures forall i :: 0 <= i < |code| && SlotOf(code[i]).Some? ==> SlotOf(code[i]).value <= MaxSlot(code)
    ensures MaxSlot(code) == 0 || exists i :: 0 <= i < |code| && SlotOf(code[i]) == Some(MaxSlot(code))
    decreases |code|
  {
    if |code| > 0 {
      var init := code[..|code| - 1];
      MaxSlotIsMaximum(init);
      assert forall i :: 0 <= i < |init| ==> init[i] == code[i];
    }
  }

  // ---------------------------------------------------------------- properties

  /** An instruction never moves `ip`, never shrinks the variable storage and only `CALL` pushes a frame. */
  lemma {:induction false} ExecuteFrame(p: Program, m: Machine, inst: I.Instruction)
    ensures Execute(p, m, inst).m.ip == m.ip
    ensures Execute(p, m, inst).m.capacity == m.capacity
    ensures |Execute(p, m, inst).m.variables| >= |m.variables|
    ensures !inst.Call? ==> Execute(p, m, inst).m.callStack == m.callStack
    ensures inst.Call? ==> Execute(p, m, inst).m.callStack == m.callStack
                           || (|Execute(p, m, inst).m.callStack| == |m.callStack| + 1
                               && Execute(p, m, inst).m.callStack[..|m.callStack|] == m.callStack)
  {
    match inst
    case Call(_, _) =>
      var e := Execute(p, m, inst);
      if e.m.callStack != m.callStack {
        assert e.m.callStack[..|m.callStack|] == m.callStack;
      }
    case _ =>
  }

  /** A built-in never leaves more values on the stack than its capacity allows. */
  lemma {:induction false} BuiltinKeepsFits(p: Program, m: Machine, name: string)
    requires Fits(m)
    ensures Fits(ExecBuiltin(p, m, name).m)
  {
    if name in p.builtins {
      match p.builtins[name]
      case PrintFn =>
      case DebugFn =>
      case TypeofFn =>
    }
  }

  /** No instruction pushes past the capacity. */
  lemma {:induction false} ExecuteKeepsFits(p: Program, m: Machine, inst: I.Instruction)
    requires Fits(m)
    ensures Fits(Execute(p, m, inst).m)
  {
    match inst
    case Call(name, argc) =>
      if name in p.builtins {
        BuiltinKeepsFits(p, m, name);
      }
    case Print =>
      if |m.stack| > 0 {
        BuiltinKeepsFits(p, m, "print");
      }
    case Push(v) =>
    case Pop =>
    case Dup =>
    case Not =>
    case LoadVar(_) =>
    case StoreVar(_) =>
    case LoadConst(_) =>
    case JumpIfFalse(_) =>
    case _ =>
  }

  /** The stack never grows past its capacity: every turn of the run loop keeps `Fits`. */
  lemma {:induction false} StepKeepsFits(p: Program, m: Machine)
    requires Fits(m)
    ensures Fits(Step(p, m).m)
  {
    if m.ip < |p.code| {
      ExecuteKeepsFits(p, m, p.code[m.ip]);
      ExecuteFrame(p, m, p.code[m.ip]);
    }
  }

  /** Every run keeps the stack within its capacity. */
  lemma {:induction false} RunKeepsFits(p: Program, m: Machine, fuel: nat)
    requires Fits(m)
    ensures Fits(Run(p, m, fuel).m)
    decreases fuel
  {
    if fuel > 0 {
      StepKeepsFits(p, m);
      var s := Step(p, m);
      if s.state.Running? {
        RunKeepsFits(p, s.m, fuel - 1);
      }
    }
  }

  /**
   * An instruction that takes an operand from the stack fails with a runtime error, and changes
   * nothing, when the stack is empty.
   */
  lemma {:induction false} MissingOperandFails(p: Program, m: Machine, inst: I.Instruction)
    requires inst.Pop? || inst.Not? || inst.StoreVar? || inst.JumpIfFalse? || inst.Print?
    requires |m.stack| == 0
    ensures Execute(p, m, inst).m == m
    ensures Execute(p, m, inst).r.Err? && Execute(p, m, inst).r.error.RuntimeError?
  {
  }

  /** A binary operator fails with a runtime error, and changes nothing, without two operands on the stack. */
  lemma {:induction false} MissingOperandsFail(p: Program, m: Machine, inst: I.Instruction)
    requires IsBinary(inst) && |m.stack| < 2
    ensures Execute(p, m, inst).m == m
    ensures Execute(p, m, inst).r.Err? && Execute(p, m, inst).r.error.RuntimeError?
  {
    assert Execute(p, m, inst) == ExecBinary(m, inst);
  }

  /**
   * A `LOADVAR` of a slot that does not exist or was never written, and a `STOREVAR` to a slot
   * that does not exist, fail with a runtime error and change nothing.
   */
  lemma {:induction false} BadSlotFails(p: Program, m: Machine, inst: I.Instruction)
    requires (inst.LoadVar? && (inst.slot >= |m.variables| || m.variables[inst.slot].None?))
             || (inst.StoreVar? && inst.slot >= |m.variables|)
    ensures Execute(p, m, inst).m == m
    ensures Execute(p, m, inst).r.Err? && Execute(p, m, inst).r.error.RuntimeError?
  {
  }

  /**
   * A `CALL` of a name that is neither a built-in nor a function the debug information knows,
   * or made without debug information, is a runtime error that changes nothing.
   */
  lemma {:induction false} UnknownCallFails(p: Program, m: Machine, name: string, argc: nat)
    requires name !in p.builtins && (p.functionStarts.None? || name !in p.functionStarts.value)
    ensures Execute(p, m, I.Call(name, argc)).m == m
    ensures Execute(p, m, I.Call(name, argc)).r.Err? && Execute(p, m, I.Call(name, argc)).r.error.RuntimeError?
  {
  }

  /** The run stops with `Ok` past the end of the code, and with the error of the first instruction that fails. */
  lemma {:induction false} RunStops(p: Program, m: Machine, fuel: nat)
    ensures m.ip >= |p.code| ==> Run(p, m, fuel + 1) == Ran(m, Ok(true))
    ensures m.ip < |p.code| && Execute(p, m, p.code[m.ip]).r.Err? ==>
      Run(p, m, fuel + 1) == Ran(Execute(p, m, p.code[m.ip]).m, Err(Execute(p, m, p.code[m.ip]).r.error))
    ensures m.ip < |p.code| && Execute(p, m, p.code[m.ip]).r == Ok(Continue) ==>
      Run(p, m, fuel + 1) == Run(p, Execute(p, m, p.code[m.ip]).m.(ip := m.ip + 1), fuel)
  {
    var s := Step(p, m);
    assert Run(p, m, fuel + 1) == if s.state.Running? then Run(p, s.m, fuel)
                                  else if s.state.Finished? then Ran(s.m, Ok(true))
                                  else Ran(s.m, Err(s.state.error));
  }

  /** A binary instruction replaces its two operands by the operation's result. */
  lemma {:induction false} BinaryStackEffect(p: Program, m: Machine, inst: I.Instruction, below: seq<Value>, a: Value, b: Value)
    requires IsBinary(inst) && Fits(m)
    requires m.stack == below + [a, b]
    ensures ApplyBinary(inst, a, b).Ok? ==>
      Execute(p, m, inst) == Executed(m.(stack := below + [ApplyBinary(inst, a, b).value]), Ok(Continue))
    ensures ApplyBinary(inst, a, b).Err? ==>
      Execute(p, m, inst) == Executed(m.(stack := below), Err(ApplyBinary(inst, a, b).error))
  {
    assert m.stack[..|m.stack| - 2] == below;
    assert m.stack[|m.stack| - 2] == a && m.stack[|m.stack| - 1] == b;
  }

  /** Storing the top of the stack into a slot and loading that slot gives the stack back unchanged. */
  lemma {:induction false} StoreThenLoad(p: Program, m: Machine, slot: nat, below: seq<Value>, v: Value)
    requires Fits(m) && m.stack == below + [v] && slot < |m.variables|
    ensures Execute(p, m, I.StoreVar(slot)).r == Ok(Continue)
    ensures Execute(p, Execute(p, m, I.StoreVar(slot)).m, I.LoadVar(slot))
            == Executed(m.(variables := m.variables[slot := Some(v)]), Ok(Continue))
  {
    assert m.stack[..|m.stack| - 1] == below;
  }

  /** `JUMP_IF_FALSE` pops its condition and jumps exactly when the condition is falsy. */
  lemma {:induction false} JumpIfFalseBranches(p: Program, m: Machine, target: nat, below: seq<Value>, c: Value)
    requires m.stack == below + [c]
    ensures Execute(p, m, I.JumpIfFalse(target)).m == m.(stack := below)
    ensures Execute(p, m, I.JumpIfFalse(target)).r == (if IsTruthy(c) then Ok(Continue) else Ok(Outcome.Jump(target)))
  {
    assert m.stack[..|m.stack| - 1] == below;
  }

  /**
   * A user call followed, once the callee is done, by a return gives the caller its state back:
   * the call frame is gone, the caller's parameter slots hold their old values, execution resumes
   * right after the `CALL`, and the callee's top value is left on top of the caller's stack.
   */
  lemma {:induction false} CallThenReturn(p: Program, m: Machine, name: string, argc: nat, args: seq<Value>, below: seq<Value>,
                       after: Machine, result: Value, calleeRest: seq<Value>)
    requires name !in p.builtins && p.functionStarts.Some? && name in p.functionStarts.value
    requires |args| == argc && m.stack == below + args && Fits(m)
    // the callee runs from the state the call produced and leaves `result` on top of the stack,
    // with its frame still on the call stack and no slots added
    requires after.callStack == Execute(p, m, I.Call(name, argc)).m.callStack
    requires |after.variables| == |Execute(p, m, I.Call(name, argc)).m.variables|
    requires after.stack == calleeRest + [result] && |calleeRest| < after.capacity
    ensures Execute(p, m, I.Call(name, argc)).r == Ok(Outcome.Jump(p.functionStarts.value[name]))
    ensures ReturnFrom(after).state == Running
    ensures ReturnFrom(after).m.callStack == m.callStack
    ensures ReturnFrom(after).m.ip == m.ip + 1
    ensures ReturnFrom(after).m.stack == calleeRest + [result]
    ensures forall i :: 0 <= i < argc && i < |m.variables| ==> ReturnFrom(after).m.variables[i] == m.variables[i]
  {
    var e := Execute(p, m, I.Call(name, argc));
    assert m.stack[|m.stack| - argc..] == args;
    assert e.m.callStack == m.callStack + [CallFrame(m.ip + 1, name, SavedSlots(m.variables, argc), 0)];
    assert after.callStack[..|after.callStack| - 1] == m.callStack;
    assert after.stack[..|after.stack| - 1] == calleeRest;
  }

  /** A `PUSH` with room on the stack appends the value and moves on to the next instruction. */
  lemma {:induction false} PushRuns(p: Program, m: Machine, v: I.Value, fuel: nat)
    requires m.ip < |p.code| && p.code[m.ip] == I.Push(v) && |m.stack| < m.capacity
    ensures Run(p, m, fuel + 1) == Run(p, m.(stack := m.stack + [I.ToRuntime(v)], ip := m.ip + 1), fuel)
  {
    assert Execute(p, m, I.Push(v)) == Executed(m.(stack := m.stack + [I.ToRuntime(v)]), Ok(Continue));
    RunStops(p, m, fuel);
  }

  /** The code of the run below. */
  const ArithmeticCode := [I.Push(I.Int(5)), I.Push(I.Int(3)), I.Add, I.Halt]

  /** The last two turns of the run below: `ADD` leaves 8, `HALT` stops. */
  lemma {:induction false} AddThenHalt(p: Program)
    requires p.code == ArithmeticCode
    ensures Run(p, Machine([Int(5), Int(3)], 1024, [None], [], 2, map[], []), 2)
            == Ran(Machine([Int(8)], 1024, [None], [], 3, map[], []), Ok(true))
  {
    var m2 := Machine([Int(5), Int(3)], 1024, [None], [], 2, map[], []);
    var m3 := Machine([Int(8)], 1024, [None], [], 3, map[], []);
    assert m2.stack[..0] == [];
    assert Values.Add(Int(5), Int(3)) == Ok(Int(8));
    assert Execute(p, m2, I.Add) == Executed(m3.(ip := 2), Ok(Continue));
    assert Execute(p, m3, I.Halt) == Executed(m3, Ok(Outcome.Halt));
  }

  /** The first two turns of the run below: the two `PUSH`es leave 5 and 3 on the stack. */
  lemma {:induction false} PushTwice(p: Program)
    requires p.code == ArithmeticCode
    ensures Run(p, Machine([], 1024, [None], [], 0, map[], []), 4)
            == Run(p, Machine([Int(5), Int(3)], 1024, [None], [], 2, map[], []), 2)
  {
    var m0 := Machine([], 1024, [None], [], 0, map[], []);
    var m1 := Machine([Int(5)], 1024, [None], [], 1, map[], []);
    var m2 := Machine([Int(5), Int(3)], 1024, [None], [], 2, map[], []);
    PushRuns(p, m0, I.Int(5), 3);
    assert m0.(stack := m0.stack + [I.ToRuntime(I.Int(5))], ip := m0.ip + 1) == m1;
    PushRuns(p, m1, I.Int(3), 2);
    assert m1.(stack := m1.stack + [I.ToRuntime(I.Int(3))], ip := m1.ip + 1) == m2;
  }

  /** The program `PUSH 5; PUSH 3; ADD; HALT` ends with 8 on the stack. */
  lemma {:induction false} BasicArithmeticRun(constants: seq<I.Value>, starts: Option<map<string, nat>>, builtins: map<string, BR.BuiltinFn>)
    ensures Run(Program(ArithmeticCode, constants, starts, builtins), Machine([], 1024, [None], [], 0, map[], []), 4)
            == Ran(Machine([Int(8)], 1024, [None], [], 3, map[], []), Ok(true))
  {
    var p := Program(ArithmeticCode, constants, starts, builtins);
    PushTwice(p);
    AddThenHalt(p);
  }
}
