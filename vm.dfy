/**
 * The stack-based virtual machine. Each method is proved to change the machine exactly as the
 * value-level description in vm_semantics.dfy says.
 */
module Vms {
  import opened Common
  import opened Errors
  import opened Values
  import Text
  import I = Instructions
  import opened Stacks
  import opened BuiltinRegistry
  import opened DebugInfos
  import S = VmSemantics

  class VM {
    var stack: Stack
    /** Variable storage indexed by slot; None is an uninitialised slot. */
    var variables: seq<Option<Value>>
    var builtins: Builtins
    var callStack: seq<S.CallFrame>
    var ip: nat
    var bytecode: I.Bytecode?
    var debugInfo: DebugInfo?
    /** Documentation recorded by `DESCRIBE` and copied from debug information. */
    var entityDocs: map<string, string>
    var debugMode: bool
    /** The lines written to standard output by `print`, oldest first. */
    var output: seq<string>

    ghost predicate Valid()
      reads this, stack
    {
      stack.Valid()
    }

    /** The machine state as a value. */
    function State(): S.Machine
      reads this, stack
    {
      S.Machine(stack.values, stack.maxSize, variables, callStack, ip, entityDocs, output)
    }

    /** What execution reads: the loaded code, the debug information's function starts and the built-ins. */
    function Loaded(): S.Program
      requires bytecode != null
      reads this, bytecode, debugInfo, builtins
    {
      S.Program(bytecode.instructions, bytecode.constants,
                if debugInfo == null then None else Some(debugInfo.functionStarts),
                builtins.functions)
    }

    /** The objects the machine holds stay the same ones. */
    twostate predicate SameParts()
      reads this
    {
      stack == old(stack) && builtins == old(builtins) && bytecode == old(bytecode)
      && debugInfo == old(debugInfo) && debugMode == old(debugMode)
    }

    /** `VM::new`: an empty machine with the default stack and the default built-ins. */
    constructor ()
      ensures Valid() && fresh(stack) && fresh(builtins)
      ensures State() == S.Machine([], STACK_SIZE_LIMIT, [], [], 0, map[], [])
      ensures builtins.functions == map["print" := PrintFn]
      ensures bytecode == null && debugInfo == null && !debugMode
    {
      stack := new Stack();
      variables := [];
      builtins := new Builtins();
      callStack := [];
      ip := 0;
      bytecode := null;
      debugInfo := null;
      entityDocs := map[];
      debugMode := false;
      output := [];
    }

    /** `VM::set_debug_mode`: only the flag changes. */
    method SetDebugMode(on: bool)
      modifies this
      ensures debugMode == on
      ensures State() == old(State())
      ensures stack == old(stack) && builtins == old(builtins) && bytecode == old(bytecode) && debugInfo == old(debugInfo)
    {
      debugMode := on;
    }

    /**
     * `VM::load`: sizes the variable storage for the largest slot the code names, starts at the
     * entry point and merges the debug information's documentation into the known documentation.
     */
    method Load(code: I.Bytecode, debug: DebugInfo?)
      requires Valid()
      modifies this
      ensures Valid() && bytecode == code && debugInfo == debug
      ensures stack == old(stack) && builtins == old(builtins) && debugMode == old(debugMode)
      ensures |variables| == S.MaxSlot(code.instructions) + 1
      ensures forall i :: 0 <= i < |variables| ==> variables[i].None?
      ensures ip == code.entryPoint
      ensures debug == null ==> entityDocs == old(entityDocs)
      ensures debug != null ==> entityDocs == old(entityDocs) + debug.entityDocs
      ensures callStack == old(callStack) && output == old(output)
    {
      var maxSlot := MaxSlot(code.instructions);
      variables := seq(maxSlot + 1, _ => None);
      ip := code.entryPoint;
      if debug != null {
        entityDocs := MergeDocs(entityDocs, debug.entityDocs);
      }
      bytecode := code;
      debugInfo := debug;
    }

    /** The scan in `VM::load` for the largest slot a `LOADVAR` or `STOREVAR` names. */
    static method MaxSlot(code: seq<I.Instruction>) returns (maxSlot: nat)
      ensures maxSlot == S.MaxSlot(code)
    {
      maxSlot := 0;
      var i := 0;
      while i < |code|
        invariant 0 <= i <= |code|
        invariant maxSlot == S.MaxSlot(code[..i])
      {
        assert code[..i + 1][..i] == code[..i];
        var named := S.SlotOf(code[i]);
        if named.Some? && named.value > maxSlot {
          maxSlot := named.value;
        }
        i := i + 1;
      }
      assert code[..i] == code;
    }

    /** The loop in `VM::load` that copies every entry of the debug documentation over the known one. */
    static method MergeDocs(known: map<string, string>, source: map<string, string>) returns (docs: map<string, string>)
      ensures docs == known + source
    {
      docs := known;
      var pending := source.Keys;
      while pending != {}
        invariant pending <= source.Keys
        invariant forall k :: k in docs <==> k in known || (k in source && k !in pending)
        invariant forall k :: k in docs ==>
          docs[k] == if k in source && k !in pending then source[k] else known[k]
        decreases pending
      {
        var entity :| entity in pending;
        docs := docs[entity := source[entity]];
        pending := pending - {entity};
      }
    }

    /** `Stack::push` of a value produced by an instruction. */
    method PushValue(v: Value) returns (r: Result<S.Outcome>)
      requires Valid()
      modifies stack
      ensures Valid()
      ensures S.Executed(State(), r) == S.PushValue(old(State()), v)
    {
      var pushed := stack.Push(v);
      if pushed.Err? {
        return Err(pushed.error);
      }
      r := Ok(S.Continue);
    }

    /** The twelve binary instructions share one shape: check, pop `b`, pop `a`, apply, push. */
    method Binary(inst: I.Instruction) returns (r: Result<S.Outcome>)
      requires Valid() && S.IsBinary(inst)
      modifies stack
      ensures Valid()
      ensures S.Executed(State(), r) == S.ExecBinary(old(State()), inst)
    {
      if stack.Len() < 2 {
        return Err(Runtime(S.UnderflowMessage(S.BinaryName(inst), stack.Len(), ip)));
      }
      var b := stack.Pop();
      var a := stack.Pop();
      assert old(stack.values)[..|old(stack.values)| - 1][..|old(stack.values)| - 2] == old(stack.values)[..|old(stack.values)| - 2];
      var result := S.ApplyBinary(inst, a.value, b.value);
      if result.Err? {
        return Err(result.error);
      }
      r := PushValue(result.value);
    }

    /** `NOT`. */
    method Not() returns (r: Result<S.Outcome>)
      requires Valid()
      modifies stack
      ensures Valid()
      ensures S.Executed(State(), r) == S.ExecNot(old(State()))
    {
      if stack.IsEmpty() {
        return Err(Runtime(S.EmptyStackMessage("NOT", ip)));
      }
      var a := stack.Pop();
      var result := LogicalNot(a.value);
      if result.Err? {
        return Err(result.error);
      }
      r := PushValue(result.value);
    }

    /** A registered built-in runs on the stack; what it prints is appended to the output. */
    method CallBuiltin(name: string) returns (r: Result<S.Outcome>)
      requires Valid()
      modifies this, stack
      ensures Valid() && SameParts()
      ensures S.Executed(State(), r) == S.ExecBuiltin(S.Program([], [], None, builtins.functions), old(State()), name)
      ensures variables == old(variables) && callStack == old(callStack) && ip == old(ip) && entityDocs == old(entityDocs)
    {
      var res, printed := builtins.Call(name, stack);
      output := output + printed;
      if res.Err? {
        return Err(res.error);
      }
      r := Ok(S.Continue);
    }

    /** A call of a user function whose code starts at `start`. */
    method CallUser(name: string, argc: nat, start: nat) returns (r: Result<S.Outcome>)
      requires Valid()
      modifies this, stack
      ensures Valid() && SameParts()
      ensures S.Executed(State(), r) == S.ExecUserCall(old(State()), name, argc, start)
    {
      var saved := SaveSlots(variables, argc);
      if argc > |variables| {
        variables := variables + seq(argc - |variables|, _ => None);
      }
      assert variables == S.Grow(old(variables), argc);
      var args := PopArguments(stack, argc);
      if args.Err? {
        return Err(args.error);
      }
      variables := BindArguments(variables, args.value);
      callStack := callStack + [S.CallFrame(ip + 1, name, saved, 0)];
      r := Ok(S.Jump(start));
    }

    /** `CALL name argc`: built-ins first, then user functions located through the debug information. */
    method Call(name: string, argc: nat) returns (r: Result<S.Outcome>)
      requires Valid() && bytecode != null
      modifies this, stack
      ensures Valid() && SameParts()
      ensures S.Executed(State(), r) == S.ExecCall(old(Loaded()), old(State()), name, argc)
    {
      if builtins.IsBuiltin(name) {
        r := CallBuiltin(name);
        return;
      }
      if debugInfo == null {
        return Err(Runtime("No debug info available for function calls"));
      }
      var start := debugInfo.GetFunctionStart(name);
      if start.None? {
        return Err(Runtime("Unknown function: " + name));
      }
      r := CallUser(name, argc, start.value);
    }

    /** `POP`. */
    method Pop() returns (r: Result<S.Outcome>)
      requires Valid()
      modifies stack
      ensures Valid()
      ensures S.Executed(State(), r) == S.ExecPop(old(State()))
    {
      if stack.IsEmpty() {
        return Err(Runtime("Stack underflow: tried to POP from empty stack at IP " + Text.NatToString(ip)));
      }
      var _ := stack.Pop();
      r := Ok(S.Continue);
    }

    /** `DUP`. */
    method Dup() returns (r: Result<S.Outcome>)
      requires Valid()
      modifies stack
      ensures Valid()
      ensures S.Executed(State(), r) == S.ExecDup(old(State()))
    {
      var d := stack.Dup();
      r := if d.Err? then Err(d.error) else Ok(S.Continue);
    }

    /** `LOADVAR slot`. */
    method LoadVar(slot: nat) returns (r: Result<S.Outcome>)
      requires Valid()
      modifies stack
      ensures Valid()
      ensures S.Executed(State(), r) == S.ExecLoadVar(old(State()), slot)
    {
      if slot >= |variables| {
        return Err(Runtime("Invalid variable slot: " + Text.NatToString(slot)));
      }
      if variables[slot].None? {
        return Err(Runtime("Uninitialized variable v$" + Text.NatToString(slot)));
      }
      r := PushValue(variables[slot].value);
    }

    /** `STOREVAR slot`. */
    method StoreVar(slot: nat) returns (r: Result<S.Outcome>)
      requires Valid()
      modifies this, stack
      ensures Valid() && SameParts()
      ensures S.Executed(State(), r) == S.ExecStoreVar(old(State()), slot)
    {
      if stack.IsEmpty() {
        return Err(Runtime(S.EmptyStackMessage("STOREVAR", ip)));
      }
      if slot >= |variables| {
        return Err(Runtime("Invalid variable slot: " + Text.NatToString(slot)));
      }
      var v := stack.Pop();
      variables := variables[slot := Some(v.value)];
      r := Ok(S.Continue);
    }

    /** `LOADCONST index`. */
    method LoadConst(index: nat) returns (r: Result<S.Outcome>)
      requires Valid() && bytecode != null
      modifies stack
      ensures Valid()
      ensures S.Executed(State(), r) == S.ExecLoadConst(old(Loaded()), old(State()), index)
    {
      var c := bytecode.GetConstant(index);
      if c.None? {
        return Err(Runtime("Invalid constant index: " + Text.NatToString(index)));
      }
      r := PushValue(I.ToRuntime(c.value));
    }

    /** `JUMP_IF_FALSE target`. */
    method JumpIfFalse(target: nat) returns (r: Result<S.Outcome>)
      requires Valid()
      modifies stack
      ensures Valid()
      ensures S.Executed(State(), r) == S.ExecJumpIfFalse(old(State()), target)
    {
      if stack.IsEmpty() {
        return Err(Runtime(S.EmptyStackMessage("JUMP_IF_FALSE", ip)));
      }
      var c := stack.Pop();
      r := if !IsTruthy(c.value) then Ok(S.Jump(target)) else Ok(S.Continue);
    }

    /** `PRINT`. */
    method Print() returns (r: Result<S.Outcome>)
      requires Valid()
      modifies this, stack
      ensures Valid() && SameParts()
      ensures S.Executed(State(), r) == S.ExecPrint(S.Program([], [], None, builtins.functions), old(State()))
    {
      if stack.IsEmpty() {
        return Err(Runtime(S.EmptyStackMessage("PRINT", ip)));
      }
      r := CallBuiltin("print");
    }

    /** `VM::execute_instruction`. */
    method ExecuteInstruction(inst: I.Instruction) returns (r: Result<S.Outcome>)
      requires Valid() && bytecode != null
      modifies this, stack
      ensures Valid() && SameParts()
      ensures S.Executed(State(), r) == S.Execute(old(Loaded()), old(State()), inst)
    {
      if S.IsBinary(inst) {
        r := Binary(inst);
      } else if inst.Pop? || inst.Push? || inst.Dup? || inst.Not? {
        r := ExecuteStackInstruction(inst);
      } else if inst.LoadVar? || inst.StoreVar? || inst.LoadConst? {
        r := ExecuteSlotInstruction(inst);
      } else {
        r := ExecuteControlInstruction(inst);
      }
    }

    /** The arms of `execute_instruction` that work on the stack alone: `POP`, `PUSH`, `DUP` and `NOT`. */
    method ExecuteStackInstruction(inst: I.Instruction) returns (r: Result<S.Outcome>)
      requires Valid() && bytecode != null
      requires inst.Pop? || inst.Push? || inst.Dup? || inst.Not?
      modifies this, stack
      ensures Valid() && SameParts()
      ensures S.Executed(State(), r) == S.Execute(old(Loaded()), old(State()), inst)
    {
      match inst {
        case Pop =>
          r := Pop();
        case Push(v) =>
          r := PushValue(I.ToRuntime(v));
        case Dup =>
          r := Dup();
        case Not =>
          r := Not();
      }
    }

    /** The arms of `execute_instruction` for variable slots and constants. */
    method ExecuteSlotInstruction(inst: I.Instruction) returns (r: Result<S.Outcome>)
      requires Valid() && bytecode != null
      requires inst.LoadVar? || inst.StoreVar? || inst.LoadConst?
      modifies this, stack
      ensures Valid() && SameParts()
      ensures S.Executed(State(), r) == S.Execute(old(Loaded()), old(State()), inst)
    {
      match inst {
        case LoadVar(slot) =>
          assert S.Execute(Loaded(), State(), inst) == S.ExecLoadVar(State(), slot);
          r := LoadVar(slot);
        case StoreVar(slot) =>
          assert S.Execute(Loaded(), State(), inst) == S.ExecStoreVar(State(), slot);
          r := StoreVar(slot);
        case LoadConst(index) =>
          assert S.Execute(Loaded(), State(), inst) == S.ExecLoadConst(Loaded(), State(), index);
          r := LoadConst(index);
      }
    }

    /** The arms of `execute_instruction` that call, return, jump, print, describe or stop. */
    method ExecuteControlInstruction(inst: I.Instruction) returns (r: Result<S.Outcome>)
      requires Valid() && bytecode != null && !S.IsBinary(inst)
      requires !(inst.Pop? || inst.Push? || inst.Dup? || inst.Not? || inst.LoadVar? || inst.StoreVar? || inst.LoadConst?)
      modifies this, stack
      ensures Valid() && SameParts()
      ensures S.Executed(State(), r) == S.Execute(old(Loaded()), old(State()), inst)
    {
      match inst {
        case Call(name, argc) =>
          r := Call(name, argc);
        case Return =>
          r := Ok(S.Return);
        case ReturnValue =>
          r := Ok(S.Return);
        case Jump(target) =>
          r := Ok(S.Jump(target));
        case JumpIfFalse(target) =>
          r := JumpIfFalse(target);
        case Print =>
          r := Print();
        case Describe(entity, description) =>
          entityDocs := entityDocs[entity := description];
          r := Ok(S.Continue);
        case Halt =>
          r := Ok(S.Halt);
        case Nop =>
          r := Ok(S.Continue);
      }
    }

    /** The return protocol of `VM::run`: unwind one frame, or finish when there is none. */
    method ReturnFrom() returns (state: S.RunState)
      requires Valid()
      modifies this, stack
      ensures Valid() && SameParts()
      ensures S.Stepped(State(), state) == S.ReturnFrom(old(State()))
    {
      if |callStack| == 0 {
        return S.Finished;
      }
      var frame := callStack[|callStack| - 1];
      callStack := callStack[..|callStack| - 1];
      // keep the return value aside while the caller's slots are restored
      var returnValue: Option<Value> := None;
      if !stack.IsEmpty() {
        var top := stack.Pop();
        returnValue := Some(top.value);
      }
      var restored := RestoreSlots(variables, frame.savedVariables);
      variables := restored;
      if returnValue.Some? {
        // a value was just popped, so pushing it back cannot overflow
        var _ := stack.Push(returnValue.value);
      }
      ip := frame.returnAddress;
      state := S.Running;
    }

    /** One turn of the loop in `VM::run`. */
    method Step() returns (state: S.RunState)
      requires Valid() && bytecode != null
      modifies this, stack
      ensures Valid() && SameParts()
      ensures S.Stepped(State(), state) == S.Step(old(Loaded()), old(State()))
    {
      if ip >= |bytecode.instructions| {
        return S.Finished;
      }
      var inst := bytecode.instructions[ip];
      ghost var m := State();
      var r := ExecuteInstruction(inst);
      S.ExecuteFrame(Loaded(), m, inst);
      match r {
        case Err(e) =>
          state := S.Failed(e);
        case Ok(Continue) =>
          ip := ip + 1;
          state := S.Running;
        case Ok(Jump(target)) =>
          ip := target;
          state := S.Running;
        case Ok(Return) =>
          state := ReturnFrom();
        case Ok(Halt) =>
          state := S.Finished;
      }
    }

    /**
     * `VM::run`, for at most `fuel` turns of its loop: `Ok(true)` when the program stopped
     * (past the end, `HALT`, or a return with no caller), `Ok(false)` when the fuel ran out.
     */
    method Run(fuel: nat) returns (r: Result<bool>)
      requires Valid()
      modifies this, stack
      ensures Valid() && SameParts()
      ensures old(bytecode) == null ==> r == Err(Runtime("No bytecode loaded")) && State() == old(State())
      ensures old(bytecode) != null ==> S.Ran(State(), r) == S.Run(old(Loaded()), old(State()), fuel)
    {
      if bytecode == null {
        return Err(Runtime("No bytecode loaded"));
      }
      var remaining := fuel;
      while remaining > 0
        invariant Valid() && SameParts()
        invariant Loaded() == old(Loaded())
        invariant S.Run(Loaded(), old(State()), fuel) == S.Run(Loaded(), State(), remaining)
      {
        var state := Step();
        remaining := remaining - 1;
        match state {
          case Running =>
          case Finished =>
            return Ok(true);
          case Failed(e) =>
            return Err(e);
        }
      }
      r := Ok(false);
    }

    /**
     * `VM::get_entity_doc`: the lookup of `DebugInfo::get_entity_doc`, on the machine's own map,
     * which `Load` fills from the debug information and `Describe` updates while the program runs.
     */
    function GetEntityDoc(entity: string): (r: Option<string>)
      reads this
      ensures r.Some? <==> entity in entityDocs
      ensures r.Some? ==> r.value == entityDocs[entity]
    {
      if entity in entityDocs then Some(entityDocs[entity]) else None
    }

    /** `VM::reset`: clears the run state and the documentation; the loaded code stays. */
    method Reset()
      requires Valid()
      modifies this, stack
      ensures Valid() && SameParts()
      ensures State() == S.Machine([], old(stack.maxSize), [], [], 0, map[], old(output))
    {
      stack.Clear();
      variables := [];
      callStack := [];
      ip := 0;
      entityDocs := map[];
    }
  }

  /** Copies the caller's values of the slots `0..argc` that the arguments will overwrite. */
  method SaveSlots(variables: seq<Option<Value>>, argc: nat) returns (saved: seq<Option<Value>>)
    ensures saved == S.SavedSlots(variables, argc)
  {
    saved := [];
    var i := 0;
    while i < argc
      invariant 0 <= i <= argc
      invariant |saved| == i
      invariant forall j :: 0 <= j < i ==> saved[j] == (if j < |variables| then variables[j] else None)
    {
      saved := saved + [if i < |variables| then variables[i] else None];
      i := i + 1;
    }
  }

  /**
   * Pops `argc` values, last argument first, and puts them back in call order. When the stack
   * holds fewer values, every value has been popped by the time the error is reported.
   */
  method PopArguments(stack: Stack, argc: nat) returns (r: Result<seq<Value>>)
    requires stack.Valid()
    modifies stack
    ensures stack.Valid() && stack.maxSize == old(stack.maxSize)
    ensures old(|stack.values|) < argc ==> r == Err(StackUnderflow) && stack.values == []
    ensures old(|stack.values|) >= argc ==>
      (r == Ok(old(stack.values)[old(|stack.values|) - argc..]) && stack.values == old(stack.values)[..old(|stack.values|) - argc])
  {
    ghost var below := stack.values;
    var popped: seq<Value> := [];
    var k := 0;
    while k < argc
      invariant stack.Valid() && stack.maxSize == old(stack.maxSize)
      invariant 0 <= k <= argc && k <= |below|
      invariant |popped| == k
      invariant stack.values == below[..|below| - k]
      invariant forall j :: 0 <= j < k ==> popped[j] == below[|below| - 1 - j]
    {
      var top := stack.Pop();
      if top.Err? {
        return Err(top.error);
      }
      assert below[..|below| - k][..|below| - k - 1] == below[..|below| - (k + 1)];
      popped := popped + [top.value];
      k := k + 1;
    }
    var args := seq(|popped|, j requires 0 <= j < |popped| => popped[|popped| - 1 - j]);
    assert args == below[|below| - argc..];
    r := Ok(args);
  }

  /** Stores the arguments into slots 0, 1, ... in order. */
  method BindArguments(variables: seq<Option<Value>>, args: seq<Value>) returns (bound: seq<Option<Value>>)
    requires |args| <= |variables|
    ensures bound == S.BindArguments(variables, args)
  {
    bound := variables;
    var j := 0;
    while j < |args|
      invariant 0 <= j <= |args|
      invariant |bound| == |variables|
      invariant forall t :: 0 <= t < |bound| ==> bound[t] == (if t < j then Some(args[t]) else variables[t])
    {
      bound := bound[j := Some(args[j])];
      j := j + 1;
    }
  }

  /** Puts the saved values back into the slots that still exist. */
  method RestoreSlots(variables: seq<Option<Value>>, saved: seq<Option<Value>>) returns (restored: seq<Option<Value>>)
    ensures restored == S.Restore(variables, saved)
  {
    restored := variables;
    var i := 0;
    while i < |saved|
      invariant 0 <= i <= |saved|
      invariant |restored| == |variables|
      invariant forall t :: 0 <= t < |restored| ==> restored[t] == (if t < i then saved[t] else variables[t])
    {
      if i < |restored| {
        restored := restored[i := saved[i]];
      }
      i := i + 1;
    }
  }

  /** After `load`, every slot the code names exists, so no `LOADVAR`/`STOREVAR` of it reports an invalid slot. */
  lemma {:induction false} LoadedSlotsExist(code: seq<I.Instruction>, variables: seq<Option<Value>>, i: nat)
    requires |variables| == S.MaxSlot(code) + 1
    requires i < |code| && S.SlotOf(code[i]).Some?
    ensures S.SlotOf(code[i]).value < |variables|
  {
    S.MaxSlotIsMaximum(code);
  }
}
