/** The registry of built-in functions and the built-ins themselves. */
module BuiltinRegistry {
  import opened Errors
  import opened Values
  import opened Stacks

  /** The built-in implementations that exist; a registry maps names to these. */
  datatype BuiltinFn = PrintFn | DebugFn | TypeofFn

  /** What running a built-in does: the new stack, its result and the lines it writes to standard output. */
  datatype Effect = Effect(values: seq<Value>, result: Result<()>, printed: seq<string>)

  /** `builtin_print`: peek (an empty stack fails before anything changes), print, then pop. */
  function PrintEffect(values: seq<Value>): Effect {
    if |values| == 0 then Effect(values, Err(StackUnderflow), [])
    else Effect(values[..|values| - 1], Ok(()), [Display(values[|values| - 1])])
  }

  /** `builtin_typeof`: pop a value, then push 1 if it was an integer and 0 otherwise. */
  function TypeofEffect(values: seq<Value>, maxSize: nat): Effect {
    if |values| == 0 then Effect(values, Err(StackUnderflow), [])
    else
      var rest := values[..|values| - 1];
      var typeId := if TypeName(values[|values| - 1]) == "int" then 1 else 0;
      if |rest| >= maxSize then Effect(rest, Err(StackOverflow), [])
      else Effect(rest + [Int(typeId)], Ok(()), [])
  }

  /** The effect of running built-in `f` on a stack of capacity `maxSize`. */
  function Apply(f: BuiltinFn, values: seq<Value>, maxSize: nat): Effect {
    match f
    case PrintFn => PrintEffect(values)
    case DebugFn => Effect(values, Ok(()), [])
    case TypeofFn => TypeofEffect(values, maxSize)
  }

  /** `Builtins::call` as a function of the registry: unknown names are a runtime error and change nothing. */
  function CallEffect(functions: map<string, BuiltinFn>, name: string, values: seq<Value>, maxSize: nat): (e: Effect)
    ensures name !in functions ==> e.values == values && e.result.Err? && e.result.error.RuntimeError? && e.printed == []
    ensures name in functions ==> e == Apply(functions[name], values, maxSize)
  {
    if name in functions then Apply(functions[name], values, maxSize)
    else Effect(values, Err(Runtime("Unknown built-in function: " + name)), [])
  }

  /** `print` on a non-empty stack removes exactly the top value and writes its text. */
  lemma {:induction false} PrintRemovesTop(values: seq<Value>, v: Value)
    ensures PrintEffect(values + [v]) == Effect(values, Ok(()), [Display(v)])
  {
    assert (values + [v])[..|values|] == values;
  }

  /** `print` on an empty stack fails with StackUnderflow, leaves the stack unchanged and writes nothing. */
  lemma {:induction false} PrintOnEmptyStack()
    ensures PrintEffect([]) == Effect([], Err(StackUnderflow), [])
  {
  }

  /** `typeof` replaces the top value by Int(1) for an integer and Int(0) otherwise, keeping the stack size. */
  lemma {:induction false} TypeofReplacesTop(values: seq<Value>, v: Value, maxSize: nat)
    requires |values| + 1 <= maxSize
    ensures TypeofEffect(values + [v], maxSize) == Effect(values + [Int(if v.Int? then 1 else 0)], Ok(()), [])
  {
    assert (values + [v])[..|values|] == values;
  }

  /** `builtin_print` on a stack object. */
  method BuiltinPrint(stack: Stack) returns (r: Result<()>, printed: seq<string>)
    requires stack.Valid()
    modifies stack
    ensures stack.Valid() && stack.maxSize == old(stack.maxSize)
    ensures Effect(stack.values, r, printed) == PrintEffect(old(stack.values))
  {
    var top := stack.Peek();
    if top.Err? {
      return Err(top.error), [];
    }
    printed := [Display(top.value)];
    var popped := stack.Pop();
    r := Ok(());
  }

  /** `builtin_debug`: prints the stack for debugging; the stack is unchanged. */
  method BuiltinDebug(stack: Stack) returns (r: Result<()>, printed: seq<string>)
    requires stack.Valid()
    ensures Effect(stack.values, r, printed) == Effect(stack.values, Ok(()), [])
  {
    r, printed := Ok(()), [];
  }

  /** `builtin_typeof` on a stack object. */
  method BuiltinTypeof(stack: Stack) returns (r: Result<()>, printed: seq<string>)
    requires stack.Valid()
    modifies stack
    ensures stack.Valid() && stack.maxSize == old(stack.maxSize)
    ensures Effect(stack.values, r, printed) == TypeofEffect(old(stack.values), old(stack.maxSize))
  {
    printed := [];
    var popped := stack.Pop();
    if popped.Err? {
      return Err(popped.error), printed;
    }
    var typeId := if TypeName(popped.value) == "int" then 1 else 0;
    r := stack.Push(Int(typeId));
  }

  class Builtins {
    var functions: map<string, BuiltinFn>

    /** `Builtins::new`: a registry holding only `print`. */
    constructor ()
      ensures functions == map["print" := PrintFn]
    {
      functions := map["print" := PrintFn];
    }

    /** `Builtins::register`: adds or replaces one entry. */
    method Register(name: string, f: BuiltinFn)
      modifies this
      ensures functions == old(functions)[name := f]
    {
      functions := functions[name := f];
    }

    /** `Builtins::is_builtin`. */
    predicate IsBuiltin(name: string)
      reads this
    {
      name in functions
    }

    /** `Builtins::call`: runs the registered built-in on the stack. */
    method Call(name: string, stack: Stack) returns (r: Result<()>, printed: seq<string>)
      requires stack.Valid()
      modifies stack
      ensures stack.Valid() && stack.maxSize == old(stack.maxSize)
      ensures Effect(stack.values, r, printed) == CallEffect(functions, name, old(stack.values), old(stack.maxSize))
    {
      if name in functions {
        match functions[name]
        case PrintFn => r, printed := BuiltinPrint(stack);
        case DebugFn => r, printed := BuiltinDebug(stack);
        case TypeofFn => r, printed := BuiltinTypeof(stack);
      } else {
        r, printed := Err(Runtime("Unknown built-in function: " + name)), [];
      }
    }
  }

  /** A fresh registry recognises `print` and no other name. */
  lemma {:induction false} FreshRegistryKnowsOnlyPrint(name: string)
    ensures name in map["print" := PrintFn] <==> name == "print"
  {
  }

  /** After `register(name, f)`, `name` is a built-in and calling it runs `f`; other names keep their meaning. */
  lemma {:induction false} RegisterThenCall(functions: map<string, BuiltinFn>, name: string, f: BuiltinFn, other: string, values: seq<Value>, maxSize: nat)
    ensures CallEffect(functions[name := f], name, values, maxSize) == Apply(f, values, maxSize)
    ensures other != name ==> CallEffect(functions[name := f], other, values, maxSize) == CallEffect(functions, other, values, maxSize)
  {
  }
}
