/** The bytecode instruction set, constant values, and the bytecode container with its disassembler. */
module Instructions {
  import opened Common
  import opened Text
  import Values

  /** The values an instruction can carry (a separate type from the runtime values). */
  datatype Value = Int(i: i64) | Str(s: string) | Bool(b: bool)

  datatype Instruction =
    | Push(value: Value) | Pop | Dup
    | Add | Sub | Mul | Div
    | Equal | NotEqual | Less | Greater | LessEqual | GreaterEqual
    | And | Or | Not
    | LoadVar(slot: nat) | StoreVar(slot: nat) | LoadConst(index: nat)
    | Call(name: string, argc: nat) | Return | ReturnValue
    | Jump(target: nat) | JumpIfFalse(target: nat)
    | Print | Describe(entity: string, description: string)
    | Halt | Nop

  /** `instruction::Value::is_truthy`. */
  predicate IsTruthy(v: Value) {
    match v
    case Int(n) => n != 0
    case Str(s) => |s| > 0
    case Bool(b) => b
  }

  /** `instruction::Value::type_name`. */
  function TypeName(v: Value): string {
    match v
    case Int(_) => "int"
    case Str(_) => "str"
    case Bool(_) => "bool"
  }

  /** `Display for instruction::Value`. */
  function ValueDisplay(v: Value): string {
    match v
    case Int(n) => IntToString(n)
    case Str(s) => s
    case Bool(b) => if b then "true" else "false"
  }

  /** `From<instruction::Value> for vm::Value`: the runtime value a `PUSH` or `LOADCONST` produces. */
  function ToRuntime(v: Value): (r: Values.Value)
    ensures IsTruthy(v) <==> Values.IsTruthy(r)
    ensures TypeName(v) == Values.TypeName(r)
    ensures ValueDisplay(v) == Values.Display(r)
  {
    match v
    case Int(n) => Values.Int(n)
    case Str(s) => Values.Str(s)
    case Bool(b) => Values.Bool(b)
  }

  /** `Display for Instruction`. */
  function Display(inst: Instruction): string {
    match inst
    case Push(v) => "PUSH " + ValueDisplay(v)
    case Pop => "POP"
    case Dup => "DUP"
    case Add => "ADD"
    case Sub => "SUB"
    case Mul => "MUL"
    case Div => "DIV"
    case Equal => "EQUAL"
    case NotEqual => "NOT_EQUAL"
    case Less => "LESS"
    case Greater => "GREATER"
    case LessEqual => "LESS_EQUAL"
    case GreaterEqual => "GREATER_EQUAL"
    case And => "AND"
    case Or => "OR"
    case Not => "NOT"
    case LoadVar(n) => "LOADVAR v$" + NatToString(n)
    case StoreVar(n) => "STOREVAR v$" + NatToString(n)
    case LoadConst(n) => "LOADCONST c$" + NatToString(n)
    case Call(name, argc) => "CALL " + name + " " + NatToString(argc)
    case Return => "RETURN"
    case ReturnValue => "RETURN_VALUE"
    case Jump(a) => "JUMP " + NatToString(a)
    case JumpIfFalse(a) => "JUMP_IF_FALSE " + NatToString(a)
    case Print => "PRINT"
    case Describe(e, d) => "DESCRIBE " + e + " \"" + d + "\""
    case Halt => "HALT"
    case Nop => "NOP"
  }

  /** A character that `{:?}` on a string writes as an escape: a backslash, a quote or an ASCII control character. */
  predicate NeedsEscape(c: char) {
    c == '\\' || c == '"' || (c as int) < 32 || (c as int) == 127
  }

  /** The lower-case hexadecimal digit of `d`. */
  function HexDigit(d: nat): (c: char)
    requires d < 16
    ensures !NeedsEscape(c)
  {
    if d < 10 then '0' + (d as char) else 'a' + ((d - 10) as char)
  }

  /** `{:x}`: lower-case hexadecimal without leading zeros. */
  function HexLower(n: nat): (s: string)
    ensures |s| >= 1 && forall i :: 0 <= i < |s| ==> !NeedsEscape(s[i])
    decreases n
  {
    if n < 16 then [HexDigit(n)] else HexLower(n / 16) + [HexDigit(n % 16)]
  }

  /**
   * One character as `{:?}` writes it inside a string: `\\`, `\"`, `\n`, `\t`, `\r` and `\0`
   * for those characters, `\u{..}` in hexadecimal for the other ASCII control characters, and
   * every other character as it is.
   */
  function EscapeDebugChar(c: char): (r: string)
    ensures !NeedsEscape(c) <==> r == [c]
    ensures NeedsEscape(c) ==> |r| >= 2 && r[0] == '\\'
  {
    if c == '\\' then "\\\\"
    else if c == '"' then "\\\""
    else if c == '\n' then "\\n"
    else if c == '\t' then "\\t"
    else if c == '\r' then "\\r"
    else if c == '\0' then "\\0"
    else if NeedsEscape(c) then "\\u{" + HexLower(c as int) + "}"
    else [c]
  }

  /** `{:?}` on a string, without its surrounding quotes. */
  function EscapeDebug(s: string): (r: string)
    ensures |r| >= |s|
    ensures (forall i :: 0 <= i < |s| ==> !NeedsEscape(s[i])) ==> r == s
    decreases |s|
  {
    if s == [] then [] else EscapeDebugChar(s[0]) + EscapeDebug(s[1..])
  }

  /** Escaping works character by character, so it distributes over concatenation. */
  lemma {:induction false} EscapeDebugConcat(s: string, t: string)
    ensures EscapeDebug(s + t) == EscapeDebug(s) + EscapeDebug(t)
    decreases |s|
  {
    if s != [] {
      assert (s + t)[1..] == s[1..] + t;
      EscapeDebugConcat(s[1..], t);
    } else {
      assert s + t == t;
    }
  }

  /** The literal `"a\"b"` keeps its escape as written, and `{:?}` escapes both of its special characters again. */
  lemma EscapedQuoteConstant()
    ensures EscapeDebug("a\\\"b") == "a\\\\\\\"b"
  {
    var s := ['a', '\\', '"', 'b'];
    assert EscapeDebug(s[3..]) == ['b'];
    assert EscapeDebug(s[2..]) == ['\\', '"', 'b'];
    assert EscapeDebug(s[1..]) == ['\\', '\\', '\\', '"', 'b'];
    assert EscapeDebug(s) == ['a', '\\', '\\', '\\', '"', 'b'];
  }

  /** The `{:?}` rendering of one constant: strings are quoted and escaped. */
  function ValueDebug(v: Value): string {
    match v
    case Int(n) => "Int(" + IntToString(n) + ")"
    case Str(s) => "Str(\"" + EscapeDebug(s) + "\")"
    case Bool(b) => if b then "Bool(true)" else "Bool(false)"
  }

  /** The `{:?}` rendering of the constant pool. */
  function ConstantsDebug(constants: seq<Value>): string {
    var items := seq(|constants|, i requires 0 <= i < |constants| => ValueDebug(constants[i]));
    "[" + Join(items, ", ") + "]"
  }

  /** `{:04}`: the decimal index left-padded with zeros to at least four digits. */
  function Pad4(n: nat): (s: string)
    ensures |s| >= 4 && AllDigits(s)
  {
    var d := NatToString(n);
    if |d| >= 4 then d else seq(4 - |d|, _ => '0') + d
  }

  /** The disassembly line of instruction `i`: a marker, the padded index and the instruction. */
  function Line(i: nat, inst: Instruction, entryPoint: nat): string {
    (if i == entryPoint then ">" else " ") + " " + Pad4(i) + " " + Display(inst) + "\n"
  }

  const TITLE := "=== Bytecode Disassembly ===\n"
  const ENTRY_LABEL := "Entry point: "
  const CONSTANTS_LABEL := "Constants: "

  /** The header printed before the instruction listing. */
  function Header(entryPoint: nat, constants: seq<Value>): string {
    TITLE + ENTRY_LABEL + NatToString(entryPoint) + "\n" + CONSTANTS_LABEL + ConstantsDebug(constants) + "\n\n"
  }

  /** The listing of `instructions[..n]`, one line per instruction. */
  function Listing(instructions: seq<Instruction>, entryPoint: nat, n: nat): string
    requires n <= |instructions|
  {
    if n == 0 then "" else Listing(instructions, entryPoint, n - 1) + Line(n - 1, instructions[n - 1], entryPoint)
  }

  /** The full disassembly text. */
  function Disassembly(instructions: seq<Instruction>, constants: seq<Value>, entryPoint: nat): string {
    Header(entryPoint, constants) + Listing(instructions, entryPoint, |instructions|)
  }

  /** The marker is '>' exactly on the entry point's line, and every line ends with a newline. */
  lemma {:induction false} LineMarker(i: nat, inst: Instruction, entryPoint: nat)
    ensures Line(i, inst, entryPoint)[0] == '>' <==> i == entryPoint
    ensures Line(i, inst, entryPoint)[|Line(i, inst, entryPoint)| - 1] == '\n'
  {
  }

  lemma {:induction false} DigitsValueLeadingZeros(k: nat, d: string)
    requires AllDigits(d)
    ensures AllDigits(seq(k, _ => '0') + d)
    ensures DigitsValue(seq(k, _ => '0') + d) == DigitsValue(d)
  {
    if k == 0 {
      assert seq(k, _ => '0') + d == d;
    } else {
      DigitsValueLeadingZeros(k - 1, d);
      assert seq(k, _ => '0') + d == ['0'] + (seq(k - 1, _ => '0') + d);
      DigitsValuePrependZero(seq(k - 1, _ => '0') + d);
    }
  }

  lemma {:induction false} DigitsValuePrependZero(d: string)
    requires AllDigits(d)
    ensures AllDigits(['0'] + d) && DigitsValue(['0'] + d) == DigitsValue(d)
  {
    if d != [] {
      assert (['0'] + d)[..|d|] == ['0'] + d[..|d| - 1];
      DigitsValuePrependZero(d[..|d| - 1]);
    }
  }

  /** The padded index still reads as the index: padding adds only leading zeros. */
  lemma {:induction false} Pad4Value(n: nat)
    ensures DigitsValue(Pad4(n)) == n
    ensures n < 10000 ==> |Pad4(n)| == 4
  {
    var d := NatToString(n);
    DigitsValueOfNatToString(n);
    if |d| < 4 {
      DigitsValueLeadingZeros(4 - |d|, d);
    } else if n < 10000 {
      NatToStringLength(n);
    }
  }

  lemma {:induction false} NatToStringLength(n: nat)
    ensures n < 10 ==> |NatToString(n)| == 1
    ensures n < 100 ==> |NatToString(n)| <= 2
    ensures n < 1000 ==> |NatToString(n)| <= 3
    ensures n < 10000 ==> |NatToString(n)| <= 4
  {
    if n >= 10 {
      NatToStringLength(n / 10);
    }
  }

  lemma {:induction false} ListingStep(instructions: seq<Instruction>, entryPoint: nat, i: nat)
    requires i < |instructions|
    ensures Listing(instructions, entryPoint, i + 1) == Listing(instructions, entryPoint, i) + Line(i, instructions[i], entryPoint)
    ensures Line(i, instructions[i], entryPoint)
      == (if i == entryPoint then ">" else " ") + " " + Pad4(i) + " " + Display(instructions[i]) + "\n"
  {
  }

  lemma {:induction false} AppendAssoc(a: string, b: string, c: string)
    ensures (a + b) + c == a + (b + c)
  {
  }

  class Bytecode {
    var instructions: seq<Instruction>
    var constants: seq<Value>
    var entryPoint: nat

    /** `Bytecode::new`. */
    constructor ()
      ensures instructions == [] && constants == [] && entryPoint == 0
    {
      instructions := [];
      constants := [];
      entryPoint := 0;
    }

    /** `Bytecode::emit`: appends one instruction and returns its index. */
    method Emit(inst: Instruction) returns (index: nat)
      modifies this
      ensures index == old(|instructions|) && instructions == old(instructions) + [inst]
      ensures GetInstruction(index) == Some(inst)
      ensures constants == old(constants) && entryPoint == old(entryPoint)
    {
      index := |instructions|;
      instructions := instructions + [inst];
    }

    /** `Bytecode::add_constant`: appends a constant (no deduplication) and returns its index. */
    method AddConstant(v: Value) returns (index: nat)
      modifies this
      ensures index == old(|constants|) && constants == old(constants) + [v]
      ensures GetConstant(index) == Some(v)
      ensures instructions == old(instructions) && entryPoint == old(entryPoint)
    {
      index := |constants|;
      constants := constants + [v];
    }

    /** `Bytecode::set_entry_point`: changes only the entry point. */
    method SetEntryPoint(index: nat)
      modifies this
      ensures entryPoint == index
      ensures instructions == old(instructions) && constants == old(constants)
    {
      entryPoint := index;
    }

    /** `Bytecode::get_instruction`. */
    function GetInstruction(index: nat): (r: Option<Instruction>)
      reads this
      ensures r.Some? <==> index < |instructions|
      ensures r.Some? ==> r.value == instructions[index]
    {
      if index < |instructions| then Some(instructions[index]) else None
    }

    /** `Bytecode::get_constant`. */
    function GetConstant(index: nat): (r: Option<Value>)
      reads this
      ensures r.Some? <==> index < |constants|
      ensures r.Some? ==> r.value == constants[index]
    {
      if index < |constants| then Some(constants[index]) else None
    }

    /** `Bytecode::len`. */
    function Len(): (n: nat)
      reads this
      ensures n == |instructions|
    {
      |instructions|
    }

    /** `Bytecode::is_empty`. */
    predicate IsEmpty()
      reads this
      ensures IsEmpty() <==> Len() == 0
    {
      |instructions| == 0
    }

    /** `Bytecode::disassemble`: the header, then one line per instruction. */
    method Disassemble() returns (output: string)
      ensures output == Disassembly(instructions, constants, entryPoint)
    {
      output := TITLE;
      output := output + ENTRY_LABEL + NatToString(entryPoint) + "\n";
      output := output + CONSTANTS_LABEL + ConstantsDebug(constants) + "\n\n";
      ghost var header := output;
      assert header == Header(entryPoint, constants);
      var i := 0;
      while i < |instructions|
        invariant 0 <= i <= |instructions|
        invariant output == header + Listing(instructions, entryPoint, i)
      {
        var marker := if i == entryPoint then ">" else " ";
        var line := marker + " " + Pad4(i) + " " + Display(instructions[i]) + "\n";
        ListingStep(instructions, entryPoint, i);
        AppendAssoc(header, Listing(instructions, entryPoint, i), line);
        output := output + line;
        i := i + 1;
      }
    }

    /** `#[derive(Clone)]`: an independent copy with the same contents. */
    method Clone() returns (copy: Bytecode)
      ensures fresh(copy)
      ensures copy.instructions == instructions && copy.constants == constants && copy.entryPoint == entryPoint
    {
      copy := new Bytecode();
      copy.instructions := instructions;
      copy.constants := constants;
      copy.entryPoint := entryPoint;
    }
  }
}
