# zvar-lang, modelled in Dafny

zvar is a small language whose entities are named by kind and number: `v$N` for variables,
`c$N` for constants and `f$N` for functions. Its toolchain has four stages:

- The lexer turns source text into tokens.
- A recursive-descent parser builds a syntax tree while it fills a scoped symbol table. The
  table holds types, initialisation and documentation; documentation comes from `///`
  comments and `describe` statements.
- A two-pass code generator gives each variable and constant a runtime slot, then lowers the
  tree to linear bytecode with patched jumps.
- A stack virtual machine runs that bytecode with a bounded operand stack, a flat array of
  variable slots and a stack of call frames.

This project models that core one module per source file. The modules are:

- `Common`, `Text`, `Errors`, `Spans`, `Entities`, `Tokens`: the shared value types. These are
  optional values, decimal text, the error taxonomy, source spans, entity references and tokens.
- `Values`: the runtime values and their total operator table, with checked 64-bit arithmetic.
- `Stacks`, `BuiltinRegistry`: the bounded operand stack (a class over a sequence) and the
  registry of built-in functions.
- `Instructions`, `DebugInfos`: the bytecode container and the debug metadata, as classes.
- `VmSemantics`, `Vms`: the machine. `VmSemantics` says on values what each instruction and
  each turn of the run loop does. The `VM` class is proved to change its fields exactly as
  those functions say.
- `SymbolTables`, `Ast`: the scope stack and the syntax tree.
- `CodegenSpec`, `CodegenLemmas`, `CodeGenerators`: the generator. `CodegenSpec` gives the
  instructions each construct lowers to and the slot assignment of the first pass.
  `CodegenLemmas` proves what that code does: jumps land inside it, functions end in a return
  (under the corrected implicit-return rule described under Findings), and slots are distinct.
  The `CodeGenerator` class is proved to emit exactly that code.
- `LexerSpec`, `Lexers`, `LexerLemmas`: the lexer. The functions read one token at a cursor and
  the class moves its cursor as they say. The lemmas show:
  - line and column always agree with the position;
  - tokenizing ends with one `Eof`;
  - the printed form of every token lexes back to that token, with the `///` reader corrected
    as described under Findings.
- `ParserSpec`, `ParserLemmas`, `Parsers`: the parser. The functions give the expression
  grammar and the lemmas its precedence and grouping. The `Parser` class builds exactly those
  expressions. It reads signatures, parameter lists and `describe` statements exactly as the
  functions do, places each item and statement where its first token selects it, and keeps every
  definition already made in the symbol table.

Output of the `print` built-in is modelled as a sequence of lines that the machine appends to.
A run of the machine is bounded by a fuel parameter, because zvar programs may not terminate.

## Model

| member | source | states |
|---|---|---|
| Text.NatToString | src/types/entity.rs:50-56 | the decimal rendering of a number is a non-empty run of digits with no leading zero unless the number is 0 |
| Text.IntToString | src/lexer/token.rs:71 | an integer renders with a leading minus sign exactly when it is negative |
| Text.DigitsValueOfNatToString | src/types/entity.rs:50-56 | the value of the rendered digits is the rendered number |
| Text.ParseU32OfNatToString | src/lexer/mod.rs:191-202 | the `u32` parse of an entity number inverts its decimal rendering for every `u32` |
| Text.ParseI64OfNatToString | src/lexer/mod.rs:74-78 | the `i64` parse of a literal inverts the decimal rendering of every non-negative `i64` |
| Text.NatToStringInjective | src/types/entity.rs:50-56 | two numbers with the same rendering are equal |
| Text.JoinSnoc | src/symbol_table.rs:124-132 | joining lines with a separator puts exactly one separator before the last line |
| Errors.ErrorSpan | src/error.rs:93-110 | every variant with a span field gives that span, `DivisionByZero` gives its optional span as stored, every other variant gives none |
| Errors.SpannedErrorsAreCompileTime | src/error.rs:93-120 | an error with a span is a compile-time error, `DivisionByZero` is classified compile-time, and a run-time error carries no span |
| Errors.Runtime | src/error.rs:123-127 | builds a `RuntimeError` with the message, which is not compile-time and has no span |
| Errors.FileErrorOf | src/error.rs:130-134 | builds a `FileError` with the message, which is compile-time and has no span |
| Entities.VariableRef | src/types/entity.rs:37-39 | a variable reference has prefix `v` and keeps its number and span |
| Entities.ConstantRef | src/types/entity.rs:41-43 | a constant reference has prefix `c` and keeps its number and span |
| Entities.FunctionRef | src/types/entity.rs:45-47 | a function reference has prefix `f` and keeps its number and span |
| Entities.FullName | src/types/entity.rs:50-65 | the full name is the kind's prefix letter, `$`, then the decimal number |
| Entities.Display | src/types/entity.rs:68-72 | the display form is the full name |
| Entities.FullNameInjective | src/types/entity.rs:50-56 | the full name determines the kind and the number of the entity |
| Text.ParseU32 | src/lexer/mod.rs:191-202 | definition only: Rust's `u32` parse, an optional `+`, at least one digit and nothing else, at most 4294967295, otherwise none; Text.ParseU32OfNatToString states that it reads back every rendered number in range |
| Text.ParseI64 | src/lexer/mod.rs:74-78 | definition only: Rust's `i64` parse, an optional sign, at least one digit and nothing else, within `i64`, otherwise none; Text.ParseI64OfNatToString states that it reads back every rendered number up to `i64::MAX` |
| Text.Join | src/symbol_table.rs:124-132 | definition only: the parts with the separator between neighbours; Text.JoinSnoc states how one more part extends it |
| Errors.IsCompileTime | src/error.rs:113-121 | definition only: false exactly for `RuntimeError`, `StackOverflow` and `StackUnderflow`; Errors.SpannedErrorsAreCompileTime states that every error with a span is compile-time |
| Entities.Prefix | src/types/entity.rs:59-65 | definition only: `v`, `c` or `f` by kind; Entities.FullName states that the full name starts with it and LexerLemmas.EntityRoundTrip that the lexer reads the entity back from it |
| Entities.KindName | src/types/entity.rs:14-22 | definition only: the words `variable`, `constant` and `function` |
| Spans.Single | src/span.rs:26-28 | a one-character span is single-line, has length 1, and contains exactly its own position |
| Spans.FromTo | src/span.rs:31-38 | the joined span takes its start position from the first span and its end position from the second |
| Spans.Length | src/span.rs:46-52 | the length is present exactly for a single-line span, and is at least 1 when the end column is not before the start column |
| Spans.ContainsIsInterval | src/span.rs:55-69 | `contains` holds exactly for the positions between start and end inclusive, in (line, column) order |
| Spans.SingleLineContains | src/span.rs:46-69 | on a single-line span, `contains` accepts exactly the `length` columns from the start column |
| Spans.FromToCovers | src/span.rs:31-69 | a span joined from an earlier and a later span contains every position either of them contains |
| Spans.DisplayRoundTripPoint | src/span.rs:75-76 | the `L:C` rendering of a one-position span reads back as that span |
| Spans.DisplayRoundTripLine | src/span.rs:77-83 | the `L:C1-C2` rendering of a single-line span reads back as that span |
| Spans.DisplayRoundTripMulti | src/span.rs:84-90 | the `L1:C1-L2:C2` rendering of a multi-line span reads back as that span |
| Spans.DisplayRoundTrip | src/span.rs:72-92 | every span is recovered from its rendering, so the three display forms lose nothing |
| Spans.DisplayInjective | src/span.rs:72-92 | two spans with the same rendering are equal |
| Spans.IsSingleLine | src/span.rs:41-43 | definition only: start and end are on one line; Spans.Length states that a length exists exactly for such spans |
| Spans.Contains | src/span.rs:55-69 | definition only; Spans.ContainsIsInterval states that it is the inclusive interval from start to end in (line, column) order |
| Spans.Display | src/span.rs:72-92 | definition only; Spans.DisplayRoundTrip states that the text reads back to the span and Spans.DisplayInjective that distinct spans print differently |
| Spans.SplitDigits | src/span.rs:72-92 | splits printed span text into the longest run of digits and the rest: the run is all digits, the two together are the input, and the rest does not start with a digit |
| Spans.SplitDigitsOfNumber | src/span.rs:72-92 | a run of digits followed by a non-digit splits exactly there |
| Spans.SplitLast | src/span.rs:72-92 | a printed number is one whole run of digits whose value is that number |
| Spans.SplitNat | src/span.rs:72-92 | a printed number followed by a non-digit splits right after the number, and the run's value is the number |
| Spans.ReadNat | src/span.rs:72-92 | a printed number followed by a separator reads back as that number and the text after the separator |
| Spans.AfterDashSingle | src/span.rs:77-83 | the text after the dash of a one-line span, its end column, reads back to the span |
| Spans.AfterDashMulti | src/span.rs:84-90 | the text after the dash of a multi-line span, `L2:C2`, reads back to the span |
| Spans.AfterLineDash | src/span.rs:77-90 | after the start line, a start column followed by a dash hands the rest to the after-dash reader with that column |
| Tokens.EntityNumber | src/lexer/token.rs:132-137 | the number is present exactly for entity tokens, and is the number they carry |
| Tokens.EntityToken | src/lexer/token.rs:13-15 | the token naming an entity of a kind is an entity token carrying that number |
| Tokens.PayloadlessKeepsDiscriminant | src/parser/mod.rs:68 | clearing a token's payload keeps its variant |
| Tokens.DiscriminantNamesVariant | src/parser/mod.rs:68 | the variant index determines the token up to its payload |
| Tokens.LowDiscriminant | src/lexer/token.rs:6-36 | the literal, entity, keyword and arithmetic-operator variants are recovered from their index |
| Tokens.HighDiscriminant | src/lexer/token.rs:38-66 | the comparison, logical, delimiter, comment and special variants are recovered from their index |
| Tokens.SameVariantIsPayloadless | src/parser/mod.rs:68 | two tokens are of the same variant exactly when they agree once payloads are cleared |
| Tokens.PayloadVariant | src/lexer/token.rs:8-15 | for a variant with a payload, sameness of variant ignores the payload |
| Tokens.PlainVariant | src/lexer/token.rs:18-65 | for a variant without payload, sameness of variant is equality |
| Tokens.SameVariantIsDiscriminant | src/parser/mod.rs:64-69 | comparing variants ignoring payloads is comparing `mem::discriminant` indices, in both directions |
| Tokens.Display | src/lexer/token.rs:68-115 | an entity token displays as its entity's full name (`v$N`, `c$N`, `f$N`) and a string literal between double quotes |
| Tokens.IsDocComment | src/lexer/token.rs:119-121 | definition only: exactly the `DocComment` tokens; LexerSpec.ReadDocComment states that the reader returns one |
| Tokens.IsEntity | src/lexer/token.rs:124-129 | definition only: exactly the `Variable`, `Constant` and `Function` tokens; Tokens.EntityNumber states that an entity number exists exactly for them |
| Tokens.Discriminant | src/parser/mod.rs:68 | definition only: the variant index `mem::discriminant` compares; Tokens.DiscriminantNamesVariant states that equal indices mean the same variant |
| Values.AsInt | src/vm/value.rs:16-22 | succeeds exactly on an integer, giving its payload; any other variant is a run-time error |
| Values.AsStr | src/vm/value.rs:25-31 | succeeds exactly on a string, giving its payload; any other variant is a run-time error |
| Values.AsBool | src/vm/value.rs:34-40 | succeeds exactly on a boolean, giving its payload; any other variant is a run-time error |
| Values.FalsyValues | src/vm/value.rs:70-76 | a value is falsy exactly when it is `Int(0)`, the empty string or `false` |
| Values.TypeName | src/vm/value.rs:79-85 | the type name is `int` exactly for integers, `str` exactly for strings and `bool` exactly for booleans |
| Values.Add | src/vm/value.rs:88-101 | two integers give their exact sum when it fits in `i64` and the overflow error otherwise; two strings concatenate; every other pairing is a run-time error |
| Values.Sub | src/vm/value.rs:104-116 | two integers give their exact difference when it fits in `i64` and the overflow error otherwise; any non-integer operand is a run-time error |
| Values.Mul | src/vm/value.rs:119-131 | two integers give their exact product when it fits in `i64` and the overflow error otherwise; any non-integer operand is a run-time error |
| Values.Div | src/vm/value.rs:134-150 | a zero divisor is `DivisionByZero` without a span; otherwise the quotient rounded toward zero, or the overflow error when it does not fit; non-integers are a run-time error |
| Values.Equal | src/vm/value.rs:153-161 | never fails, and is true exactly when the two values are identical, so values of different variants are unequal |
| Values.NotEqual | src/vm/value.rs:164-167 | never fails, and is the negation of `equal` |
| Values.Less | src/vm/value.rs:170-180 | succeeds exactly for two integers or two strings, comparing integers numerically and strings lexicographically; otherwise a run-time error |
| Values.Greater | src/vm/value.rs:183-193 | succeeds exactly for two integers or two strings; otherwise a run-time error |
| Values.LessEqual | src/vm/value.rs:196-206 | succeeds exactly for two integers or two strings; otherwise a run-time error |
| Values.GreaterEqual | src/vm/value.rs:209-219 | succeeds exactly for two integers or two strings; otherwise a run-time error |
| Values.LogicalAnd | src/vm/value.rs:222-231 | succeeds exactly on two booleans, giving their conjunction; otherwise a run-time error |
| Values.LogicalOr | src/vm/value.rs:234-243 | succeeds exactly on two booleans, giving their disjunction; otherwise a run-time error |
| Values.LogicalNot | src/vm/value.rs:246-254 | succeeds exactly on a boolean, giving its negation; otherwise a run-time error |
| Values.AddSubRoundTrip | src/vm/value.rs:88-116 | subtracting the integer just added gives back the original value |
| Values.IntOperatorsCommute | src/vm/value.rs:88-131 | integer addition and multiplication, including their overflow errors, do not depend on operand order, while string concatenation does |
| Values.StrAddOrder | src/vm/value.rs:88-101 | concatenating two strings that start with different characters gives different results in the two orders |
| Values.TruncDivBounds | src/vm/value.rs:134-150 | the remainder left by division rounded toward zero is smaller than the divisor and has the sign of the dividend |
| Values.DivRoundsTowardZero | src/vm/value.rs:134-150 | a successful integer division rounds toward zero: the remainder is smaller than the divisor and has the sign of the dividend |
| Values.DivOverflowOnlyAtMinByMinusOne | src/vm/value.rs:134-150 | with a non-zero divisor, division fails exactly for `i64::MIN / -1` |
| Values.DivLeDividend | src/vm/value.rs:134-150 | a natural quotient is at most the dividend, so only a negated `i64::MIN` can leave the range |
| Values.StrLessIrreflexive | src/vm/value.rs:173 | no string is less than itself |
| Values.StrLessTransitive | src/vm/value.rs:173 | the string order is transitive |
| Values.StrLessTrichotomy | src/vm/value.rs:173 | any two strings are equal or one is less than the other |
| Values.StrLessIsStrictTotalOrder | src/vm/value.rs:170-219 | the string order the comparisons use is a strict total order |
| Values.ComparisonDualities | src/vm/value.rs:170-219 | on comparable operands, `greater` is `less` with the operands swapped, and `less_equal` and `greater_equal` are the negations of `greater` and `less` |
| Values.IsTruthy | src/vm/value.rs:70-76 | definition only; Values.FalsyValues states that exactly `0`, `""` and `false` are falsy |
| Values.Display | src/vm/value.rs:257-265 | definition only: an integer in decimal, a string unchanged, `true` or `false`; Instructions.ToRuntime states that a constant displays as the runtime value it becomes |
| Values.TruncDiv | src/vm/value.rs:134-150 | definition only; Values.TruncDivBounds and Values.DivRoundsTowardZero state that it rounds toward zero as Rust's `/` does |
| Values.CheckedDiv | src/vm/value.rs:134-150 | definition only; Values.DivOverflowOnlyAtMinByMinusOne states that it fails only on a zero divisor or `i64::MIN / -1` |
| Values.StrLess | src/vm/value.rs:173 | definition only: Rust's string order, character by character; Values.StrLessIsStrictTotalOrder states that it is a strict total order |
| Values.CheckedAdd | src/vm/value.rs:88-101 | definition only: the sum when it fits in `i64`, none otherwise; Values.AddSubRoundTrip and Values.IntOperatorsCommute state its properties |
| Values.CheckedSub | src/vm/value.rs:104-116 | definition only: the difference when it fits in `i64`, none otherwise; Values.AddSubRoundTrip states that it undoes an addition |
| Values.CheckedMul | src/vm/value.rs:119-131 | definition only: the product when it fits in `i64`, none otherwise; Values.IntOperatorsCommute states that it does not depend on operand order |
| Stacks.Stack.constructor | src/vm/stack.rs:20-25 | a new stack is empty with capacity 1024 |
| Stacks.Stack.WithCapacity | src/vm/stack.rs:28-33 | a stack made with a capacity is empty and holds at most that many values |
| Stacks.Stack.Push | src/vm/stack.rs:36-43 | a full stack refuses with `StackOverflow` and is unchanged; otherwise the value goes on top; the length never exceeds the capacity |
| Stacks.Stack.Pop | src/vm/stack.rs:46-48 | an empty stack gives `StackUnderflow` and is unchanged; otherwise the most recently pushed value is returned and removed |
| Stacks.Stack.Peek | src/vm/stack.rs:51-53 | the top value when there is one, `StackUnderflow` on an empty stack, the stack untouched |
| Stacks.Stack.Dup | src/vm/stack.rs:61-64 | underflows on an empty stack; otherwise pushes a copy of the top, or overflows and leaves the stack unchanged when it is full |
| Stacks.Stack.Len | src/vm/stack.rs:67-69 | the number of values held |
| Stacks.Stack.IsEmpty | src/vm/stack.rs:72-74 | empty exactly when the length is 0 |
| Stacks.Stack.Clear | src/vm/stack.rs:77-79 | leaves the stack empty with its capacity |
| Stacks.Stack.Get | src/vm/stack.rs:82-89 | the value `depth` places below the top when `depth` is less than the length, `StackUnderflow` otherwise; depth 0 is `peek` |
| Stacks.Stack.Set | src/vm/stack.rs:92-100 | underflows when `depth` is not less than the length; otherwise the value at that depth becomes `v`, and the length and every other element are unchanged |
| BuiltinRegistry.CallEffect | src/vm/builtins.rs:37-46 | calling an unregistered name is a run-time error that changes nothing and prints nothing; a registered name runs its built-in |
| BuiltinRegistry.PrintRemovesTop | src/vm/builtins.rs:67-74 | `print` on a non-empty stack removes exactly the top value and writes its text |
| BuiltinRegistry.PrintOnEmptyStack | src/vm/builtins.rs:67-74 | `print` on an empty stack fails with `StackUnderflow` before anything changes, because it peeks before popping |
| BuiltinRegistry.TypeofReplacesTop | src/vm/builtins.rs:87-100 | `typeof` replaces the top value by `Int(1)` for an integer and `Int(0)` otherwise |
| BuiltinRegistry.BuiltinPrint | src/vm/builtins.rs:67-74 | on a stack object, the new stack, result and printed line are those of `print`'s effect on the old stack |
| BuiltinRegistry.BuiltinDebug | src/vm/builtins.rs:80-83 | succeeds and leaves the stack as it was |
| BuiltinRegistry.BuiltinTypeof | src/vm/builtins.rs:87-100 | on a stack object, the new stack and result are those of `typeof`'s effect, including underflow on an empty stack |
| BuiltinRegistry.Builtins.constructor | src/vm/builtins.rs:20-29 | a new registry maps `print` to the print built-in and nothing else |
| BuiltinRegistry.Builtins.Register | src/vm/builtins.rs:32-34 | adds or replaces exactly one entry |
| BuiltinRegistry.Builtins.Call | src/vm/builtins.rs:37-46 | the new stack, result and output are the call's effect as a function of the registry and the old stack |
| BuiltinRegistry.FreshRegistryKnowsOnlyPrint | src/vm/builtins.rs:20-29 | a fresh registry reports `print` as a built-in and no other name |
| BuiltinRegistry.RegisterThenCall | src/vm/builtins.rs:32-51 | after `register(name, f)`, calling `name` runs `f`, and every other name keeps its meaning |
| BuiltinRegistry.Builtins.IsBuiltin | src/vm/builtins.rs:49-51 | definition only: the name is registered; BuiltinRegistry.FreshRegistryKnowsOnlyPrint and BuiltinRegistry.RegisterThenCall state which names a registry accepts |
| BuiltinRegistry.PrintEffect | src/vm/builtins.rs:67-74 | definition only; BuiltinRegistry.PrintRemovesTop and BuiltinRegistry.PrintOnEmptyStack state its effect |
| BuiltinRegistry.TypeofEffect | src/vm/builtins.rs:87-100 | definition only; BuiltinRegistry.TypeofReplacesTop states its effect |
| Instructions.ToRuntime | src/codegen/instruction.rs:92-142 | converting an instruction constant into a runtime value keeps its truthiness, its type name and its displayed text |
| Instructions.Pad4 | src/codegen/instruction.rs:242-245 | the `{:04}` index text is at least four characters long and all decimal digits |
| Instructions.Pad4Value | src/codegen/instruction.rs:242-245 | the padded index still reads back as the index, and below 10000 it is exactly four digits |
| Instructions.LineMarker | src/codegen/instruction.rs:242-245 | a listing line starts with `>` exactly when it is the entry point's line, and every line ends in a newline |
| Instructions.ListingStep | src/codegen/instruction.rs:241-246 | the listing of the first i+1 instructions is the listing of the first i followed by the marker, padded index and instruction text of instruction i |
| Instructions.Bytecode.constructor | src/codegen/instruction.rs:188-194 | a new program has no instructions, no constants and entry point 0 |
| Instructions.Bytecode.Emit | src/codegen/instruction.rs:197-201 | appends the instruction, returns its index (the old length), and can then fetch it there; constants and entry point are unchanged |
| Instructions.Bytecode.AddConstant | src/codegen/instruction.rs:204-208 | appends the constant without deduplication and returns its index, where it can then be fetched; instructions and entry point are unchanged |
| Instructions.Bytecode.SetEntryPoint | src/codegen/instruction.rs:211-213 | changes the entry point and nothing else |
| Instructions.Bytecode.GetInstruction | src/codegen/instruction.rs:216-218 | an instruction is found exactly for an index below the length, and it is the one stored there |
| Instructions.Bytecode.GetConstant | src/codegen/instruction.rs:221-223 | a constant is found exactly for an index below the pool size, and it is the one stored there |
| Instructions.Bytecode.Len | src/codegen/instruction.rs:226-228 | the number of instructions |
| Instructions.Bytecode.IsEmpty | src/codegen/instruction.rs:231-233 | empty exactly when the length is zero |
| Instructions.Bytecode.Disassemble | src/codegen/instruction.rs:236-248 | the loop builds exactly the header (title, entry point, constant pool) followed by one marked, padded line per instruction in order |
| Instructions.Bytecode.Clone | src/codegen/instruction.rs:180-185 | a fresh program with the same instructions, constants and entry point |
| Instructions.IsTruthy | src/codegen/instruction.rs:92-98 | definition only; Instructions.ToRuntime states that a constant is truthy exactly when the runtime value it becomes is |
| Instructions.TypeName | src/codegen/instruction.rs:101-107 | definition only; Instructions.ToRuntime states that it agrees with the runtime value's type name |
| Instructions.ValueDisplay | src/codegen/instruction.rs:110-118 | definition only; Instructions.ToRuntime states that it agrees with the runtime value's display |
| Instructions.Display | src/codegen/instruction.rs:144-177 | definition only: each instruction's mnemonic and operands; Instructions.LineMarker states where it sits in a listing line |
| Instructions.NeedsEscape | src/codegen/instruction.rs:240 | definition only: the characters `{:?}` escapes inside a string, a backslash, a double quote and the ASCII control characters |
| Instructions.EscapeDebugChar | src/codegen/instruction.rs:240 | a character is written as it is exactly when it needs no escape; an escaped one is at least two characters and starts with a backslash |
| Instructions.EscapeDebug | src/codegen/instruction.rs:240 | the escaped text is never shorter than the string, and a string with nothing to escape is written unchanged |
| Instructions.EscapeDebugConcat | src/codegen/instruction.rs:240 | escaping distributes over concatenation |
| Instructions.EscapedQuoteConstant | src/codegen/instruction.rs:240 | the constant `a\"b`, escape kept as written, is listed as `a\\\"b` |
| Instructions.HexDigit | src/codegen/instruction.rs:240 | a hexadecimal digit never needs an escape |
| Instructions.HexLower | src/codegen/instruction.rs:240 | the hexadecimal code inside `\u{..}` has at least one digit and none needs an escape |
| Instructions.ValueDebug | src/codegen/instruction.rs:240 | definition only: `Int(n)`, `Str("…")` with the text escaped, or `Bool(b)` |
| Instructions.ConstantsDebug | src/codegen/instruction.rs:240 | definition only: the constants' debug forms between brackets, separated by `, ` |
| Instructions.Header | src/codegen/instruction.rs:238-240 | definition only: the title line, the entry point line and the constants line, then a blank line |
| Instructions.Line | src/codegen/instruction.rs:242-245 | definition only; Instructions.LineMarker states that it is marked exactly on the entry point and ends in a newline |
| Instructions.Listing | src/codegen/instruction.rs:241-246 | definition only; Instructions.ListingStep states that each instruction adds its own line |
| Instructions.Disassembly | src/codegen/instruction.rs:236-248 | definition only; Instructions.Bytecode.Disassemble states that the container returns exactly this text |
| DebugInfos.DebugInfo.constructor | src/codegen/debug_info.rs:20-27 | all three maps are empty and there is no source text |
| DebugInfos.DebugInfo.SetSource | src/codegen/debug_info.rs:30-32 | stores the source text and leaves the maps unchanged |
| DebugInfos.DebugInfo.AddInstructionSpan | src/codegen/debug_info.rs:35-37 | inserts or replaces the span of one instruction index, which is then what the lookup returns; the other fields are unchanged |
| DebugInfos.DebugInfo.AddEntityDoc | src/codegen/debug_info.rs:40-42 | a later document for the same entity replaces the earlier one, and the lookup returns it; the other fields are unchanged |
| DebugInfos.DebugInfo.MarkFunctionStart | src/codegen/debug_info.rs:45-47 | records the start index of the named function; every other name keeps its start |
| DebugInfos.DebugInfo.GetInstructionSpan | src/codegen/debug_info.rs:50-52 | a span is found exactly for a recorded index, and it is the recorded one |
| DebugInfos.DebugInfo.GetEntityDoc | src/codegen/debug_info.rs:55-57 | a document is found exactly for a documented entity, and it is the recorded one |
| DebugInfos.DebugInfo.GetFunctionStart | src/codegen/debug_info.rs:60-62 | a start index is found exactly for a marked function, and it is the recorded one |
| DebugInfos.DebugInfo.Clone | src/codegen/debug_info.rs:7-17 | a fresh record with the same maps and source |
| VmSemantics.PushValue | src/vm/stack.rs:36-43 | pushing onto a machine whose stack is below capacity appends the value; on a full stack it fails with `StackOverflow` and changes nothing |
| VmSemantics.ExecBinary | src/vm/mod.rs:258-438 | with fewer than two operands it is a runtime error that changes nothing; on two operands it succeeds exactly when the operator applies to them, and then pops one more than it pushes and continues |
| VmSemantics.ExecNot | src/vm/mod.rs:440-451 | `NOT` changes only the stack and never pushes past the capacity |
| VmSemantics.ExecBuiltin | src/vm/mod.rs:499-502 | a built-in call changes only the stack and the printed output |
| VmSemantics.SavedSlots | src/vm/mod.rs:507-515 | the frame saves exactly `argc` slots: the caller's value where the slot exists, None beyond the storage |
| VmSemantics.Grow | src/vm/mod.rs:517-520 | the storage is resized to `argc` slots when shorter, the new slots are None, and existing slots keep their values |
| VmSemantics.BindArguments | src/vm/mod.rs:522-531 | slot i takes the i-th argument in push order (the pops are reversed back); the other slots keep their values |
| VmSemantics.ExecPop | src/vm/mod.rs:237-246 | `POP` fails exactly on an empty stack, with a runtime error that changes nothing; otherwise it removes the top and continues |
| VmSemantics.ExecDup | src/vm/mod.rs:253-256 | `DUP` changes only the stack and never pushes past the capacity |
| VmSemantics.ExecLoadVar | src/vm/mod.rs:453-467 | `LOADVAR` of a slot that does not exist or was never written is a runtime error that changes nothing, a full stack an overflow; otherwise the slot's value is pushed and the machine continues |
| VmSemantics.ExecStoreVar | src/vm/mod.rs:469-486 | `STOREVAR` fails exactly on an empty stack or a slot that does not exist, with a runtime error that changes nothing; otherwise the top is popped into the slot and the machine continues |
| VmSemantics.ExecLoadConst | src/vm/mod.rs:488-496 | `LOADCONST` changes only the stack and never pushes past the capacity |
| VmSemantics.ExecJumpIfFalse | src/vm/mod.rs:563-576 | `JUMP_IF_FALSE` changes only the stack and never makes it longer |
| VmSemantics.ExecPrint | src/vm/mod.rs:578-587 | `PRINT` changes only the stack and the printed output |
| VmSemantics.Restore | src/vm/mod.rs:189-193 | a slot that was saved takes its saved value, the others keep theirs, and the storage keeps its size |
| VmSemantics.MaxSlotIsMaximum | src/vm/mod.rs:99-109 | the computed slot count is the maximum: it bounds every slot a `LOADVAR` or `STOREVAR` names and is one of them, or 0 when none is named |
| VmSemantics.ExecuteFrame | src/vm/mod.rs:234-602 | no instruction moves `ip` or changes the stack capacity, none shrinks the variable storage, and only `CALL` pushes a frame, on top of the unchanged call stack |
| VmSemantics.BuiltinKeepsFits | src/vm/builtins.rs:37-100 | no built-in leaves more values on the stack than its capacity |
| VmSemantics.ExecuteKeepsFits | src/vm/mod.rs:234-602 | no instruction leaves more values on the stack than its capacity |
| VmSemantics.StepKeepsFits | src/vm/mod.rs:130-228 | every turn of the run loop, the return protocol included, keeps the stack within its capacity |
| VmSemantics.RunKeepsFits | src/vm/mod.rs:129-231 | every run keeps the stack within its capacity |
| VmSemantics.BinaryStackEffect | src/vm/mod.rs:258-271 | a binary instruction on `below + [a, b]` leaves `below` followed by the operation's result, or leaves `below` and fails with the operation's error |
| VmSemantics.StoreThenLoad | src/vm/mod.rs:453-486 | storing the top value into a slot and loading that slot back restores the stack and leaves the slot holding the value |
| VmSemantics.JumpIfFalseBranches | src/vm/mod.rs:563-576 | `JUMP_IF_FALSE` pops the condition and jumps exactly when it is falsy |
| VmSemantics.CallThenReturn | src/vm/mod.rs:162-213 | a user call followed by the callee's return removes the frame, resumes right after the `CALL`, gives the caller back its parameter slots and leaves the callee's top value on top of the stack |
| VmSemantics.PushRuns | src/vm/mod.rs:248-251 | a `PUSH` with room on the stack appends the constant and moves on to the next instruction |
| VmSemantics.AddThenHalt | src/vm/mod.rs:656-671 | with 5 and 3 on the stack, `ADD; HALT` leaves 8 and stops by itself |
| VmSemantics.PushTwice | src/vm/mod.rs:656-671 | from an empty stack, `PUSH 5; PUSH 3` leaves 5 and 3 on the stack at instruction 2 |
| VmSemantics.BasicArithmeticRun | src/vm/mod.rs:656-671 | the program `PUSH 5; PUSH 3; ADD; HALT` stops by itself with exactly 8 on the stack |
| VmSemantics.ApplyBinary | src/vm/mod.rs:258-438 | definition only: the `Values` operation of each binary instruction, the first-pushed operand on the left; VmSemantics.BinaryStackEffect states the stack effect |
| VmSemantics.ExecUserCall | src/vm/mod.rs:505-543 | definition only: save the parameter slots, grow the storage, pop and bind the arguments, push a frame returning after the `CALL`, jump to the start; VmSemantics.CallThenReturn states what a call and its return do together |
| VmSemantics.ExecCall | src/vm/mod.rs:498-554 | without a built-in, a missing debug information or an unknown name is a runtime error that changes nothing; a user call succeeds exactly when the stack holds its arguments, then jumps to the function's start, pushes a frame returning to the next instruction with the saved slots, and moves the arguments off the stack; otherwise it is a stack underflow; a built-in leaves frames and slots alone |
| VmSemantics.Execute | src/vm/mod.rs:234-602 | definition only; VmSemantics.ExecuteFrame and VmSemantics.ExecuteKeepsFits state its frame and capacity properties, and Vms.VM.ExecuteInstruction is proved to change the machine as it says |
| VmSemantics.ReturnFrom | src/vm/mod.rs:162-213 | definition only; VmSemantics.CallThenReturn states that it resumes the caller with its slots restored and the callee's value on top |
| VmSemantics.Step | src/vm/mod.rs:130-228 | past the end of the code the run finishes; an error fails the run; `Continue` moves to the next instruction, a jump to its target, `HALT` finishes, and a return follows the return protocol |
| VmSemantics.MissingOperandFails | src/vm/mod.rs:237-587 | `POP`, `NOT`, `STOREVAR`, `JUMP_IF_FALSE` and `PRINT` on an empty stack are runtime errors that change nothing |
| VmSemantics.MissingOperandsFail | src/vm/mod.rs:258-438 | a binary operator with fewer than two operands is a runtime error that changes nothing |
| VmSemantics.BadSlotFails | src/vm/mod.rs:453-486 | `LOADVAR` of a slot that does not exist or was never written, and `STOREVAR` to a slot that does not exist, are runtime errors that change nothing |
| VmSemantics.UnknownCallFails | src/vm/mod.rs:498-554 | a `CALL` of a name that is neither a built-in nor known to the debug information, or made without debug information, is a runtime error that changes nothing |
| VmSemantics.RunStops | src/vm/mod.rs:130-228 | the run loop ends with success past the end of the code, ends with the error of the first failing instruction, and moves to the next instruction after `Continue` |
| VmSemantics.Run | src/vm/mod.rs:129-231 | definition only; VmSemantics.RunKeepsFits, VmSemantics.AddThenHalt and VmSemantics.BasicArithmeticRun state what runs produce |
| VmSemantics.MaxSlot | src/vm/mod.rs:99-109 | definition only; VmSemantics.MaxSlotIsMaximum states that it is the largest slot named, or 0 |
| Vms.VM.constructor | src/vm/mod.rs:54-66 | a new machine has an empty stack of the default capacity, no slots, no frames, `ip` 0, no documentation, only `print` registered, nothing loaded and debugging off |
| Vms.VM.SetDebugMode | src/vm/mod.rs:68-70 | only the debug flag changes |
| Vms.VM.Load | src/vm/mod.rs:99-126 | the storage gets one uninitialised slot more than the largest slot the code names, execution starts at the entry point, and the debug documentation is merged over the known documentation |
| Vms.VM.MaxSlot | src/vm/mod.rs:100-108 | the scan returns the largest slot named by a `LOADVAR` or `STOREVAR`, or 0 |
| Vms.VM.MergeDocs | src/vm/mod.rs:117-121 | the loop leaves the known documentation overridden by every debug entry |
| Vms.VM.PushValue | src/vm/stack.rs:36-43 | pushes onto the machine's stack exactly as the value-level push describes, overflow included |
| Vms.VM.Binary | src/vm/mod.rs:258-438 | each of the twelve binary instructions changes the machine and reports the outcome exactly as the value-level binary step describes |
| Vms.VM.Not | src/vm/mod.rs:440-451 | `NOT` changes the machine exactly as the value-level step describes |
| Vms.VM.CallBuiltin | src/vm/mod.rs:499-502 | a built-in call changes only the stack and the output, exactly as the built-in's effect describes |
| Vms.VM.CallUser | src/vm/mod.rs:505-543 | a user call saves the caller's slots, grows the storage, pops and binds the arguments, pushes a frame returning after the `CALL` and jumps to the function's start |
| Vms.VM.Call | src/vm/mod.rs:498-554 | `CALL` runs a built-in in place, and otherwise fails without debug information or for an unknown name, or performs the user call |
| Vms.VM.Pop | src/vm/mod.rs:237-246 | `POP` changes the machine exactly as the value-level step describes |
| Vms.VM.Dup | src/vm/mod.rs:253-256 | `DUP` changes the machine exactly as the value-level step describes |
| Vms.VM.LoadVar | src/vm/mod.rs:453-467 | `LOADVAR` changes the machine exactly as the value-level step describes |
| Vms.VM.StoreVar | src/vm/mod.rs:469-486 | `STOREVAR` changes the machine exactly as the value-level step describes |
| Vms.VM.LoadConst | src/vm/mod.rs:488-496 | `LOADCONST` changes the machine exactly as the value-level step describes |
| Vms.VM.JumpIfFalse | src/vm/mod.rs:563-576 | `JUMP_IF_FALSE` changes the machine exactly as the value-level step describes |
| Vms.VM.Print | src/vm/mod.rs:578-587 | `PRINT` changes the machine exactly as the value-level step describes |
| Vms.VM.ExecuteInstruction | src/vm/mod.rs:234-602 | every instruction changes the machine and reports its outcome exactly as the value-level `Execute` describes, so the properties proved there hold of the machine |
| Vms.VM.ExecuteStackInstruction | src/vm/mod.rs:237-451 | the `POP`, `PUSH`, `DUP` and `NOT` arms change the machine exactly as the value-level `Execute` does and give its outcome |
| Vms.VM.ExecuteSlotInstruction | src/vm/mod.rs:453-496 | the `LOADVAR`, `STOREVAR` and `LOADCONST` arms change the machine exactly as the value-level `Execute` does and give its outcome |
| Vms.VM.ExecuteControlInstruction | src/vm/mod.rs:498-600 | the call, return, jump, print, describe, halt and no-op arms agree with the value-level `Execute` |
| Vms.VM.ReturnFrom | src/vm/mod.rs:162-213 | the return protocol finishes when there is no frame, and otherwise unwinds one frame exactly as the value-level return describes |
| Vms.VM.Step | src/vm/mod.rs:130-228 | one turn of the run loop agrees with the value-level step: stop past the end, execute, then continue, jump, return or halt |
| Vms.VM.Run | src/vm/mod.rs:129-231 | with no code loaded the run fails with "No bytecode loaded" and changes nothing; otherwise it agrees with the value-level run for the given number of turns |
| Vms.VM.GetEntityDoc | src/vm/mod.rs:621-623 | a document is found exactly for a documented entity, and it is the recorded one |
| Vms.VM.Reset | src/vm/mod.rs:626-632 | clears the stack, the slots, the frames and the documentation and sets `ip` to 0; the capacity and the loaded code stay |
| Vms.SaveSlots | src/vm/mod.rs:507-515 | the loop saves the caller's slots exactly as the value-level frame description says |
| Vms.PopArguments | src/vm/mod.rs:522-527 | with too few values the pops fail with `StackUnderflow` after emptying the stack; otherwise the top `argc` values come off and are returned in push order |
| Vms.BindArguments | src/vm/mod.rs:529-531 | the loop binds the arguments to slots 0, 1, ... exactly as the value-level binding says |
| Vms.RestoreSlots | src/vm/mod.rs:189-193 | the loop puts back the saved values exactly as the value-level restore says |
| Vms.LoadedSlotsExist | src/vm/mod.rs:99-112 | after loading, every slot the code names exists, so no `LOADVAR` or `STOREVAR` of the loaded code reports an invalid slot |
| SymbolTables.ValueTypeName | src/symbol_table.rs:29-36 | a value type prints as `int` exactly for `Int`, `str` exactly for `Str` and `bool` exactly for `Bool` |
| SymbolTables.ValueTypeNameInjective | src/symbol_table.rs:29-36 | distinct value types print differently |
| SymbolTables.NewSymbol | src/symbol_table.rs:49-56 | a new symbol keeps the given kind and span, is undocumented and not yet initialised |
| SymbolTables.WithDocumentation | src/symbol_table.rs:58-61 | sets the documentation and leaves kind, span and initialisation alone |
| SymbolTables.MarkInitialized | src/symbol_table.rs:63-66 | marks the symbol initialised and leaves kind, span and documentation alone |
| SymbolTables.GetType | src/symbol_table.rs:80-86 | every symbol has a type: the declared type of a variable or constant, the return type of a function |
| SymbolTables.ResolveIsInnermost | src/symbol_table.rs:161-168 | a lookup succeeds exactly when some scope holds the name, and then returns the definition in the innermost scope that holds it |
| SymbolTables.ResolveInNewScope | src/symbol_table.rs:107-109 | a new innermost scope shadows the outer scopes for the names it holds and lets every other name through |
| SymbolTables.ResolveAfterUpdate | src/symbol_table.rs:171-195 | changing the innermost definition of a name changes what that name resolves to and what no other name resolves to |
| SymbolTables.PendingDocumentation | src/symbol_table.rs:124-132 | there is documentation to attach exactly when some lines are pending |
| SymbolTables.Attach | src/symbol_table.rs:147-150 | with no pending lines the symbol is stored as given; otherwise its documentation becomes the pending lines joined by newlines |
| SymbolTables.AppendDoc | src/symbol_table.rs:182-187 | a new documentation line goes after the existing documentation, separated by a newline, or stands alone when there was none |
| SymbolTables.KeepsTransitive | src/symbol_table.rs:135-195 | keeping every definition (same scopes, same names, same kinds) composes across successive updates |
| SymbolTables.SymbolTable.constructor | src/symbol_table.rs:99-104 | a new table has one empty global scope and no pending documentation |
| SymbolTables.SymbolTable.EnterScope | src/symbol_table.rs:107-109 | pushes one empty innermost scope |
| SymbolTables.SymbolTable.ExitScope | src/symbol_table.rs:112-116 | drops the innermost scope, but never the global one |
| SymbolTables.SymbolTable.AddPendingDoc | src/symbol_table.rs:119-121 | appends one pending documentation line |
| SymbolTables.SymbolTable.TakePendingDocs | src/symbol_table.rs:124-132 | returns the pending lines joined by newlines, or none when there are none, and empties the list |
| SymbolTables.SymbolTable.ClearPendingDocs | src/symbol_table.rs:218-220 | empties the pending list and leaves the scopes alone |
| SymbolTables.SymbolTable.Define | src/symbol_table.rs:135-158 | a name already in the innermost scope fails with `EntityAlreadyDefined`, carrying both spans, and changes nothing; otherwise the symbol, with the pending documentation attached, is added to the innermost scope, becomes what the name resolves to, and the pending list is emptied |
| SymbolTables.SymbolTable.AddDocumentation | src/symbol_table.rs:181-195 | an unknown name fails with `UndefinedEntity` at the zero span and changes nothing; otherwise the innermost definition gains the line after its documentation, and no other name's definition changes |
| SymbolTables.SymbolTable.AllSymbols | src/symbol_table.rs:207-215 | lists every entry of every scope: one list item per entry, each from some scope, and none missing |
| SymbolTables.ScopeEntries | src/symbol_table.rs:210-212 | lists the entries of one scope, each exactly once |
| SymbolTables.ShadowThenExit | src/symbol_table.rs:255-290 | a definition in an inner scope hides the global one, and after leaving the scope the global one is found again |
| SymbolTables.Resolve | src/symbol_table.rs:161-169 | definition only: the definition in the last scope holding the name; SymbolTables.ResolveIsInnermost states that it is the innermost definition and exists exactly when some scope holds the name |
| SymbolTables.SymbolTable.Lookup | src/symbol_table.rs:161-169 | definition only: `Resolve` on the table's scopes; SymbolTables.ResolveIsInnermost states what it returns |
| Ast.SymbolRoundTrip | src/parser/ast.rs:84-116 | every operator's printed spelling reads back as that operator |
| Ast.SymbolInjective | src/parser/ast.rs:84-116 | distinct operators print differently |
| Ast.ItemSpan | src/parser/ast.rs:20-25 | an item's span is its function's or its main block's span |
| Ast.StatementSpan | src/parser/ast.rs:157-167 | an expression statement's span is its expression's span; every other statement has its own span |
| Ast.NewFunction | src/parser/ast.rs:340-355 | a new function keeps its name, parameters, return type, body and span, and has no documentation |
| Ast.FunctionWithDocumentation | src/parser/ast.rs:357-360 | sets the function's documentation and nothing else |
| Ast.NewMainBlock | src/parser/ast.rs:364-370 | a new main block keeps its body and span and has no documentation |
| Ast.MainWithDocumentation | src/parser/ast.rs:372-375 | sets the main block's documentation and nothing else |
| Ast.BinarySymbol | src/parser/ast.rs:84-99 | definition only: each binary operator's spelling; Ast.SymbolRoundTrip and Ast.SymbolInjective state that the spellings read back and are distinct |
| Ast.LogicalSymbol | src/parser/ast.rs:101-108 | definition only: `&&` and `\|\|`; Ast.SymbolRoundTrip states that they read back |
| Ast.UnarySymbol | src/parser/ast.rs:110-116 | definition only: `!`; Ast.SymbolRoundTrip states that it reads back |
| CodegenSpec.Assign | src/codegen/mod.rs:147-151 | a name without a slot gets the next slot and the counter moves on; a name that has one keeps it and nothing changes; no other slot moves and slots stay distinct |
| CodegenSpec.Reassign | src/codegen/mod.rs:78-93 | a symbol-table entry gets the next slot even when its name already had one; other names keep their slots and slots stay distinct |
| CodegenSpec.EntityDocs | src/codegen/mod.rs:100-103 | every documented entry's name gets documentation, the last documented entry for a name wins, other names keep what they had, and no name appears that was not already documented or an entry |
| CodegenSpec.GrowsTrans | src/codegen/mod.rs:144-193 | two successive collection steps that each keep every slot and add their own names together keep every slot and add both sets of names |
| CodegenSpec.AssignGrows | src/codegen/mod.rs:147-151 | one slot assignment keeps every slot and adds exactly the one name |
| CodegenSpec.CollectExprGrows | src/codegen/mod.rs:195-231 | collecting an expression gives a slot to exactly the names it reads, keeps every existing slot and keeps slots distinct |
| CodegenSpec.CollectArgsGrows | src/codegen/mod.rs:215-219 | collecting call arguments gives a slot to exactly the names they read |
| CodegenSpec.CollectStmtGrows | src/codegen/mod.rs:144-193 | collecting a statement gives a slot to exactly the names it declares, assigns or reads |
| CodegenSpec.CollectIfGrows | src/codegen/mod.rs:183-189 | collecting an `if` gives a slot to exactly the names of its condition and both blocks |
| CodegenSpec.CollectBlockGrows | src/codegen/mod.rs:136-141 | collecting a block gives a slot to exactly the names its statements mention |
| CodegenSpec.CollectParamsGrows | src/codegen/mod.rs:118-125 | collecting parameters gives a slot to exactly the parameter names |
| CodegenSpec.CollectItemsGrows | src/codegen/mod.rs:113-132 | collecting the items gives a slot to exactly the names they mention |
| CodegenSpec.CollectItemGrows | src/codegen/mod.rs:115-130 | collecting one item gives a slot to exactly the names its body and, for a function, its parameters mention |
| CodegenSpec.CollectSymbolsCovers | src/codegen/mod.rs:77-98 | the symbol-table pass keeps slots distinct, drops no name, and gives a slot to every `v$` variable and `c$` constant |
| CodegenSpec.CollectEntitiesCovers | src/codegen/mod.rs:71-110 | the first pass keeps slots distinct and gives a slot to every name the program mentions and every table entry that needs one |
| CodegenLemmas.TargetsConcat | src/codegen/mod.rs:254-259 | concatenating code whose jumps land in a range keeps them in that range |
| CodegenLemmas.StraightLineConcat | src/codegen/mod.rs:396-506 | concatenating code free of jumps, returns, halts and stores keeps it free of them |
| CodegenLemmas.ExprCodeShape | src/codegen/mod.rs:396-506 | an expression that lowers gives non-empty code free of jumps, returns, halts and stores |
| CodegenLemmas.ArgsCodeShape | src/codegen/mod.rs:478-481 | lowered arguments are free of jumps, returns, halts and stores |
| CodegenLemmas.TargetsWiden | src/codegen/mod.rs:254-259 | jumps that land in a range also land in any wider range |
| CodegenLemmas.StraightLineHasNoTargets | src/codegen/mod.rs:396-506 | code without jumps satisfies every jump-range bound |
| CodegenLemmas.ExprCompilesWhenCovered | src/codegen/mod.rs:414-424 | an expression whose names all have slots lowers without a missing-slot error; only a `print` arity error remains possible |
| CodegenLemmas.ArgsCompileWhenCovered | src/codegen/mod.rs:478-481 | arguments whose names all have slots lower without a missing-slot error |
| CodegenLemmas.ExprFailsWhenUncovered | src/codegen/mod.rs:414-424 | an expression that reads a name without a slot fails to lower |
| CodegenLemmas.ArgsFailWhenUncovered | src/codegen/mod.rs:478-481 | arguments that read a name without a slot fail to lower |
| CodegenLemmas.StmtCompilesWhenCovered | src/codegen/mod.rs:262-393 | a statement whose names all have slots lowers without a missing-slot error |
| CodegenLemmas.BlockCompilesWhenCovered | src/codegen/mod.rs:254-259 | a block whose names all have slots lowers without a missing-slot error |
| CodegenLemmas.StmtTargetsWithin | src/codegen/mod.rs:262-393 | every jump a statement lowers to lands inside the statement's own code or just after it |
| CodegenLemmas.IfTargetsWithin | src/codegen/mod.rs:264-306 | both patched jumps of an `if` land inside the statement's code or just after it |
| CodegenLemmas.IfThenCodeWithin | src/codegen/mod.rs:298-306 | without `else`, the conditional jump lands just after the then-block, so every jump stays within the statement |
| CodegenLemmas.IfElseCodeWithin | src/codegen/mod.rs:274-297 | with `else`, the conditional jump lands on the else-block and the closing jump just after it, so every jump stays within the statement |
| CodegenLemmas.BlockTargetsWithin | src/codegen/mod.rs:254-259 | every jump a block lowers to lands inside the block's code or just after it |
| CodegenLemmas.FunctionStaysInside | src/codegen/mod.rs:234-251 | with the corrected implicit return, a function's code ends in a return and every jump lands strictly inside it |
| CodegenLemmas.MainStaysInside | src/codegen/mod.rs:52-62 | the main block's code ends in `HALT` and every jump lands strictly inside it |
| CodegenLemmas.IfConditionFails | src/codegen/mod.rs:266 | a condition that fails to lower fails the whole `if` with its error |
| CodegenLemmas.IfThenFails | src/codegen/mod.rs:273 | a then-block that fails to lower fails the whole `if` with its error |
| CodegenLemmas.IfLowersWithoutElse | src/codegen/mod.rs:264-306 | without `else` an `if` lowers to the condition, a jump past the then-block, and the then-block |
| CodegenLemmas.IfElseFails | src/codegen/mod.rs:289 | an else-block that fails to lower fails the whole `if` with its error |
| CodegenLemmas.IfLowersWithElse | src/codegen/mod.rs:264-306 | with `else` an `if` lowers to the condition, a jump to the else-block, the then-block, a jump past the else-block, and the else-block |
| CodegenLemmas.ArgsErrorPersists | src/codegen/mod.rs:478-481 | once an argument fails to lower, the whole argument list fails with that error |
| CodegenLemmas.BlockErrorPersists | src/codegen/mod.rs:254-259 | once a statement fails to lower, the whole block fails with that error |
| CodegenLemmas.LayoutErrorPersists | src/codegen/mod.rs:46-64 | once an item fails to lower, the whole program fails with that error |
| CodegenLemmas.AppendStaysClosed | src/codegen/mod.rs:46-64 | appending code whose jumps stay inside it, and recording its start, keeps every jump target and function start an instruction index |
| CodegenLemmas.LayoutInBounds | src/codegen/mod.rs:46-64 | after laying out items from a closed layout, every jump target and function start is an instruction index, and so is the entry point once a main block was laid out |
| CodegenLemmas.LayoutCompilesWhenCovered | src/codegen/mod.rs:46-64 | items whose names all have slots lay out without a missing-slot error |
| CodegenLemmas.GenerateFailsOnlyOnPrintArity | src/codegen/mod.rs:38-67 | the first pass gives a slot to every name the second pass looks up, so generation fails only on a `print` call with the wrong number of arguments |
| CodegenLemmas.GeneratedProgramIsClosed | src/codegen/mod.rs:38-67 | a new generator's output has every jump target and function start inside the code, and its entry point too when there is a main block |
| CodegenLemmas.AsWrittenFallsOffTheEnd | src/codegen/mod.rs:234-251 | as written, `fn f$0(v$0 int) -> int { if (v$0) { ret 1; } }` gets no implicit `RETURN` and its false branch jumps to index 4, past its code; the corrected rule appends `RETURN` there |
| CodegenLemmas.ParameterSlotsFollowBodyOrder | src/codegen/mod.rs:113-132 | slots follow the order in which names are first met in the body: in `ret v$1 - v$0;` `v$1` gets slot 0 and `v$0` slot 1 |
| CodeGenerators.Retargeted | src/codegen/mod.rs:282-305 | patching retargets a `JUMP` or `JUMP_IF_FALSE` at the index and leaves the code unchanged when the index holds anything else |
| CodeGenerators.CodeGenerator.constructor | src/codegen/mod.rs:27-35 | a new generator has no code, entry point 0, no function starts, spans or documentation, and no slots |
| CodeGenerators.CodeGenerator.EmitWithSpan | src/codegen/mod.rs:509-513 | appends the instruction, records its span under the returned index, and keeps every instruction's span recorded |
| CodeGenerators.CodeGenerator.Patch | src/codegen/mod.rs:282-305 | retargets the placeholder jump at the index and changes nothing else |
| CodeGenerators.CodeGenerator.CollectFromExpression | src/codegen/mod.rs:195-231 | the slot state becomes exactly what the expression collection function gives |
| CodeGenerators.CodeGenerator.AssignSlot | src/codegen/mod.rs:147-151 | the slot state becomes exactly the result of the give-a-slot-unless-present rule |
| CodeGenerators.CodeGenerator.CollectFromStatement | src/codegen/mod.rs:144-193 | the slot state becomes exactly what the statement collection function gives |
| CodeGenerators.CodeGenerator.CollectFromBlock | src/codegen/mod.rs:136-141 | the slot state becomes exactly what the block collection function gives |
| CodeGenerators.CodeGenerator.CollectFromAst | src/codegen/mod.rs:113-132 | the slot state becomes exactly what the item collection function gives |
| CodeGenerators.CodeGenerator.CollectEntities | src/codegen/mod.rs:71-110 | the slot state and the copied documentation become exactly what the first pass describes; spans and function starts stay |
| CodeGenerators.CodeGenerator.GenerateExpression | src/codegen/mod.rs:396-506 | succeeds exactly when the expression lowers, fails with the same error otherwise, and on success appends exactly the lowered code |
| CodeGenerators.CodeGenerator.GenerateArguments | src/codegen/mod.rs:478-481 | lowers the arguments in order, exactly as the argument lowering describes |
| CodeGenerators.CodeGenerator.GenerateStore | src/codegen/mod.rs:310-350 | a declaration or assignment appends its value's code and a `STOREVAR` into the name's slot, or fails with the missing-slot error |
| CodeGenerators.CodeGenerator.GenerateIf | src/codegen/mod.rs:264-306 | the `if` arm, placeholders patched, appends exactly the statement's lowered code or fails with its error |
| CodeGenerators.CodeGenerator.GenerateElse | src/codegen/mod.rs:276-297 | once the then-block is out, emitting the closing jump, patching the conditional jump and lowering the else-block completes the `if`'s lowered code |
| CodeGenerators.CodeGenerator.GenerateElseBlock | src/codegen/mod.rs:286-296 | lowering the else-block and patching the closing jump completes the `if`'s lowered code |
| CodeGenerators.CodeGenerator.GenerateStatement | src/codegen/mod.rs:262-393 | succeeds exactly when the statement lowers at the current index, fails with the same error otherwise, and on success appends exactly its code |
| CodeGenerators.CodeGenerator.GenerateBlock | src/codegen/mod.rs:254-259 | lowers the statements in order and stops at the first error, exactly as block lowering describes |
| CodeGenerators.CodeGenerator.GenerateFunction | src/codegen/mod.rs:234-251 | records the function's start, and appends its body followed by `RETURN` unless the body ends with `ret` (the corrected rule) |
| CodeGenerators.CodeGenerator.GenerateMain | src/codegen/mod.rs:52-62 | sets the entry point and the `main` start to the current index, then appends the body and `HALT` |
| CodeGenerators.CodeGenerator.GenerateItems | src/codegen/mod.rs:46-64 | lays out every item in order, stopping at the first error, exactly as the layout function describes |
| CodeGenerators.CodeGenerator.Generate | src/codegen/mod.rs:38-67 | both passes: the slots and documentation come from the symbol table's entries and the syntax tree, the code, entry point and starts are the layout's, and fresh copies are returned |
| CodegenSpec.CollectSymbols | src/codegen/mod.rs:77-98 | definition only; CodegenSpec.CollectSymbolsCovers states that every `v$`/`c$` entry gets a slot and the slots stay distinct |
| CodegenSpec.CollectExpr | src/codegen/mod.rs:195-231 | definition only; CodegenSpec.CollectExprGrows states that exactly the names the expression reads gain a slot, distinct from the others |
| CodegenSpec.CollectArgs | src/codegen/mod.rs:215-219 | definition only; CodegenSpec.CollectArgsGrows states the same for call arguments |
| CodegenSpec.CollectStmt | src/codegen/mod.rs:144-193 | definition only; CodegenSpec.CollectStmtGrows states the same for a statement's names |
| CodegenSpec.CollectBlock | src/codegen/mod.rs:136-141 | definition only; CodegenSpec.CollectBlockGrows states the same for a block |
| CodegenSpec.CollectParams | src/codegen/mod.rs:118-125 | definition only; CodegenSpec.CollectParamsGrows states the same for parameters |
| CodegenSpec.CollectItem | src/codegen/mod.rs:115-130 | definition only; CodegenSpec.CollectItemGrows states the same for an item |
| CodegenSpec.CollectItems | src/codegen/mod.rs:113-132 | definition only; CodegenSpec.CollectItemsGrows states the same for a program |
| CodegenSpec.CollectEntities | src/codegen/mod.rs:71-110 | definition only; CodegenSpec.CollectEntitiesCovers states that every name the program mentions has a distinct slot below the counter |
| CodegenSpec.BinaryInstruction | src/codegen/mod.rs:432-443 | definition only: the instruction of each binary operator |
| CodegenSpec.LogicalInstruction | src/codegen/mod.rs:457-460 | definition only: the instruction of each logical operator |
| CodegenSpec.CompileExpr | src/codegen/mod.rs:396-506 | definition only; CodegenLemmas.ExprCodeShape, CodegenLemmas.ExprCompilesWhenCovered and CodegenLemmas.ExprFailsWhenUncovered state its shape and when it fails |
| CodegenSpec.CompileArgs | src/codegen/mod.rs:478-481 | definition only; CodegenLemmas.ArgsCodeShape, CodegenLemmas.ArgsCompileWhenCovered and CodegenLemmas.ArgsFailWhenUncovered state the same for arguments |
| CodegenSpec.CompileStore | src/codegen/mod.rs:310-350 | definition only: the value's code then `STOREVAR` of the target's slot, or the missing-slot error |
| CodegenSpec.CompileIf | src/codegen/mod.rs:264-306 | definition only; CodegenLemmas.IfLowersWithoutElse, CodegenLemmas.IfLowersWithElse and CodegenLemmas.IfTargetsWithin state its layout and jump targets |
| CodegenSpec.CompileStmt | src/codegen/mod.rs:262-393 | definition only; CodegenLemmas.StmtCompilesWhenCovered and CodegenLemmas.StmtTargetsWithin state when it succeeds and where its jumps land |
| CodegenSpec.CompileBlock | src/codegen/mod.rs:254-259 | definition only; CodegenLemmas.BlockCompilesWhenCovered and CodegenLemmas.BlockTargetsWithin state the same for a block |
| CodegenSpec.EndsWithReturn | src/codegen/mod.rs:243-248 | definition only: the block's last statement is a `ret`; the corrected implicit-return test |
| CodegenSpec.IsReturn | src/codegen/mod.rs:244-246 | definition only: `RETURN` or `RETURN_VALUE`, the as-written test on the last instruction |
| CodegenSpec.CompileFunctionAsWritten | src/codegen/mod.rs:234-251 | definition only; CodegenLemmas.AsWrittenFallsOffTheEnd states an input whose code lets a jump leave the function |
| CodegenSpec.CompileFunction | src/codegen/mod.rs:234-251 | definition only; CodegenLemmas.FunctionStaysInside states that its code ends in a return and its jumps land inside it |
| CodegenSpec.CompileMain | src/codegen/mod.rs:52-62 | definition only; CodegenLemmas.MainStaysInside states that its code ends in `HALT` and its jumps land inside it |
| CodegenSpec.LayoutItems | src/codegen/mod.rs:46-64 | definition only; CodegenLemmas.LayoutInBounds and CodegenLemmas.LayoutErrorPersists state that every jump, start and entry point is an instruction index and that an error ends the pass |
| CodegenSpec.Generate | src/codegen/mod.rs:38-67 | definition only; CodegenLemmas.GenerateFailsOnlyOnPrintArity and CodegenLemmas.GeneratedProgramIsClosed state when it fails and that its output is closed |
| CodegenSpec.MissingSlot | src/codegen/mod.rs:319 | definition only: the `not found in slots` message |
| CodeGenerators.Regroup | src/codegen/mod.rs:274-297 | the code of an `if` with `else` regroups as the code before it followed by the statement's own code |
| CodeGenerators.UpdateMiddle | src/codegen/mod.rs:282-305 | patching the placeholder jump changes only that instruction |
| LexerSpec.CharAt | src/lexer/mod.rs:42 | there is a current character exactly when the position is inside the input, and it is the character there |
| LexerSpec.Advance | src/lexer/mod.rs:31-43 | advancing always moves the position by one |
| LexerSpec.StartTracks | src/lexer/mod.rs:18-28 | a new lexer's line 1, column 1 are those of position 0 |
| LexerSpec.AdvanceTracks | src/lexer/mod.rs:31-43 | advancing keeps the line equal to one plus the newlines read and the column equal to one plus the characters since the last newline |
| LexerSpec.SkipWhile | src/lexer/mod.rs:51-59 | a scanning loop never moves back, stays on its line, moves the column by as many characters as it skips, and moves when it starts on a character of its class |
| LexerSpec.SkipWhileRun | src/lexer/mod.rs:51-59 | a scanning loop skips exactly the maximal run of its class and keeps line and column in step with the position |
| LexerSpec.SkipWhileExact | src/lexer/mod.rs:66-72 | a run of exactly n characters of the class is skipped in exactly n steps |
| LexerSpec.StringBody | src/lexer/mod.rs:89-131 | a literal body that is read successfully ends just after a closing quote, within the input, with no newline read on the way, and its text is the input from the body's start up to that quote, escapes kept as written |
| LexerSpec.ReadString | src/lexer/mod.rs:82-132 | a string literal that is read successfully runs from its opening quote to a later closing quote, within the input, with no newline between them, and its text is exactly the raw input between the two quotes |
| LexerSpec.ParseEntity | src/lexer/mod.rs:181-212 | an identifier `x$digits` of length at least three is an entity exactly when its number parses, with that number, a variable for `v` and a constant for `c`; a malformed number after `x$` is an `InvalidEntityNumber` error exactly then; everything else is not an entity |
| LexerSpec.DocText | src/lexer/mod.rs:221-240 | a comment's text is a `DocComment` token and the cursor stays within the input |
| LexerSpec.ReadDocComment | src/lexer/mod.rs:215-241 | the corrected comment reader returns a `DocComment` and moves past the slash it started on without leaving the input |
| LexerSpec.TokenAt | src/lexer/mod.rs:258-414 | every arm that returns a token consumes at least one character, stays within the input and never returns `Eof` |
| LexerSpec.NextToken | src/lexer/mod.rs:244-417 | a token other than `Eof` consumes at least one character; `Eof` is returned only at the end of the input; LexerLemmas.CommentsAreSkipped states that a `//` comment yields no token |
| LexerSpec.LexStep | src/lexer/mod.rs:420-434 | tokenizing puts a token other than `Eof` before the tokens of the rest of the input |
| LexerSpec.LexStops | src/lexer/mod.rs:420-434 | tokenizing stops after `Eof`, and at the first error with that error |
| LexerSpec.PrependEmpty | src/lexer/mod.rs:420-434 | putting no tokens in front of an outcome leaves it unchanged |
| LexerSpec.PrependTwice | src/lexer/mod.rs:420-434 | putting tokens in front twice is putting their concatenation in front once |
| Lexers.Lexer.constructor | src/lexer/mod.rs:18-28 | a new lexer is at position 0, line 1, column 1, on the input's first character |
| Lexers.Lexer.Advance | src/lexer/mod.rs:31-43 | moves the cursor exactly as the advance function describes and keeps the current character the one at the position |
| Lexers.Lexer.SkipWhile | src/lexer/mod.rs:52-58 | the scanning loop leaves the cursor at the end of the run of the class |
| Lexers.Lexer.SkipWhitespace | src/lexer/mod.rs:51-59 | skips the blanks other than newlines |
| Lexers.Lexer.ReadNumber | src/lexer/mod.rs:62-79 | reads the digit run as an `i64`, or fails with `InvalidNumber` spanning it, leaving the cursor as the reading function says |
| Lexers.Lexer.ReadStringLiteral | src/lexer/mod.rs:82-132 | gives the literal's text and error exactly as LexerSpec.ReadString does, so the text is the raw input between the quotes, escapes checked and kept as written |
| Lexers.Lexer.ReadIdentifier | src/lexer/mod.rs:135-178 | reads an entity, then a keyword, or fails with `UnknownIdentifier` or `InvalidEntityNumber` |
| Lexers.Lexer.ReadDocComment | src/lexer/mod.rs:215-241 | the corrected comment reader: skips the two slashes still ahead, the blanks, then reads to the end of the line |
| Lexers.Lexer.OneOrTwo | src/lexer/mod.rs:263-305 | reads a two-character operator when the next character completes it, and the one-character token otherwise |
| Lexers.Lexer.ReadToken | src/lexer/mod.rs:258-414 | every arm that returns at once agrees with the token function |
| Lexers.Lexer.NextToken | src/lexer/mod.rs:244-417 | skips blanks and `//` comments, returns a newline token for a newline, and otherwise reads one token, exactly as the next-token function describes |
| Lexers.Lexer.Tokenize | src/lexer/mod.rs:420-434 | returns the tokens up to and including the first `Eof`, or the first error |
| LexerLemmas.LexEndsWithEof | src/lexer/mod.rs:420-434 | a successful tokenization ends with `Eof` and holds no other `Eof` |
| LexerLemmas.EofOnlyAtEnd | src/lexer/mod.rs:420-434 | putting a token other than `Eof` in front of a stream that has `Eof` exactly at its end keeps `Eof` exactly at the end |
| LexerLemmas.StringBodyTracks | src/lexer/mod.rs:89-125 | reading a literal body keeps line and column in step with the position |
| LexerLemmas.TokenAtTracks | src/lexer/mod.rs:258-414 | every token arm keeps line and column in step with the position |
| LexerLemmas.ReadTracks | src/lexer/mod.rs:258-339 | the number, string and word arms keep line and column in step with the position |
| LexerLemmas.QuoteTracks | src/lexer/mod.rs:82-132 | the string arm, from the opening quote to just after the closing one, keeps line and column in step with the position |
| LexerLemmas.SymbolTracks | src/lexer/mod.rs:263-414 | the operator, delimiter and comment arms keep line and column in step with the position |
| LexerLemmas.DocTextTracks | src/lexer/mod.rs:215-241 | reading a documentation comment keeps line and column in step with the position |
| LexerLemmas.NextTokenTracks | src/lexer/mod.rs:244-417 | after every token the line and column are those of the position reached, so spans name real places |
| LexerLemmas.NewlineIsAToken | src/lexer/mod.rs:249-252 | a newline is a token of its own and moves to column 1 of the next line |
| LexerLemmas.BlanksAreSkipped | src/lexer/mod.rs:249-256 | blanks other than newlines produce no token: the next token is the one after them |
| LexerLemmas.TwoCharOperators | src/lexer/mod.rs:263-375 | `==`, `!=`, `<=`, `>=`, `&&`, `\|\|` and `->` are recognised by looking one character ahead and consume two characters |
| LexerLemmas.LoneAmpersandOrBar | src/lexer/mod.rs:307-331 | a single `&` or `\|` is an unexpected character reported at its own position |
| LexerLemmas.NextTokenIsTokenAt | src/lexer/mod.rs:244-417 | away from blanks and `//` comments, the next token is read at once by the token arms |
| LexerLemmas.TokenAtSlash | src/lexer/mod.rs:341-359 | a `/` followed by `/` starts a documentation comment here; otherwise it is division |
| LexerLemmas.TokenAtDigit | src/lexer/mod.rs:258-261 | a digit starts a number token |
| LexerLemmas.TokenAtQuote | src/lexer/mod.rs:332-335 | a quote starts a string token |
| LexerLemmas.TokenAtWord | src/lexer/mod.rs:337-339 | a letter starts an entity name or a keyword |
| LexerLemmas.TokenAtSingle | src/lexer/mod.rs:362-407 | `+ * ( ) { } ; ,` are each a token on their own and consume one character |
| LexerLemmas.TokenAtOneOrTwo | src/lexer/mod.rs:263-375 | `=`, `!`, `<`, `>` and `-` are read with one character of lookahead |
| LexerLemmas.DocCommentAsWritten | src/lexer/mod.rs:215-241 | as written, `///abc` reads as the comment `bc` and a `///` that ends the input slices past its end |
| LexerLemmas.DocCommentCorrected | src/lexer/mod.rs:341-346 | corrected, `///abc` reads as the comment `abc` and the cursor ends after it |
| LexerLemmas.TripleSlash | src/lexer/mod.rs:341-346 | on `///` the slash arm reads a documentation comment whose text starts just after the three slashes, three columns on |
| LexerLemmas.DocTextAbc | src/lexer/mod.rs:221-240 | the text after `///` in `///abc` is `abc`, read to the end of the input |
| LexerLemmas.DocCommentAtEnd | src/lexer/mod.rs:341-346 | corrected, a `///` that ends the input is an empty comment |
| LexerLemmas.ReadsWord | src/lexer/mod.rs:140-146 | a word followed by a separator is read as a whole, and the cursor stops right after it |
| LexerLemmas.KeywordSpelling | src/lexer/mod.rs:156-168 | every keyword's display is a letters-only word that reads back as that keyword and is no entity name |
| LexerLemmas.KeywordRoundTrip | src/lexer/mod.rs:135-178 | a keyword's display followed by a separator lexes back to the keyword |
| LexerLemmas.EntityRoundTrip | src/lexer/mod.rs:181-212 | an entity's display (`v$N`, `c$N`, `f$N`) followed by a separator lexes back to the entity |
| LexerLemmas.EntityWord | src/types/entity.rs:50-65 | an entity's full name is a word of identifier characters, at least three long, with `$` second and the decimal number after it, so the lexer's identifier reader takes it whole |
| LexerLemmas.IntegerRoundTrip | src/lexer/mod.rs:62-79 | the decimal text of a non-negative `i64` followed by a separator lexes back to that integer |
| LexerLemmas.PlainBody | src/lexer/mod.rs:89-93 | a literal body of plain characters runs to the closing quote and is returned as it is |
| LexerLemmas.StringRoundTrip | src/lexer/mod.rs:332-335 | a quoted plain string followed by a separator lexes back to the string |
| LexerLemmas.ReadStringRoundTrip | src/lexer/mod.rs:82-93 | between its quotes, plain text is read back as it is, and the cursor ends after the closing quote |
| LexerLemmas.EscapedQuoteKept | src/lexer/mod.rs:86-119 | for any plain texts `a` and `b`, the literal `"a\"b"` is read as the text `a\"b`, the escaped quote checked and kept as written, and the cursor ends after the closing quote |
| LexerLemmas.EscapedBody | src/lexer/mod.rs:89-119 | over plain characters, one escaped quote and more plain characters, the literal reader returns everything from the body's start up to the closing quote, unchanged, and stops just after that quote |
| LexerLemmas.DocCommentRoundTrip | src/lexer/mod.rs:341-346 | corrected, `/// text` followed by a separator lexes back to the comment `text` |
| LexerLemmas.DocTextRoundTrip | src/lexer/mod.rs:221-240 | the text after `///` and one space is read up to the separator that follows it |
| LexerLemmas.TwoCharRoundTrip | src/lexer/mod.rs:263-375 | each two-character operator's display lexes back to it |
| LexerLemmas.OneCharRoundTrip | src/lexer/mod.rs:341-407 | each one-character operator or delimiter's display followed by a separator lexes back to it |
| LexerLemmas.SingleRoundTrip | src/lexer/mod.rs:362-407 | `+ * ( ) { } ; ,` lex back to their token whatever follows |
| LexerLemmas.SingleCharRoundTrip | src/lexer/mod.rs:362-407 | each self-standing character lexes back to its token whatever follows |
| LexerLemmas.PrefixRoundTrip | src/lexer/mod.rs:263-375 | `/ = ! < > -` followed by a separator lex back to the one-character token |
| LexerLemmas.PrefixCharRoundTrip | src/lexer/mod.rs:263-375 | a character that may start a two-character operator lexes to its one-character token when a separator follows |
| LexerLemmas.DisplayRoundTrip | src/lexer/token.rs:68-115 | the display of every lexable token, followed by nothing or a newline, lexes back to that token and consumes exactly its display |
| LexerLemmas.LexDisplay | src/lexer/mod.rs:420-434 | a lexable token's display alone tokenizes to that token followed by `Eof` |
| LexerSpec.IsWhitespace | src/lexer/mod.rs:51-59 | definition only: Rust's `char::is_whitespace`; LexerLemmas.BlanksAreSkipped states that blanks other than newlines produce no token |
| LexerSpec.IsAlphabetic | src/lexer/mod.rs:140-146 | definition only: the ASCII letters; LexerLemmas.ReadsWord states that a word of identifier characters is read whole |
| LexerSpec.ReadNumber | src/lexer/mod.rs:62-79 | definition only: the digits as an `i64`, or `InvalidNumber` on overflow; LexerLemmas.IntegerRoundTrip states that a printed integer reads back, and Lexers.Lexer.ReadNumber is proved to agree with it |
| LexerSpec.Keyword | src/lexer/mod.rs:156-168 | definition only: the twelve keywords; LexerLemmas.KeywordSpelling and LexerLemmas.KeywordRoundTrip state that each reads back to its token |
| LexerSpec.IsEscape | src/lexer/mod.rs:105 | definition only: `n`, `t`, `r`, backslash and double quote |
| LexerSpec.ReadIdentifier | src/lexer/mod.rs:135-178 | reads the maximal run of identifier characters as an entity or a keyword; a malformed entity number is an `InvalidEntityNumber` error, and a word that is neither entity nor keyword is `UnknownIdentifier` with the span of the word |
| LexerLemmas.CommentsAreSkipped | src/lexer/mod.rs:341-359 | a `//` comment that is not a documentation comment produces no token: the next token is the one at the newline that ends it, or `Eof` |
| LexerLemmas.CommentStep | src/lexer/mod.rs:341-359 | at a `//` that is not a documentation comment, the next token is the one after the rest of the line is skipped |
| LexerLemmas.PlainRun | src/lexer/mod.rs:120-122 | over characters that are not a quote, a backslash or a newline the literal reader only moves along the line |
| LexerLemmas.UnterminatedString | src/lexer/mod.rs:89-131 | a string literal whose line or input ends before a closing quote is an error |
| LexerLemmas.UnterminatedPlainString | src/lexer/mod.rs:94-131 | a literal without escapes that meets a newline or the end of the input is the `closing quote before newline` or `closing quote` error, spanning from the opening quote |
| LexerLemmas.BadEscape | src/lexer/mod.rs:100-119 | a backslash at the end of the input is the `escaped character` error, and one followed by a character other than `n`, `t`, `r`, `\\` or `"` is `UnexpectedCharacter` at that character |
| LexerLemmas.EscapeAt | src/lexer/mod.rs:100-119 | on a backslash the literal reader fails with the `escaped character` error when the input ends, and with `UnexpectedCharacter` at the next character when that is not `n`, `t`, `r`, `\\` or `"` |
| LexerLemmas.UnknownWord | src/lexer/mod.rs:155-178 | a word that is neither an entity nor a keyword is `UnknownIdentifier` naming the word, with its span |
| LexerSpec.ReadDocCommentAsWritten | src/lexer/mod.rs:215-241 | definition only; LexerLemmas.DocCommentAsWritten states that it drops the first character after `///` and fails on a trailing `///` |
| LexerSpec.OneOrTwo | src/lexer/mod.rs:263-375 | definition only; LexerLemmas.TwoCharOperators states which pairs read as one token, and Lexers.Lexer.OneOrTwo is proved to agree with it |
| LexerSpec.SingleCharToken | src/lexer/mod.rs:362-407 | definition only: the eight one-character tokens; LexerLemmas.TokenAtSingle states that each is read as it |
| LexerSpec.PlainCommentAt | src/lexer/mod.rs:341-359 | definition only: `//` not followed by a third `/`; LexerLemmas.TokenAtSlash states how `/` is read |
| LexerSpec.Lex | src/lexer/mod.rs:420-434 | definition only; LexerLemmas.LexEndsWithEof and LexerLemmas.LexDisplay state that it ends with one `Eof` and reads printed tokens back, and Lexers.Lexer.Tokenize is proved to agree with it |
| Lexers.Lexer.Peek | src/lexer/mod.rs:46-48 | definition only: the character after the current one, or none at the end; LexerSpec.OneOrTwo reads it through `CharAt` |
| ParserSpec.Current | src/parser/mod.rs:37-39 | past the end of the token list the current token is `Eof` |
| ParserSpec.Next | src/parser/mod.rs:56-61 | advancing moves one token on, but never past an `Eof` and never past the end of the list |
| ParserSpec.Consume | src/parser/mod.rs:72-82 | consuming succeeds exactly when the current token is of the expected variant and not `Eof`, and then moves one token on; otherwise it is an `UnexpectedToken` error naming the expected token and the one found |
| ParserSpec.InfixAt | src/parser/mod.rs:723-841 | only a real token can stand for an operator of a level |
| ParserSpec.EntityName | src/parser/mod.rs:884-904 | an entity name is its prefix letter and `$` followed by the number |
| ParserSpec.Expr | src/parser/mod.rs:718-841 | an expression read successfully consumes at least one token and stays within the token list |
| ParserSpec.Loop | src/parser/mod.rs:726-733 | the operator loop of a level never moves back and stays within the token list |
| ParserSpec.UnaryExpr | src/parser/mod.rs:844-858 | a unary expression read successfully consumes at least one token and stays within the token list |
| ParserSpec.Primary | src/parser/mod.rs:861-977 | a primary expression read successfully consumes at least one token and stays within the token list |
| ParserSpec.Literal | src/parser/mod.rs:865-902 | a literal or an entity name consumes exactly one token |
| ParserSpec.LiteralValue | src/parser/mod.rs:865-902 | a literal or name is read only from a real token of the list |
| ParserSpec.Call | src/parser/mod.rs:903-964 | a call read successfully is a `FunctionCall` of the callee's name and consumes at least its parentheses |
| ParserSpec.ArgumentList | src/parser/mod.rs:910-922 | the argument list never moves back and stays within the token list |
| ParserSpec.Arguments | src/parser/mod.rs:912-921 | at least one argument is read, consuming at least one token |
| ParserSpec.SkipNewlines | src/parser/mod.rs:92-96 | stops at or after the start, within the input, on a token that is not a newline; ParserLemmas.SkipNewlinesSkipsNewlines states that everything skipped is a newline |
| ParserSpec.DocComments | src/parser/mod.rs:99-113 | reads the doc comments ahead and stops on a token that is not one; it collects none exactly when it does not move |
| ParserSpec.ParamTypes | src/parser/mod.rs:206-212 | a function's type lists its parameters' types in order |
| ParserSpec.NameOf | src/parser/mod.rs:633-656 | an accepted entity token names an entity with one of the accepted prefixes, followed by `$` |
| ParserLemmas.InfixTokenRoundTrip | src/parser/mod.rs:723-841 | every binary and logical operator is read from some token, and reading that token gives the operator back |
| ParserLemmas.InfixSpelling | src/parser/ast.rs:84-108 | an infix token is read as the operator that displays with the token's own spelling, and that operator's token is the one read |
| ParserLemmas.NotSpelling | src/parser/ast.rs:110-116 | the unary `!` is read from the token that displays as `!` |
| ParserLemmas.Rise | src/parser/mod.rs:723-841 | an expression read at a tighter level is what every looser level reads, when no operator of those levels follows it |
| ParserLemmas.FailRise | src/parser/mod.rs:723-841 | an error at a tighter level is the error of every looser level |
| ParserLemmas.Step | src/parser/mod.rs:726-733 | after `left op right` at a level, that level's loop goes on with the combined operand |
| ParserLemmas.LoopStops | src/parser/mod.rs:726-735 | a level's loop stops at once when no operator of that level follows |
| ParserLemmas.AtomIsUnary | src/parser/mod.rs:865-902 | a literal or name not followed by `(` is read whole by the unary level, consuming one token |
| ParserLemmas.AtomBefore | src/parser/mod.rs:723-841 | a literal or name followed only by operators of tighter levels is read whole at a looser level |
| ParserLemmas.Binary | src/parser/mod.rs:723-841 | an operand, an operator and a second operand, read at a level no tighter than the operator, give the operator applied to both |
| ParserLemmas.Extend | src/parser/mod.rs:723-841 | a longer left operand, an operator and a right operand, read at a looser level, give the operator applied to both |
| ParserLemmas.TwoAtoms | src/parser/mod.rs:723-841 | `a op b` is read as `op` applied to `a` and `b` at every level no tighter than `op` |
| ParserLemmas.SameLevel | src/parser/mod.rs:723-841 | `a op1 b op2 c` with both operators on one level is `(a op1 b) op2 c`: operators group to the left |
| ParserLemmas.TighterFirst | src/parser/mod.rs:1156-1158 | `a op1 b op2 c` with `op1` the tighter is `(a op1 b) op2 c` |
| ParserLemmas.TighterSecond | src/parser/mod.rs:1156-1158 | `a op1 b op2 c` with `op2` the tighter is `a op1 (b op2 c)` |
| ParserLemmas.Precedence | src/parser/mod.rs:1153-1168 | `a op1 b op2 c` groups to the left when `op1` binds at least as tightly as `op2`, and to the right when `op2` binds tighter |
| ParserLemmas.NotOperand | src/parser/mod.rs:844-858 | `!a` is read whole as `Not` applied to `a` |
| ParserLemmas.NotBindsTightest | src/parser/mod.rs:1157 | `!a op b` is `(!a) op b` for every binary and logical operator |
| ParserLemmas.ParenOperand | src/parser/mod.rs:965-970 | `(a op b)` is read whole by the unary level as `a op b` |
| ParserLemmas.ParenthesesGroup | src/parser/mod.rs:965-970 | `(a op1 b) op2 c` keeps the parenthesised pair together whatever the two operators' levels |
| ParserLemmas.PrimaryParen | src/parser/mod.rs:965-970 | a parenthesised expression is the expression inside once the closing parenthesis follows, and an error otherwise |
| ParserLemmas.ArgumentsStep | src/parser/mod.rs:912-921 | one round of the argument loop: an argument's error stops the loop, a comma goes on to the next argument, anything else ends the list |
| ParserLemmas.VariableCallRejected | src/parser/mod.rs:883-894 | `v$N(` is an `UnexpectedToken` error asking for a function name |
| ParserLemmas.TypeKeywordSpelling | src/parser/mod.rs:695-715 | a type keyword is read as the type whose name is the keyword's spelling |
| ParserLemmas.DefinitionKept | src/parser/mod.rs:205-233 | a function definition survives every later change that keeps the definitions of its scope |
| ParserLemmas.KeepsPrefix | src/parser/mod.rs:215-233 | what keeps the definitions of all scopes keeps those of the outer scopes |
| Parsers.Parser.ParseName | src/parser/mod.rs:633-656 | the name of an accepted entity token, moving one token on, or an `UnexpectedToken` error naming what was expected, without moving |
| Parsers.Parser.FromTokens | src/parser/mod.rs:29-33 | a parser over the given tokens and symbol table, at the first token |
| Parsers.Parser.New | src/parser/mod.rs:25-34 | a parser exists exactly when the source tokenizes; it then holds those tokens at position 0, and otherwise the lexical error is returned as it is |
| Parsers.Parser.Advance | src/parser/mod.rs:56-61 | moves as the cursor function says and returns the token moved over |
| Parsers.Parser.Consume | src/parser/mod.rs:72-82 | returns the expected token and moves one on, or an `UnexpectedToken` error that leaves the cursor where it is |
| Parsers.Parser.SkipNewlines | src/parser/mod.rs:92-96 | leaves the cursor on the first token ahead that is not a newline |
| Parsers.Parser.CollectDocumentation | src/parser/mod.rs:99-113 | returns the doc comments ahead joined by newlines, or None when there are none, and moves past them |
| Parsers.Parser.ParseExpression | src/parser/mod.rs:718-720 | builds exactly the expression the grammar reads at the loosest level, and moves as far |
| Parsers.Parser.ParseLevel | src/parser/mod.rs:723-841 | builds exactly the expression the grammar reads at the level, and moves as far |
| Parsers.Parser.ParseUnary | src/parser/mod.rs:844-858 | builds exactly the unary expression the grammar reads, and moves as far |
| Parsers.Parser.ParsePrimary | src/parser/mod.rs:861-977 | builds exactly the primary expression the grammar reads, and moves as far |
| Parsers.Parser.ParseLiteral | src/parser/mod.rs:865-902 | builds exactly the literal or name the grammar reads, or its error |
| Parsers.Parser.ParseParenthesised | src/parser/mod.rs:965-970 | builds exactly the parenthesised expression the grammar reads |
| Parsers.Parser.ParseCall | src/parser/mod.rs:903-964 | builds exactly the call the grammar reads after the callee's name |
| Parsers.Parser.ParseArgumentList | src/parser/mod.rs:910-924 | builds exactly the argument list the grammar reads |
| Parsers.Parser.ParseArguments | src/parser/mod.rs:912-921 | the argument loop builds exactly the arguments the grammar reads |
| Parsers.Parser.ParseProgram | src/parser/mod.rs:116-138 | on success the cursor is at `Eof`, the outer definitions are kept, every function of the program is defined with its signature and no two share a name, and the items are the ones the tokens select (`fn` a function, `main` the main block) at increasing positions |
| Parsers.Parser.ParseDocumentedItem | src/parser/mod.rs:122-129 | the item is the one the first token after the doc comments selects and the cursor moves past it; a function is defined and was not defined before; the pending documentation is used up; a token other than `fn` or `main` there is the `UnexpectedToken` error asking for `fn or main`; the outer definitions are kept |
| Parsers.Parser.ParseItem | src/parser/mod.rs:141-157 | `fn` gives a function and `main` the main block; any other token is an `UnexpectedToken` error that changes nothing |
| Parsers.Parser.ParseFunction | src/parser/mod.rs:160-246 | the function is defined with its parameter and return types and was not defined before, its name is the `f$N` after `fn`, its parameters have distinct names, its signature is the one ParserSpec.Signature reads, and its body is the block that follows the signature |
| Parsers.Parser.ParseSignature | src/parser/mod.rs:160-203 | reads exactly what ParserSpec.Signature reads and fails where it fails: `fn`, the `f$N` name, the parameter list, `->` and the return type; a missing name is an `UnexpectedToken` error asking for a function name |
| Parsers.Parser.ParseParameterList | src/parser/mod.rs:183-199 | reads exactly what ParserSpec.ParameterList reads and fails where it fails; ParserLemmas.ParameterListShape states that it runs from `(` to `)` and is empty exactly for `()` |
| Parsers.Parser.ParseParameters | src/parser/mod.rs:186-197 | reads exactly the parameters ParserSpec.Parameters reads, at least one, while commas follow, and fails where it fails |
| Parsers.Parser.ParseParameter | src/parser/mod.rs:249-279 | reads exactly what ParserSpec.Parameter reads, a `v$N` name and its type in two tokens, and fails where it fails |
| Parsers.Parser.ParseBodyInScope | src/parser/mod.rs:215-233 | the body is the block at the cursor, read in a scope of its own; the outer definitions are kept when that scope is dropped, and the parameters have distinct names |
| Parsers.Parser.DefineParameters | src/parser/mod.rs:219-227 | every parameter becomes an uninitialised variable of its type in the innermost scope, the only scope that changes; a name given twice is an error |
| Parsers.Parser.DefineParameter | src/parser/mod.rs:220-226 | succeeds exactly when the name is new in the innermost scope, and then defines it as an uninitialised variable of its type; the outer scopes do not change |
| Parsers.Parser.ParseMainBlock | src/parser/mod.rs:282-308 | reads `main` and the block after it in a scope of its own; the outer definitions are kept |
| Parsers.Parser.ParseType | src/parser/mod.rs:695-715 | `int`, `str` and `bool` give their type and move one on; anything else is an error asking for a type |
| Parsers.Parser.ParseBlock | src/parser/mod.rs:311-337 | reads from `{` to the `}` after its statements; each statement has the kind its first token selects, they start at rising positions, and there are none exactly when `}` follows `{` and newlines; the outer definitions are kept |
| Parsers.Parser.ParseDocumentedStatement | src/parser/mod.rs:320-326 | the statement has the kind that the first token after the doc comments selects, the cursor moves past it, and the outer definitions are kept |
| Parsers.Parser.ParseStatement | src/parser/mod.rs:340-400 | the statement's kind follows from its first token, and the outer definitions are kept |
| Parsers.Parser.ParseTypedDeclaration | src/parser/mod.rs:342-375 | a type keyword starts a variable or constant declaration of that type; any other name after it is an error asking for a variable or constant name |
| Parsers.Parser.ParseExpressionStatement | src/parser/mod.rs:393-398 | the statement holds exactly the expression the grammar reads, followed by `;` |
| Parsers.Parser.ParseIf | src/parser/mod.rs:403-426 | the condition is exactly the expression the grammar reads after `if (`; the then-block is the block right after its `)`; there is no else block only when `else` does not follow, and otherwise an `else` follows the then-block and the else-block is the block right after it |
| Parsers.Parser.ParseIfBlocks | src/parser/mod.rs:412-425 | after the condition, the then-block is the block right after the `)`, and the else-block, when there is one, the block right after an `else` that ends the then-block |
| Parsers.Parser.ParseElse | src/parser/mod.rs:415-420 | an else block is read exactly when `else` follows, and it is the block after the `else`; without one nothing is consumed |
| Parsers.Parser.ParseCondition | src/parser/mod.rs:406-411 | reads `if`, `(`, exactly the expression the grammar reads, and the `)` that ends it |
| Parsers.Parser.ParseVariableDeclarationAfterType | src/parser/mod.rs:429-492 | the variable is new in the innermost scope and defined there with its type, initialised exactly when `=` follows its name, whose value is the expression the grammar reads; a missing name is an error asking for a variable name |
| Parsers.Parser.DeclareVariable | src/parser/mod.rs:451-491 | the optional initializer is present exactly when `=` comes first; the variable is then defined in the innermost scope, initialised exactly when it has one |
| Parsers.Parser.ParseConstantDeclarationAfterType | src/parser/mod.rs:495-554 | the constant is new in the innermost scope and defined there, initialised, with the expression the grammar reads after `=`; a missing name or a missing `=` is an `UnexpectedToken` error |
| Parsers.Parser.DeclareConstant | src/parser/mod.rs:517-553 | a missing `=` is an error; otherwise the constant is defined, initialised, with the expression the grammar reads |
| Parsers.Parser.DefineConstant | src/parser/mod.rs:529-553 | fails exactly when the name is already in the innermost scope, and otherwise defines an initialised constant of the type |
| Parsers.Parser.ParseInitializer | src/parser/mod.rs:452-459 | `= expression ;`, where the expression is the one the grammar reads; a missing `=` is an error that leaves the cursor where it is |
| Parsers.Parser.Declare | src/parser/mod.rs:476-489 | `define` fails exactly when the name is already in the innermost scope; otherwise the symbol is there, and no pending documentation is left for the statement |
| Parsers.Parser.ParseAssignment | src/parser/mod.rs:557-603 | the target is a `v$N` that is defined and not a constant, and the value is exactly the expression the grammar reads after `=` |
| Parsers.Parser.AssignTo | src/parser/mod.rs:576-603 | an undefined target is `UndefinedEntity`, a constant one `CannotAssignToConstant`; otherwise the value is the expression the grammar reads after `=` |
| Parsers.Parser.ParseReturn | src/parser/mod.rs:606-623 | `ret;` carries no value; otherwise the value is the expression before `;` |
| Parsers.Parser.ParseDescribe | src/parser/mod.rs:626-692 | succeeds exactly when ParserSpec.DescribeStatement does, with its target, text and error; `describe(entity, "text");` appends the text to a defined entity's documentation and changes nothing when the entity is undefined |
| Parsers.Parser.ParseDescription | src/parser/mod.rs:658-677 | reads exactly what ParserSpec.Description reads, `, "text" ) ;`, and fails where it fails |
| ParserSpec.Check | src/parser/mod.rs:64-70 | definition only: the current token has the variant of the expected one and is not `Eof`; Tokens.SameVariantIsDiscriminant states that the variant test is the `mem::discriminant` comparison |
| Parsers.Parser.Check | src/parser/mod.rs:64-70 | definition only: ParserSpec.Check at the cursor |
| ParserSpec.Parameter | src/parser/mod.rs:249-280 | a parameter is read in exactly two tokens, a name and a type |
| ParserSpec.ParameterRound | src/parser/mod.rs:186-197 | one turn of the parameter loop reads one more parameter and moves forward within the input |
| ParserSpec.Parameters | src/parser/mod.rs:186-197 | the loop reads at least one more parameter and moves forward within the input |
| ParserSpec.ParameterItems | src/parser/mod.rs:183-199 | the parameters between the parentheses end within the input |
| ParserSpec.ParameterList | src/parser/mod.rs:183-199 | a parameter list starts at a `(` and ends just after a `)`, within the input |
| ParserSpec.ReturnType | src/parser/mod.rs:202-203 | `->` and a type are exactly two tokens |
| ParserSpec.Signature | src/parser/mod.rs:160-203 | a signature takes at least five tokens, within the input |
| ParserSpec.StringLiteral | src/parser/mod.rs:661-673 | the text is that of the string token at the cursor, one token; anything else is the error asking for a string literal and naming the token found |
| ParserSpec.DescribeTarget | src/parser/mod.rs:626-656 | `describe`, `(` and the entity name are exactly three tokens |
| ParserSpec.Description | src/parser/mod.rs:658-677 | `,`, the string, `)` and `;` are exactly four tokens |
| ParserSpec.DescribeStatement | src/parser/mod.rs:626-692 | a `describe` statement is exactly seven tokens |
| ParserLemmas.SkipNewlinesSkipsNewlines | src/parser/mod.rs:92-96 | every token skipped is a newline |
| ParserLemmas.ParameterItemsEmpty | src/parser/mod.rs:183-199 | no parameter is read exactly when `)` comes first |
| ParserLemmas.ParameterListShape | src/parser/mod.rs:183-199 | a parameter list starts with `(`, ends with `)`, and is empty exactly when `)` follows `(` at once |
| ParserLemmas.StatementsExtend | src/parser/mod.rs:320-329 | a statement read after the previous ones, of the kind its first token selects, extends the block's statements |
| ParserLemmas.StatementsWiden | src/parser/mod.rs:311-337 | statements placed within bounds stay placed within any wider bounds |
| ParserLemmas.BlockClosed | src/parser/mod.rs:311-337 | statements read after `{` and its newlines up to a `}`, none exactly when `}` or `Eof` comes first, form the block closed by that `}` |
| ParserLemmas.ItemsExtend | src/parser/mod.rs:122-132 | an item read after the previous ones extends the program's items |
| ParserLemmas.DistinctExtend | src/symbol_table.rs:135-158 | a function whose name the scope does not yet hold keeps the program's function names distinct |
| ParserLemmas.FunctionsExtend | src/parser/mod.rs:205-233 | a newly defined function, with the earlier definitions kept, extends the set of defined functions |
| Parsers.Parser.ParseProgramItem | src/parser/mod.rs:122-131 | each item read moves the cursor on, keeps the outer definitions, and extends the program's items and defined functions |
| Parsers.Parser.ParseStatements | src/parser/mod.rs:318-331 | the loop stops on `}` or `Eof`, keeping the outer definitions, and on `}` its statements form the block that `}` closes |
| Parsers.Parser.ParseParameterItems | src/parser/mod.rs:183-199 | reads exactly what ParserSpec.ParameterItems reads and fails where it fails |
| Parsers.Parser.ParseParameterRound | src/parser/mod.rs:186-197 | reads exactly what ParserSpec.ParameterRound reads and fails where it fails |
| Parsers.Parser.ParseReturnType | src/parser/mod.rs:202-203 | reads exactly what ParserSpec.ReturnType reads and fails where it fails |
| Parsers.Parser.ParseDescribeTarget | src/parser/mod.rs:626-656 | reads exactly what ParserSpec.DescribeTarget reads and fails where it fails |
| Parsers.Parser.ParseStringLiteral | src/parser/mod.rs:661-673 | reads exactly what ParserSpec.StringLiteral reads and fails where it fails |
| ParserSpec.TypeOfToken | src/parser/mod.rs:695-716 | definition only: `int`, `str` and `bool` name their types; ParserLemmas.TypeKeywordSpelling states that the type's name is the keyword's spelling |
| Parsers.Parser.CurrentToken | src/parser/mod.rs:37-39 | definition only: the token at the cursor, `Eof` past the end (ParserSpec.Current) |

## Left out

- src/main.rs, src/cli.rs and src/lib.rs are not part of this model: they hold file reading, argument parsing, the interactive loop and exit codes.
- Console output is not modelled as text on a terminal. This covers `println!` in the `print` built-in, the machine's debug tracing (`debug_stack_state`, `debug_variables`, `debug_stack`), the output of `set_debug_mode` and `Stack::debug_print`. `print` appends its line to the machine's `output` sequence instead.
- `Stack::peek_mut` and `Stack::high_water_mark` are not modelled: nothing in the core uses them.
- `Builtins::function_names` is not modelled: it lists a `HashMap` in iteration order.
- `SymbolTables.SymbolTable.AllSymbols`: lists each pair of every scope, in an order the model leaves open, because the source walks `HashMap`s whose order is unspecified.
- `SymbolTable::current_scope_symbols` is not modelled: nothing in the core uses it. `lookup_mut` is folded into `AddDocumentation`, its only caller.
- The generator's `constant_values` map is never read or written after construction and is left out.
- CodeGenerators.CodeGenerator.Generate: the order in which the symbol table's entries are visited is left open, because it is `HashMap` iteration order. The slots and documents are stated in terms of that visiting order, and slots are proved distinct and below the counter whatever it is.
- LexerSpec.IsAlphabetic: `char::is_alphabetic` and `is_alphanumeric` are taken on ASCII letters and digits only, so a non-ASCII letter is an unexpected character here rather than part of an identifier. `char::is_whitespace` is modelled on the whole Unicode `White_Space` set.
- Escapes in string literals are checked but kept in the token as written, as the source does; no escape is decoded.
- `u32` wrap-around of line and column counters, the `as u32` truncation of the constant index in `add_constant`, and `u32` underflow of `Span::length` for a reversed span are not modelled: the model's counters are unbounded naturals.
- The `unwrap_*` helpers and the `as_*` accessors of instruction constants, which panic on the wrong variant, are not modelled.
- Vms.VM.Run: runs at most `fuel` turns of the loop and reports whether the program stopped, because a zvar program may recurse for ever.
- Parser spans are the 1:1 placeholder that `current_span` returns; no property about them is stated.
- A parse error inside a function or main body returns before `exit_scope`, so the table is left one scope deeper. The model does the same and states nothing about scopes on the error path.
- Parsers.Parser.DeclareVariable: the optional initializer is modelled through the shared `= expression ;` reader `ParseInitializer`, which reads the same tokens in the same order as the source.
- The second `'='` arm of `next_token` (src/lexer/mod.rs:380-383) cannot be reached, because the first `'='` arm always matches; the model has only the first.
- Declaration statements never carry documentation: `define` takes the pending documents first, so the `take_pending_docs` that follows always finds none. Documents written before `main` go to the first declaration inside it. The model follows the code.
- Pop on an empty stack is a `RuntimeError`, as src/vm/mod.rs:238-243 is written; the test at src/vm/mod.rs:709-720 expects `StackUnderflow`. The model follows the code.
- Parameters get slots in the order the body first uses them (CodegenLemmas.ParameterSlotsFollowBodyOrder), while the machine writes arguments into slots `0..argc`. So a callee may see its arguments under each other's names. This is modelled as written, and nothing is claimed about callees seeing their declared parameters.
- The code generator follows the corrected implicit-return rule (leave out the `RETURN` only when the body's last statement is a `ret`), not the last-instruction test of src/codegen/mod.rs:243-248. It emits one more `RETURN` than the source for a function whose last statement is an `if` ending in `ret`, such as `fn f$0(v$0 int) -> int { if (v$0) { ret 1; } }` or an `if`/`else` whose branches both end in `ret`, and for an empty-bodied function that follows one ending in `ret`. The as-written rule is CodegenSpec.CompileFunctionAsWritten, and CodegenLemmas.AsWrittenFallsOffTheEnd shows where it goes wrong (see Findings).
- CodeGenerators.CodeGenerator.GenerateFunction: follows the corrected implicit-return rule described above, not src/codegen/mod.rs:243-248.
- CodeGenerators.CodeGenerator.GenerateItems: follows the corrected implicit-return rule described above, not src/codegen/mod.rs:243-248.
- CodeGenerators.CodeGenerator.Generate: follows the corrected implicit-return rule described above, not src/codegen/mod.rs:243-248.
- CodegenSpec.CompileFunction: follows the corrected implicit-return rule described above, not src/codegen/mod.rs:243-248.
- CodegenSpec.LayoutItems: follows the corrected implicit-return rule described above, not src/codegen/mod.rs:243-248.
- CodegenSpec.Generate: follows the corrected implicit-return rule described above, not src/codegen/mod.rs:243-248.
- CodegenLemmas.LayoutInBounds: follows the corrected implicit-return rule described above, not src/codegen/mod.rs:243-248.
- CodegenLemmas.GeneratedProgramIsClosed: follows the corrected implicit-return rule described above, not src/codegen/mod.rs:243-248.
- The lexer uses the corrected `///` reader, which skips only the two slashes still ahead. The source's reader (src/lexer/mod.rs:215-241) differs: `///abc` gives the comment `bc` there and `abc` here; a `///` that ends the input panics there and is an empty comment here; `///` followed by a newline takes the next line as the comment text there and is an empty comment here. The as-written reader is LexerSpec.ReadDocCommentAsWritten, stated by LexerLemmas.DocCommentAsWritten (see Findings).
- LexerSpec.ReadDocComment: uses the corrected `///` reader described above, not src/lexer/mod.rs:215-241.
- LexerSpec.TokenAt: uses the corrected `///` reader described above, not src/lexer/mod.rs:215-241.
- LexerSpec.NextToken: uses the corrected `///` reader described above, not src/lexer/mod.rs:215-241.
- LexerSpec.Lex: uses the corrected `///` reader described above, not src/lexer/mod.rs:215-241.
- Lexers.Lexer.ReadDocComment: uses the corrected `///` reader described above, not src/lexer/mod.rs:215-241.
- Lexers.Lexer.ReadToken: uses the corrected `///` reader described above, not src/lexer/mod.rs:215-241.
- Lexers.Lexer.NextToken: uses the corrected `///` reader described above, not src/lexer/mod.rs:215-241.
- Lexers.Lexer.Tokenize: uses the corrected `///` reader described above, not src/lexer/mod.rs:215-241.
- LexerLemmas.DisplayRoundTrip: uses the corrected `///` reader described above, not src/lexer/mod.rs:215-241.
- LexerLemmas.LexDisplay: uses the corrected `///` reader described above, not src/lexer/mod.rs:215-241.
- Parsers.Parser.New: uses the corrected `///` reader described above, not src/lexer/mod.rs:215-241.
- Instructions.EscapeDebug: escapes a backslash, a double quote and the ASCII control characters as `{:?}` does, but writes every other character unchanged; Rust's `{:?}` also writes non-ASCII characters that are not printable (for instance U+200B) as `\u{..}`, and that part is not modelled.
- Parsers.Parser.ParseDocumentedItem: the collected doc comments become pending and, for an item, are used up by the time it returns; that `define` attaches them to the new symbol is stated by SymbolTables.SymbolTable.Define, but it is not carried through to these methods, because a `describe` in the body may append to the same documentation afterwards.
- Parsers.Parser.ParseDocumentedStatement: the collected doc comments become pending; where they end up is not stated, for the same reason.

## Findings

| source | as written | input that shows it | evidently intended | confidence | as-written member | corrected member |
|---|---|---|---|---|---|---|
| src/lexer/mod.rs:215-241 | `next_token` has already consumed the first `/` when it calls `read_doc_comment`, which then advances three more characters, so the first character after `///` is lost; at the end of the input the slice starts past its end | `///abc` lexes as the comment `bc`; `///` alone slices out of range | skip the two slashes still ahead: `///abc` is the comment `abc` and `///` at the end is an empty comment | not executed | LexerLemmas.DocCommentAsWritten | LexerLemmas.DocCommentCorrected |
| src/codegen/mod.rs:234-251 | the implicit `RETURN` is left out whenever the last instruction emitted so far is a return, even when that return sits inside an `if` | `fn f$0(v$0 int) -> int { if (v$0) { ret 1; } }`: no `RETURN` is added and the false branch jumps to index 4, past the function's code | add the implicit return unless the body's last statement is a `ret`, so every path of a function ends in a return | not executed | CodegenLemmas.AsWrittenFallsOffTheEnd | CodegenLemmas.FunctionStaysInside |
