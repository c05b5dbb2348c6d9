/** The abstract syntax tree the parser builds and the code generator lowers. */
module Ast {
  import opened Common
  import opened Spans
  import ST = SymbolTables

  datatype Program = Program(items: seq<Item>, span: Span)

  /** A top-level item: a function definition or the main block. */
  datatype Item = FunctionItem(func: Function) | MainItem(main: MainBlock)

  datatype Function = Function(
    name: string,
    params: seq<Parameter>,
    returnType: ST.ValueType,
    body: Block,
    span: Span,
    documentation: Option<string>)

  datatype Parameter = Parameter(name: string, paramType: ST.ValueType, span: Span)

  datatype MainBlock = MainBlock(body: Block, span: Span, documentation: Option<string>)

  datatype Block = Block(statements: seq<Statement>, span: Span)

  datatype Statement =
    | VariableDeclaration(name: string, valueType: ST.ValueType, initializer: Option<Expression>,
                          span: Span, documentation: Option<string>)
    | ConstantDeclaration(name: string, valueType: ST.ValueType, value: Expression,
                          span: Span, documentation: Option<string>)
    | Assignment(target: string, value: Expression, span: Span)
    | ExpressionStatement(expr: Expression)
    | Return(returnValue: Option<Expression>, span: Span)
    | Describe(target: string, description: string, span: Span)
    | If(condition: Expression, thenBlock: Block, elseBlock: Option<Block>, span: Span)

  datatype Expression =
    | Integer(intValue: i64, span: Span)
    | String(text: string, span: Span)
    | Boolean(boolValue: bool, span: Span)
    | Variable(name: string, span: Span)
    | Binary(left: Expression, binaryOp: BinaryOperator, right: Expression, span: Span)
    | Logical(left: Expression, logicalOp: LogicalOperator, right: Expression, span: Span)
    | Unary(unaryOp: UnaryOperator, operand: Expression, span: Span)
    | FunctionCall(name: string, arguments: seq<Expression>, span: Span)

  datatype BinaryOperator =
    | Add | Subtract | Multiply | Divide
    | Equal | NotEqual | Less | Greater | LessEqual | GreaterEqual

  datatype LogicalOperator = And | Or

  datatype UnaryOperator = Not

  /** `Display for BinaryOperator`: the operator's source spelling. */
  function BinarySymbol(op: BinaryOperator): string {
    match op
    case Add => "+"
    case Subtract => "-"
    case Multiply => "*"
    case Divide => "/"
    case Equal => "=="
    case NotEqual => "!="
    case Less => "<"
    case Greater => ">"
    case LessEqual => "<="
    case GreaterEqual => ">="
  }

  /** `Display for LogicalOperator`. */
  function LogicalSymbol(op: LogicalOperator): string {
    match op
    case And => "&&"
    case Or => "||"
  }

  /** `Display for UnaryOperator`. */
  function UnarySymbol(op: UnaryOperator): string {
    match op
    case Not => "!"
  }

  /** Reads an operator spelling back: the inverse of the three `Display` implementations. */
  datatype AnyOperator = BinaryOp(b: BinaryOperator) | LogicalOp(l: LogicalOperator) | UnaryOp(u: UnaryOperator)

  function OperatorOfSymbol(s: string): Option<AnyOperator> {
    if s == "+" then Some(BinaryOp(Add))
    else if s == "-" then Some(BinaryOp(Subtract))
    else if s == "*" then Some(BinaryOp(Multiply))
    else if s == "/" then Some(BinaryOp(Divide))
    else if s == "==" then Some(BinaryOp(Equal))
    else if s == "!=" then Some(BinaryOp(NotEqual))
    else if s == "<" then Some(BinaryOp(Less))
    else if s == ">" then Some(BinaryOp(Greater))
    else if s == "<=" then Some(BinaryOp(LessEqual))
    else if s == ">=" then Some(BinaryOp(GreaterEqual))
    else if s == "&&" then Some(LogicalOp(And))
    else if s == "||" then Some(LogicalOp(Or))
    else if s == "!" then Some(UnaryOp(Not))
    else None
  }

  /** The spelling of any operator. */
  function Symbol(op: AnyOperator): string {
    match op
    case BinaryOp(b) => BinarySymbol(b)
    case LogicalOp(l) => LogicalSymbol(l)
    case UnaryOp(u) => UnarySymbol(u)
  }

  /** Every operator is printed with a spelling no other operator shares: reading it back gives the operator. */
  lemma {:induction false} SymbolRoundTrip(op: AnyOperator)
    ensures OperatorOfSymbol(Symbol(op)) == Some(op)
  {
    match op {
      case BinaryOp(b) =>
        match b {
          case Add =>
          case Subtract => assert "-"[0] != "+"[0];
          case Multiply => assert "*"[0] != "+"[0] && "*"[0] != "-"[0];
          case Divide => assert "/"[0] !in "+-*";
          case Equal => assert |"=="| == 2;
          case NotEqual => assert "!="[0] != "=="[0];
          case Less => assert "<"[0] !in "+-*/";
          case Greater => assert ">"[0] !in "+-*/<";
          case LessEqual => assert "<="[0] !in "=!" && |"<="| == 2;
          case GreaterEqual => assert ">="[0] !in "=!<" && |">="| == 2;
        }
      case LogicalOp(l) =>
        match l {
          case And => assert "&&"[0] !in "=!<>";
          case Or => assert "||"[0] !in "=!<>&";
        }
      case UnaryOp(u) =>
        assert u == Not && |"!"| == 1;
        assert "!"[0] !in "+-*/<>";
    }
  }

  /** Distinct operators print differently. */
  lemma {:induction false} SymbolInjective(a: AnyOperator, b: AnyOperator)
    ensures Symbol(a) == Symbol(b) ==> a == b
  {
    SymbolRoundTrip(a);
    SymbolRoundTrip(b);
  }

  /** `Item::span`. */
  function ItemSpan(item: Item): (r: Span)
    ensures item.FunctionItem? ==> r == item.func.span
    ensures item.MainItem? ==> r == item.main.span
  {
    match item
    case FunctionItem(f) => f.span
    case MainItem(m) => m.span
  }

  /** `Statement::span`: an expression statement takes its expression's span. */
  function StatementSpan(s: Statement): (r: Span)
    ensures s.ExpressionStatement? ==> r == s.expr.span
    ensures !s.ExpressionStatement? ==> r == s.span
  {
    match s
    case ExpressionStatement(e) => e.span
    case _ => s.span
  }

  /** `Function::new`: a function without documentation. */
  function NewFunction(name: string, params: seq<Parameter>, returnType: ST.ValueType, body: Block, span: Span): (f: Function)
    ensures f.documentation == None
    ensures f.name == name && f.params == params && f.returnType == returnType && f.body == body && f.span == span
  {
    Function(name, params, returnType, body, span, None)
  }

  /** `Function::with_documentation`: sets the documentation and nothing else. */
  function FunctionWithDocumentation(f: Function, doc: string): (r: Function)
    ensures r.documentation == Some(doc)
    ensures r.(documentation := f.documentation) == f
  {
    f.(documentation := Some(doc))
  }

  /** `MainBlock::new`: a main block without documentation. */
  function NewMainBlock(body: Block, span: Span): (m: MainBlock)
    ensures m.documentation == None && m.body == body && m.span == span
  {
    MainBlock(body, span, None)
  }

  /**
   * `MainBlock::with_documentation`: sets the documentation and nothing else. It mirrors
   * `FunctionWithDocumentation`, because the source gives each of the two records its own builder.
   */
  function MainWithDocumentation(m: MainBlock, doc: string): (r: MainBlock)
    ensures r.documentation == Some(doc)
    ensures r.(documentation := m.documentation) == m
  {
    m.(documentation := Some(doc))
  }
}
