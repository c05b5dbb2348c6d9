/** The error taxonomy shared by every stage, and the result type of fallible operations. */
module Errors {
  import opened Common
  import opened Spans

  datatype ZvarError =
    // lexer
    | InvalidNumber(span: Span, value: string)
    | UnknownIdentifier(span: Span, name: string)
    | InvalidEntityNumber(span: Span, entity: string)
    | UnexpectedCharacter(span: Span, character: char)
    // parser
    | UnexpectedToken(span: Span, expected: string, found: string)
    | MissingSemicolon(span: Span)
    | InvalidAssignmentTarget(span: Span)
    | UndefinedEntity(span: Span, name: string)
    | EntityAlreadyDefined(span: Span, name: string, previousSpan: Option<Span>)
    | TypeMismatch(span: Span, expected: string, found: string)
    | WrongArgumentCount(span: Span, name: string, expectedCount: nat, foundCount: nat)
    // code generation
    | CodegenError(message: string)
    // runtime
    | RuntimeError(message: string)
    | StackOverflow
    | StackUnderflow
    | DivisionByZero(divisionSpan: Option<Span>)
    | CannotAssignToConstant(span: Span, name: string)
    // input and output
    | IoError(message: string)
    | FileError(message: string)

  /** `ZvarResult<T>`. */
  datatype Result<T> = Ok(value: T) | Err(error: ZvarError)
  {
    /** The `?` operator: an `Err` stops the computation and is passed on unchanged. */
    predicate IsFailure() {
      Err?
    }

    function PropagateFailure<U>(): Result<U>
      requires Err?
    {
      Err(error)
    }

    function Extract(): T
      requires Ok?
    {
      value
    }
  }

  /** Whether the variant carries a (mandatory) span field. */
  predicate HasSpanField(e: ZvarError) {
    e.InvalidNumber? || e.UnknownIdentifier? || e.InvalidEntityNumber? || e.UnexpectedCharacter?
    || e.UnexpectedToken? || e.MissingSemicolon? || e.InvalidAssignmentTarget? || e.UndefinedEntity?
    || e.EntityAlreadyDefined? || e.TypeMismatch? || e.WrongArgumentCount? || e.CannotAssignToConstant?
  }

  /** `ZvarError::span`. */
  function ErrorSpan(e: ZvarError): (r: Option<Span>)
    ensures HasSpanField(e) ==> r == Some(e.span)
    ensures e.DivisionByZero? ==> r == e.divisionSpan
    ensures !HasSpanField(e) && !e.DivisionByZero? ==> r == None
  {
    match e
    case InvalidNumber(span, _) => Some(span)
    case UnknownIdentifier(span, _) => Some(span)
    case InvalidEntityNumber(span, _) => Some(span)
    case UnexpectedCharacter(span, _) => Some(span)
    case UnexpectedToken(span, _, _) => Some(span)
    case MissingSemicolon(span) => Some(span)
    case InvalidAssignmentTarget(span) => Some(span)
    case UndefinedEntity(span, _) => Some(span)
    case EntityAlreadyDefined(span, _, _) => Some(span)
    case TypeMismatch(span, _, _) => Some(span)
    case WrongArgumentCount(span, _, _, _) => Some(span)
    case CannotAssignToConstant(span, _) => Some(span)
    case DivisionByZero(span) => span
    case _ => None
  }

  /** `ZvarError::is_compile_time`. */
  predicate IsCompileTime(e: ZvarError) {
    match e
    case RuntimeError(_) => false
    case StackOverflow => false
    case StackUnderflow => false
    case _ => true
  }

  /** Every error that reports a source position is classified as compile-time, including `DivisionByZero`. */
  lemma {:induction false} SpannedErrorsAreCompileTime(e: ZvarError)
    ensures ErrorSpan(e).Some? ==> IsCompileTime(e)
    ensures e.DivisionByZero? ==> IsCompileTime(e)
    ensures !IsCompileTime(e) ==> ErrorSpan(e) == None
  {
  }

  /** `ZvarError::runtime`. */
  function Runtime(message: string): (e: ZvarError)
    ensures e.RuntimeError? && e.message == message
    ensures !IsCompileTime(e) && ErrorSpan(e) == None
  {
    RuntimeError(message)
  }

  /** `ZvarError::file_error`. */
  function FileErrorOf(message: string): (e: ZvarError)
    ensures e.FileError? && e.message == message
    ensures IsCompileTime(e) && ErrorSpan(e) == None
  {
    FileError(message)
  }
}
