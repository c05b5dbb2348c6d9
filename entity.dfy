/** Entity references: variables `v$N`, constants `c$N` and functions `f$N`. */
module Entities {
  import opened Common
  import opened Text
  import opened Spans

  datatype EntityKind = Variable | Constant | Function

  /** `Display for EntityKind`. */
  function KindName(k: EntityKind): string {
    match k
    case Variable => "variable"
    case Constant => "constant"
    case Function => "function"
  }

  datatype EntityRef = EntityRef(kind: EntityKind, number: u32, span: Span)

  /** `EntityRef::variable`. */
  function VariableRef(number: u32, span: Span): (r: EntityRef)
    ensures Prefix(r) == 'v' && r.number == number && r.span == span
  {
    EntityRef(Variable, number, span)
  }

  /** `EntityRef::constant`. */
  function ConstantRef(number: u32, span: Span): (r: EntityRef)
    ensures Prefix(r) == 'c' && r.number == number && r.span == span
  {
    EntityRef(Constant, number, span)
  }

  /** `EntityRef::function`. */
  function FunctionRef(number: u32, span: Span): (r: EntityRef)
    ensures Prefix(r) == 'f' && r.number == number && r.span == span
  {
    EntityRef(Function, number, span)
  }

  /** `EntityRef::prefix`. */
  function Prefix(e: EntityRef): char {
    match e.kind
    case Variable => 'v'
    case Constant => 'c'
    case Function => 'f'
  }

  /** `EntityRef::full_name`: the prefix letter, a dollar sign and the decimal number. */
  function FullName(e: EntityRef): (s: string)
    ensures |s| >= 3 && s[0] == Prefix(e) && s[1] == '$'
    ensures s[2..] == NatToString(e.number)
  {
    [Prefix(e), '$'] + NatToString(e.number)
  }

  /** `Display for EntityRef` prints the full name. */
  function Display(e: EntityRef): (s: string)
    ensures s == FullName(e)
  {
    FullName(e)
  }

  /** The full name identifies the kind and the number of an entity. */
  lemma {:induction false} FullNameInjective(a: EntityRef, b: EntityRef)
    requires FullName(a) == FullName(b)
    ensures a.kind == b.kind && a.number == b.number
  {
    assert FullName(a)[2..] == FullName(b)[2..];
    NatToStringInjective(a.number, b.number);
  }
}
