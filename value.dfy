/** Runtime values of the virtual machine and their operator table. */
module Values {
  import opened Common
  import opened Text
  import opened Errors

  datatype Value = Int(i: i64) | Str(s: string) | Bool(b: bool)

  predicate InI64(x: int) {
    I64_MIN <= x <= I64_MAX
  }

  /** The runtime error every operator raises on an arithmetic overflow. */
  const OVERFLOW: ZvarError := Runtime("Integer overflow")

  /** `Value::as_int`. */
  function AsInt(v: Value): (r: Result<i64>)
    ensures r.Ok? <==> v.Int?
    ensures r.Ok? ==> r.value == v.i
    ensures r.Err? ==> r.error.RuntimeError?
  {
    match v
    case Int(n) => Ok(n)
    case Str(_) => Err(Runtime("Expected integer, found string"))
    case Bool(_) => Err(Runtime("Expected integer, found boolean"))
  }

  /** `Value::as_str`. */
  function AsStr(v: Value): (r: Result<string>)
    ensures r.Ok? <==> v.Str?
    ensures r.Ok? ==> r.value == v.s
    ensures r.Err? ==> r.error.RuntimeError?
  {
    match v
    case Str(s) => Ok(s)
    case Int(_) => Err(Runtime("Expected string, found integer"))
    case Bool(_) => Err(Runtime("Expected string, found boolean"))
  }

  /** `Value::as_bool`. */
  function AsBool(v: Value): (r: Result<bool>)
    ensures r.Ok? <==> v.Bool?
    ensures r.Ok? ==> r.value == v.b
    ensures r.Err? ==> r.error.RuntimeError?
  {
    match v
    case Bool(b) => Ok(b)
    case Int(_) => Err(Runtime("Expected boolean, found integer"))
    case Str(_) => Err(Runtime("Expected boolean, found string"))
  }

  /** `Value::is_truthy`. */
  predicate IsTruthy(v: Value) {
    match v
    case Int(n) => n != 0
    case Str(s) => |s| > 0
    case Bool(b) => b
  }

  /** Exactly three values are falsy: zero, the empty string and false. */
  lemma {:induction false} FalsyValues(v: Value)
    ensures !IsTruthy(v) <==> v == Int(0) || v == Str("") || v == Bool(false)
  {
  }

  /** `Value::type_name`. */
  function TypeName(v: Value): (r: string)
    ensures (r == "int" <==> v.Int?) && (r == "str" <==> v.Str?) && (r == "bool" <==> v.Bool?)
  {
    match v
    case Int(_) => "int"
    case Str(_) => "str"
    case Bool(_) => "bool"
  }

  /** `Display for Value`: the text `print` writes. */
  function Display(v: Value): string {
    match v
    case Int(n) => IntToString(n)
    case Str(s) => s
    case Bool(b) => if b then "true" else "false"
  }

  // Rust's checked i64 arithmetic: None when the exact result does not fit.

  function CheckedAdd(a: i64, b: i64): Option<i64> {
    if InI64(a + b) then Some(a + b) else None
  }

  function CheckedSub(a: i64, b: i64): Option<i64> {
    if InI64(a - b) then Some(a - b) else None
  }

  function CheckedMul(a: i64, b: i64): Option<i64> {
    if InI64(a * b) then Some(a * b) else None
  }

  /** Integer division rounding toward zero, as Rust's `/` on integers does. */
  function TruncDiv(a: int, b: int): int
    requires b != 0
  {
    var q := (if a < 0 then -a else a) / (if b < 0 then -b else b);
    if (a < 0) != (b < 0) then -q else q
  }

  /** Rust's `i64::checked_div`: None for a zero divisor or for `i64::MIN / -1`. */
  function CheckedDiv(a: i64, b: i64): Option<i64> {
    if b == 0 || !InI64(TruncDiv(a, b)) then None else Some(TruncDiv(a, b))
  }

  /** `Value::add`: checked integer addition or string concatenation. */
  function Add(a: Value, b: Value): (r: Result<Value>)
    ensures a.Int? && b.Int? && InI64(a.i + b.i) ==> r == Ok(Int(a.i + b.i))
    ensures a.Int? && b.Int? && !InI64(a.i + b.i) ==> r == Err(OVERFLOW)
    ensures a.Str? && b.Str? ==> r == Ok(Str(a.s + b.s))
    ensures !(a.Int? && b.Int?) && !(a.Str? && b.Str?) ==> r.Err? && r.error.RuntimeError?
  {
    match (a, b)
    case (Int(x), Int(y)) =>
      (match CheckedAdd(x, y) case Some(z) => Ok(Int(z)) case None => Err(OVERFLOW))
    case (Str(x), Str(y)) => Ok(Str(x + y))
    case _ => Err(Runtime("Cannot add " + TypeName(a) + " and " + TypeName(b)))
  }

  /** `Value::sub`: checked integer subtraction. */
  function Sub(a: Value, b: Value): (r: Result<Value>)
    ensures a.Int? && b.Int? && InI64(a.i - b.i) ==> r == Ok(Int(a.i - b.i))
    ensures a.Int? && b.Int? && !InI64(a.i - b.i) ==> r == Err(OVERFLOW)
    ensures !(a.Int? && b.Int?) ==> r.Err? && r.error.RuntimeError?
  {
    match (a, b)
    case (Int(x), Int(y)) =>
      (match CheckedSub(x, y) case Some(z) => Ok(Int(z)) case None => Err(OVERFLOW))
    case _ => Err(Runtime("Cannot subtract " + TypeName(b) + " from " + TypeName(a)))
  }

  /** `Value::mul`: checked integer multiplication. */
  function Mul(a: Value, b: Value): (r: Result<Value>)
    ensures a.Int? && b.Int? && InI64(a.i * b.i) ==> r == Ok(Int(a.i * b.i))
    ensures a.Int? && b.Int? && !InI64(a.i * b.i) ==> r == Err(OVERFLOW)
    ensures !(a.Int? && b.Int?) ==> r.Err? && r.error.RuntimeError?
  {
    match (a, b)
    case (Int(x), Int(y)) =>
      (match CheckedMul(x, y) case Some(z) => Ok(Int(z)) case None => Err(OVERFLOW))
    case _ => Err(Runtime("Cannot multiply " + TypeName(a) + " and " + TypeName(b)))
  }

  /** `Value::div`: a zero divisor is `DivisionByZero` without a span; otherwise checked truncating division. */
  function Div(a: Value, b: Value): (r: Result<Value>)
    ensures a.Int? && b == Int(0) ==> r == Err(DivisionByZero(None))
    ensures a.Int? && b.Int? && b.i != 0 && InI64(TruncDiv(a.i, b.i)) ==> r == Ok(Int(TruncDiv(a.i, b.i)))
    ensures a.Int? && b.Int? && b.i != 0 && !InI64(TruncDiv(a.i, b.i)) ==> r == Err(OVERFLOW)
    ensures !(a.Int? && b.Int?) ==> r.Err? && r.error.RuntimeError?
  {
    match (a, b)
    case (Int(x), Int(y)) =>
      if y == 0 then Err(DivisionByZero(None))
      else (match CheckedDiv(x, y) case Some(z) => Ok(Int(z)) case None => Err(OVERFLOW))
    case _ => Err(Runtime("Cannot divide " + TypeName(a) + " by " + TypeName(b)))
  }

  /** `Value::equal`: never fails; values of different variants are unequal. */
  function Equal(a: Value, b: Value): (r: Result<Value>)
    ensures r == Ok(Bool(a == b))
  {
    var result := match (a, b)
      case (Int(x), Int(y)) => x == y
      case (Str(x), Str(y)) => x == y
      case (Bool(x), Bool(y)) => x == y
      case _ => false;
    Ok(Bool(result))
  }

  /** `Value::not_equal`: the negation of `equal`. */
  function NotEqual(a: Value, b: Value): (r: Result<Value>)
    ensures Equal(a, b).Ok? && r == Ok(Bool(!Equal(a, b).value.b))
  {
    var e := Equal(a, b);
    Ok(Bool(!e.value.b))
  }

  /** Lexicographic order on strings, character by character; a proper prefix comes first. */
  predicate StrLess(x: string, y: string) {
    if |y| == 0 then false
    else if |x| == 0 then true
    else if x[0] != y[0] then x[0] < y[0]
    else StrLess(x[1..], y[1..])
  }

  /** Whether both operands are integers or both are strings: the pairs the orderings accept. */
  predicate Comparable(a: Value, b: Value) {
    (a.Int? && b.Int?) || (a.Str? && b.Str?)
  }

  /** `Value::less`. */
  function Less(a: Value, b: Value): (r: Result<Value>)
    ensures r.Ok? <==> Comparable(a, b)
    ensures a.Int? && b.Int? ==> r == Ok(Bool(a.i < b.i))
    ensures a.Str? && b.Str? ==> r == Ok(Bool(StrLess(a.s, b.s)))
    ensures r.Err? ==> r.error.RuntimeError?
  {
    match (a, b)
    case (Int(x), Int(y)) => Ok(Bool(x < y))
    case (Str(x), Str(y)) => Ok(Bool(StrLess(x, y)))
    case _ => Err(Runtime("Cannot compare " + TypeName(a) + " < " + TypeName(b)))
  }

  /** `Value::greater`. */
  function Greater(a: Value, b: Value): (r: Result<Value>)
    ensures r.Ok? <==> Comparable(a, b)
    ensures r.Err? ==> r.error.RuntimeError?
  {
    match (a, b)
    case (Int(x), Int(y)) => Ok(Bool(x > y))
    case (Str(x), Str(y)) => Ok(Bool(StrLess(y, x)))
    case _ => Err(Runtime("Cannot compare " + TypeName(a) + " > " + TypeName(b)))
  }

  /** `Value::less_equal`. */
  function LessEqual(a: Value, b: Value): (r: Result<Value>)
    ensures r.Ok? <==> Comparable(a, b)
    ensures r.Err? ==> r.error.RuntimeError?
  {
    match (a, b)
    case (Int(x), Int(y)) => Ok(Bool(x <= y))
    case (Str(x), Str(y)) => Ok(Bool(StrLess(x, y) || x == y))
    case _ => Err(Runtime("Cannot compare " + TypeName(a) + " <= " + TypeName(b)))
  }

  /** `Value::greater_equal`. */
  function GreaterEqual(a: Value, b: Value): (r: Result<Value>)
    ensures r.Ok? <==> Comparable(a, b)
    ensures r.Err? ==> r.error.RuntimeError?
  {
    match (a, b)
    case (Int(x), Int(y)) => Ok(Bool(x >= y))
    case (Str(x), Str(y)) => Ok(Bool(StrLess(y, x) || x == y))
    case _ => Err(Runtime("Cannot compare " + TypeName(a) + " >= " + TypeName(b)))
  }

  /** `Value::logical_and`. */
  function LogicalAnd(a: Value, b: Value): (r: Result<Value>)
    ensures r.Ok? <==> a.Bool? && b.Bool?
    ensures r.Ok? ==> r.value == Bool(a.b && b.b)
    ensures r.Err? ==> r.error.RuntimeError?
  {
    match (a, b)
    case (Bool(x), Bool(y)) => Ok(Bool(x && y))
    case _ => Err(Runtime("Logical AND requires booleans, found " + TypeName(a) + " and " + TypeName(b)))
  }

  /** `Value::logical_or`. */
  function LogicalOr(a: Value, b: Value): (r: Result<Value>)
    ensures r.Ok? <==> a.Bool? && b.Bool?
    ensures r.Ok? ==> r.value == Bool(a.b || b.b)
    ensures r.Err? ==> r.error.RuntimeError?
  {
    match (a, b)
    case (Bool(x), Bool(y)) => Ok(Bool(x || y))
    case _ => Err(Runtime("Logical OR requires booleans, found " + TypeName(a) + " and " + TypeName(b)))
  }

  /** `Value::logical_not`. */
  function LogicalNot(a: Value): (r: Result<Value>)
    ensures r.Ok? <==> a.Bool?
    ensures r.Ok? ==> r.value == Bool(!a.b)
    ensures r.Err? ==> r.error.RuntimeError?
  {
    match a
    case Bool(x) => Ok(Bool(!x))
    case _ => Err(Runtime("Logical NOT requires boolean, found " + TypeName(a)))
  }

  // Properties relating the operators to each other.

  /** Adding then subtracting the same integer gives back the original value. */
  lemma {:induction false} AddSubRoundTrip(x: i64, y: i64)
    requires Add(Int(x), Int(y)).Ok?
    ensures Sub(Add(Int(x), Int(y)).value, Int(y)) == Ok(Int(x))
  {
  }

  /** Integer addition and multiplication do not depend on operand order; string concatenation does. */
  lemma {:induction false} IntOperatorsCommute(x: i64, y: i64)
    ensures Add(Int(x), Int(y)) == Add(Int(y), Int(x))
    ensures Mul(Int(x), Int(y)) == Mul(Int(y), Int(x))
    ensures Add(Str("a"), Str("b")) != Add(Str("b"), Str("a"))
  {
    StrAddOrder("a", "b");
  }

  /** String concatenation depends on operand order whenever the two strings start differently. */
  lemma {:induction false} StrAddOrder(s: string, t: string)
    requires s != [] && t != [] && s[0] != t[0]
    ensures Add(Str(s), Str(t)) != Add(Str(t), Str(s))
  {
    assert Add(Str(s), Str(t)).value.s[0] == s[0];
    assert Add(Str(t), Str(s)).value.s[0] == t[0];
  }

  lemma {:induction false} TruncDivBounds(a: int, b: int)
    requires b != 0
    ensures var q := TruncDiv(a, b); var r := a - q * b;
      (if r < 0 then -r else r) < (if b < 0 then -b else b) && (r == 0 || (r < 0 <==> a < 0))
  {
    var aa := if a < 0 then -a else a;
    var bb := if b < 0 then -b else b;
    var q0 := aa / bb;
    assert aa == q0 * bb + aa % bb;
    if a < 0 && b < 0 {
      assert a - TruncDiv(a, b) * b == -(aa - q0 * bb);
    } else if a < 0 {
      assert a - TruncDiv(a, b) * b == -(aa - q0 * bb);
    } else if b < 0 {
      assert a - TruncDiv(a, b) * b == aa - q0 * bb;
    } else {
      assert a - TruncDiv(a, b) * b == aa - q0 * bb;
    }
  }

  /** Division rounds toward zero: the remainder is smaller than the divisor and has the sign of the dividend. */
  lemma {:induction false} DivRoundsTowardZero(x: i64, y: i64)
    requires Div(Int(x), Int(y)).Ok?
    ensures var q: int := Div(Int(x), Int(y)).value.i; var r: int := x - q * y; var d: int := y;
      (if r < 0 then -r else r) < (if d < 0 then -d else d) && (r == 0 || (r < 0 <==> x < 0))
  {
    TruncDivBounds(x, y);
  }

  /** The only integer division that overflows is `i64::MIN / -1`. */
  lemma {:induction false} DivOverflowOnlyAtMinByMinusOne(x: i64, y: i64)
    requires y != 0
    ensures Div(Int(x), Int(y)).Err? <==> x == I64_MIN && y == -1
  {
    var aa: nat := if x < 0 then -(x as int) else x;
    var bb: nat := if y < 0 then -(y as int) else y;
    var q := aa / bb;
    assert TruncDiv(x, y) == if (x < 0) != (y < 0) then -q else q;
    if x == I64_MIN && y == -1 {
      assert q == aa / 1 == aa;
    } else if x == I64_MIN && y == 1 {
      assert q == aa / 1 == aa;
    } else if x == I64_MIN {
      QuotientOfAtLeastTwo(aa, bb);
    } else {
      DivLeDividend(aa, bb);
    }
  }

  lemma {:induction false} DivLeDividend(a: nat, b: nat)
    requires b >= 1
    ensures a / b <= a
  {
    var q := a / b;
    assert a == q * b + a % b;
    MulAtLeast(q, 1, b);
  }

  lemma {:induction false} QuotientOfAtLeastTwo(a: nat, b: nat)
    requires b >= 2
    ensures 2 * (a / b) <= a
  {
    var q := a / b;
    assert a == q * b + a % b;
    MulAtLeast(q, 2, b);
  }

  lemma {:induction false} MulAtLeast(q: nat, c: nat, b: nat)
    requires c <= b
    ensures q * b >= q * c
    decreases b - c
  {
    if c < b {
      MulAtLeast(q, c, b - 1);
      assert q * b == q * (b - 1) + q;
    }
  }

  lemma {:induction false} StrLessIrreflexive(x: string)
    ensures !StrLess(x, x)
  {
    if |x| > 0 {
      StrLessIrreflexive(x[1..]);
    }
  }

  lemma {:induction false} StrLessTransitive(x: string, y: string, z: string)
    requires StrLess(x, y) && StrLess(y, z)
    ensures StrLess(x, z)
  {
    if |x| > 0 && x[0] == y[0] && y[0] == z[0] {
      StrLessTransitive(x[1..], y[1..], z[1..]);
    }
  }

  lemma {:induction false} StrLessTrichotomy(x: string, y: string)
    ensures StrLess(x, y) || x == y || StrLess(y, x)
  {
    if |x| > 0 && |y| > 0 && x[0] == y[0] {
      StrLessTrichotomy(x[1..], y[1..]);
      if x[1..] == y[1..] {
        assert x == [x[0]] + x[1..] && y == [y[0]] + y[1..];
      }
    }
  }

  /** String ordering is a strict total order, so the four comparisons behave as on integers. */
  lemma {:induction false} StrLessIsStrictTotalOrder(x: string, y: string, z: string)
    ensures !StrLess(x, x)
    ensures StrLess(x, y) && StrLess(y, z) ==> StrLess(x, z)
    ensures StrLess(x, y) || x == y || StrLess(y, x)
  {
    StrLessIrreflexive(x);
    if StrLess(x, y) && StrLess(y, z) {
      StrLessTransitive(x, y, z);
    }
    StrLessTrichotomy(x, y);
  }

  /** `greater` is `less` with the operands swapped; `less_equal` and `greater_equal` negate `greater` and `less`. */
  lemma {:induction false} ComparisonDualities(a: Value, b: Value)
    requires Comparable(a, b)
    ensures Greater(a, b) == Less(b, a)
    ensures LessEqual(a, b) == Ok(Bool(!Greater(a, b).value.b))
    ensures GreaterEqual(a, b) == Ok(Bool(!Less(a, b).value.b))
  {
    if a.Str? {
      StrLessIsStrictTotalOrder(a.s, b.s, b.s);
      StrLessIrreflexive(b.s);
      if StrLess(a.s, b.s) && StrLess(b.s, a.s) {
        StrLessTransitive(a.s, b.s, a.s);
      }
    }
  }
}
