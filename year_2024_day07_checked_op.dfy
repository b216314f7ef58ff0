/**
 * `CheckedOp` (`year_2024/day07/checked_op.rs`): overflow-checked addition and
 * multiplication, and decimal concatenation, for every primitive integer
 * type. A value of type `T` is an `int` in the range of the `Integer` tag
 * passed along with it.
 */
module Year2024Day07CheckedOp {
  import opened Wrappers
  import MachineInt
  import RustText

  /** The twelve types the `checkedop_impl!` macro is applied to. */
  datatype Integer = U8 | U16 | U32 | U64 | U128 | Usize | I8 | I16 | I32 | I64 | I128 | Isize

  predicate IsSigned(t: Integer)
  {
    t.I8? || t.I16? || t.I32? || t.I64? || t.I128? || t.Isize?
  }

  function Max(t: Integer): (m: nat)
    ensures m >= MachineInt.I8_MAX
  {
    match t
    case U8 => MachineInt.U8_MAX
    case U16 => MachineInt.U16_MAX
    case U32 => MachineInt.U32_MAX
    case U64 => MachineInt.U64_MAX
    case U128 => MachineInt.U128_MAX
    case Usize => MachineInt.USIZE_MAX
    case I8 => MachineInt.I8_MAX
    case I16 => MachineInt.I16_MAX
    case I32 => MachineInt.I32_MAX
    case I64 => MachineInt.I64_MAX
    case I128 => MachineInt.I128_MAX
    case Isize => MachineInt.ISIZE_MAX
  }

  /** Two's complement: a signed type reaches one further below zero than above. */
  function Min(t: Integer): (m: int)
    ensures m <= 0
  {
    if IsSigned(t) then -(Max(t) as int) - 1 else 0
  }

  predicate InRange(t: Integer, v: int)
  {
    Min(t) <= v <= Max(t)
  }

  /** The number of values of the type, `2^bits`. */
  function Modulus(t: Integer): (m: nat)
    ensures m > 0
  {
    Max(t) - Min(t) + 1
  }

  /** Two's complement wrap-around into the range of `t`. */
  function Wrap(t: Integer, v: int): (r: int)
    ensures InRange(t, r)
  {
    Min(t) + (v - Min(t)) % Modulus(t)
  }

  /** Wrapping leaves a value alone exactly when it is already in range. */
  lemma WrapInRange(t: Integer, v: int)
    ensures Wrap(t, v) == v <==> InRange(t, v)
  {
    var m, k := Modulus(t), v - Min(t);
    if 0 <= k < m {
      assert k % m == k;
    }
  }

  /** `checked_add`, as `overflowing_add` computes it: the wrapped sum, kept
    * unless it wrapped. */
  function CheckedAdd(t: Integer, a: int, b: int): (r: Option<int>)
    ensures r.Some? <==> InRange(t, a + b)
    ensures r.Some? ==> r.value == a + b
  {
    WrapInRange(t, a + b);
    var wrapped := Wrap(t, a + b);
    if wrapped != a + b then None else Some(wrapped)
  }

  /** `checked_mul`, as `overflowing_mul` computes it. */
  function CheckedMul(t: Integer, a: int, b: int): (r: Option<int>)
    ensures r.Some? <==> InRange(t, a * b)
    ensures r.Some? ==> r.value == a * b
  {
    WrapInRange(t, a * b);
    var wrapped := Wrap(t, a * b);
    if wrapped != a * b then None else Some(wrapped)
  }

  /** `v.to_string()`: a minus sign before the digits of a negative value. */
  function ToString(v: int): string
  {
    if v < 0 then "-" + RustText.Decimal(-v) else RustText.Decimal(v)
  }

  /** `s.parse::<T>()`; what it returns is a value of `T`. */
  function Parse(t: Integer, s: string): (r: Result<int, RustText.IntErrorKind>)
    ensures r.Ok? ==> InRange(t, r.value)
  {
    ParseInRange(t, s);
    if IsSigned(t) then RustText.ParseSigned(s, Min(t), Max(t))
    else
      match RustText.ParseUnsigned(s, Max(t))
      case Ok(v) => Ok(v)
      case Err(e) => Err(e)
  }

  lemma ParseInRange(t: Integer, s: string)
    ensures RustText.ParseUnsigned(s, Max(t)).Ok? ==> RustText.ParseUnsigned(s, Max(t)).value <= Max(t)
    ensures IsSigned(t) && RustText.ParseSigned(s, Min(t), Max(t)).Ok? ==>
      InRange(t, RustText.ParseSigned(s, Min(t), Max(t)).value)
  {
    if s != "" {
      RustText.AccumulatePosBound(s, 0, Max(t));
      RustText.AccumulatePosBound(s[1..], 0, Max(t));
      RustText.AccumulateNegBound(s[1..], 0, Min(t));
    }
  }

  /** `concat`: the two decimal strings one after the other, parsed back;
    * any parse failure becomes `None`. */
  function Concat(t: Integer, a: int, b: int): (r: Option<int>)
    ensures r.Some? ==> InRange(t, r.value)
  {
    match Parse(t, ToString(a) + ToString(b))
    case Ok(v) => Some(v)
    case Err(_) => None
  }

  /** The number of decimal digits of `n`: the length of `n.to_string()`. */
  function Digits(n: nat): (d: nat)
    ensures d >= 1 && d == |RustText.Decimal(n)|
    ensures n < MachineInt.Pow(10, d)
    ensures n >= 10 ==> MachineInt.Pow(10, d - 1) <= n
  {
    if n < 10 then 1 else 1 + Digits(n / 10)
  }

  /** A digit string parses to its decimal value when that fits `T`. */
  lemma ParseDigits(t: Integer, s: string)
    requires s != "" && RustText.AllDigits(s)
    ensures Parse(t, s) ==
      if RustText.DecimalValue(s) <= Max(t) then Ok(RustText.DecimalValue(s) as int) else Err(RustText.PosOverflow)
  {
    RustText.AccumulatePosDigits(s, 0, Max(t));
    assert RustText.IsDigit(s[0]);
  }

  /** The digits of `x` followed by those of `y` spell `x * 10^digits(y) + y`. */
  lemma DecimalAppend(x: nat, y: nat)
    ensures RustText.AllDigits(RustText.Decimal(x) + RustText.Decimal(y))
    ensures RustText.DecimalValue(RustText.Decimal(x) + RustText.Decimal(y)) == x * MachineInt.Pow(10, Digits(y)) + y
  {
    RustText.DecimalValueAppend(RustText.Decimal(x), RustText.Decimal(y));
    RustText.DecimalValueOfDecimal(x);
    RustText.DecimalValueOfDecimal(y);
  }

  /** For non-negative operands `concat(a, b)` is `a * 10^digits(b) + b`, and
    * `None` exactly when that does not fit. */
  lemma ConcatNonNegative(t: Integer, a: nat, b: nat)
    ensures Concat(t, a, b) ==
      (var v := a * MachineInt.Pow(10, Digits(b)) + b; if v <= Max(t) then Some(v) else None)
  {
    DecimalAppend(a, b);
    ParseDigits(t, RustText.Decimal(a) + RustText.Decimal(b));
  }

  /** A negative left operand keeps its sign: for `a > 0`, `concat(-a, b)` is
    * `-(a * 10^digits(b) + b)`, and `None` when that is below the minimum
    * or the type is unsigned. */
  lemma ConcatNegativeLeft(t: Integer, a: nat, b: nat)
    requires a > 0
    ensures Concat(t, -(a as int), b) ==
      (var v := -(a * MachineInt.Pow(10, Digits(b)) + b); if IsSigned(t) && v >= Min(t) then Some(v) else None)
  {
    DecimalAppend(a, b);
    if IsSigned(t) {
      NegativeLeftSigned(t, a, b);
    } else {
      NegativeLeftUnsigned(t, a, b);
    }
  }

  lemma NegativeLeftSigned(t: Integer, a: nat, b: nat)
    requires a > 0 && IsSigned(t)
    ensures RustText.AllDigits(RustText.Decimal(a) + RustText.Decimal(b))
    ensures Concat(t, -(a as int), b) ==
      (var v := -(RustText.DecimalValue(RustText.Decimal(a) + RustText.Decimal(b)) as int);
       if v >= Min(t) then Some(v) else None)
  {
    var digits := RustText.Decimal(a) + RustText.Decimal(b);
    assert ToString(-(a as int)) + ToString(b) == "-" + digits;
    assert RustText.AllDigits(digits);
    RustText.ParseSignedNegative(digits, Min(t), Max(t));
  }

  lemma NegativeLeftUnsigned(t: Integer, a: nat, b: nat)
    requires a > 0 && !IsSigned(t)
    ensures Concat(t, -(a as int), b) == None
  {
    var s := ToString(-(a as int)) + ToString(b);
    assert s[0] == '-';
    RustText.AccumulatePosNonDigit(s, 0, 0, Max(t));
  }

  /** A negative right operand puts a `-` inside the digits, which never parses. */
  lemma ConcatNegativeRight(t: Integer, a: int, b: int)
    requires b < 0
    ensures Concat(t, a, b).None?
  {
    var s := ToString(a) + ToString(b);
    var i := |ToString(a)|;
    assert i >= 1 && s[i] == '-';
    if IsSigned(t) && s[0] == '-' {
      assert s[1..][i - 1] == '-';
      RustText.AccumulateNegNonDigit(s[1..], i - 1, 0, Min(t));
    } else {
      RustText.AccumulatePosNonDigit(s, i, 0, Max(t));
    }
  }

  /** `concat(a, 0)` appends one zero digit. */
  lemma ConcatZero(t: Integer, a: nat)
    ensures Concat(t, a, 0) == if a * 10 <= Max(t) then Some(a * 10) else None
  {
    ConcatNonNegative(t, a, 0);
  }

  /** The cases of `interger_concatinate`. */
  lemma ConcatExamples()
    ensures Concat(U32, 1, 2) == Some(12)
    ensures Concat(U8, 56, 1) == None
    ensures Concat(U32, 809, 99) == Some(80999)
  {
    ConcatNonNegative(U32, 1, 2);
    ConcatNonNegative(U8, 56, 1);
    ConcatNonNegative(U32, 809, 99);
  }
}
