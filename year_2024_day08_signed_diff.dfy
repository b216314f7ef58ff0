/**
 * `SignedDiff::signed_diff` of `year_2024/day08/signed_diff.rs`: the
 * difference `a - b` of two unsigned integers as the signed integer of the
 * same width, or nothing when its magnitude does not fit. One macro
 * generates it for six width pairs; here the width is a parameter.
 */
module Year2024Day08SignedDiff {
  import opened Wrappers
  import MachineInt

  /** The unsigned types the macro is instantiated for, each paired with the
    * signed type of the same width. */
  datatype Width = U8 | U16 | U32 | U64 | U128 | Usize

  function UnsignedMax(w: Width): nat
  {
    match w
    case U8 => MachineInt.U8_MAX
    case U16 => MachineInt.U16_MAX
    case U32 => MachineInt.U32_MAX
    case U64 => MachineInt.U64_MAX
    case U128 => MachineInt.U128_MAX
    case Usize => MachineInt.USIZE_MAX
  }

  function SignedMax(w: Width): nat
  {
    match w
    case U8 => MachineInt.I8_MAX
    case U16 => MachineInt.I16_MAX
    case U32 => MachineInt.I32_MAX
    case U64 => MachineInt.I64_MAX
    case U128 => MachineInt.I128_MAX
    case Usize => MachineInt.ISIZE_MAX
  }

  /** The signed type's minimum, `-(max + 1)`. */
  function SignedMin(w: Width): int
  {
    -(SignedMax(w) as int) - 1
  }

  /** Two's complement: the unsigned range is twice the signed range. */
  lemma WidthRanges(w: Width)
    ensures UnsignedMax(w) == 2 * SignedMax(w) + 1
    ensures SignedMax(w) >= MachineInt.I8_MAX
  {
  }

  predicate InUnsigned(w: Width, a: int)
  {
    0 <= a <= UnsignedMax(w)
  }

  predicate InSigned(w: Width, v: int)
  {
    SignedMin(w) <= v <= SignedMax(w)
  }

  /** `abs_diff`. */
  function AbsDiff(a: nat, b: nat): nat
  {
    if a < b then b - a else a - b
  }

  /** `<signed>::try_from(<unsigned>)`. */
  function TryFromUnsigned(w: Width, v: nat): Option<int>
  {
    if v <= SignedMax(w) then Some(v) else None
  }

  /** `checked_neg` on the signed type: only the minimum has no negation. */
  function CheckedNeg(w: Width, v: int): Option<int>
    requires InSigned(w, v)
  {
    if v == SignedMin(w) then None else Some(-v)
  }

  /** `a.signed_diff(b)`: `a - b` exactly when its magnitude is at most the
    * signed maximum. */
  function SignedDiff(w: Width, a: nat, b: nat): (r: Option<int>)
    requires InUnsigned(w, a) && InUnsigned(w, b)
    ensures r.Some? <==> -(SignedMax(w) as int) <= a - b <= SignedMax(w)
    ensures r.Some? ==> r.value == a - b && InSigned(w, r.value)
  {
    if a < b then
      match TryFromUnsigned(w, AbsDiff(a, b))
      case None => None
      case Some(i) => CheckedNeg(w, i)
    else
      TryFromUnsigned(w, AbsDiff(a, b))
  }

  /** Both branches go through `abs_diff`, so swapping the operands negates
    * the result and keeps its presence. */
  lemma SignedDiffAntisymmetric(w: Width, a: nat, b: nat)
    requires InUnsigned(w, a) && InUnsigned(w, b)
    ensures SignedDiff(w, a, b).Some? <==> SignedDiff(w, b, a).Some?
    ensures SignedDiff(w, a, b).Some? ==> SignedDiff(w, a, b).value == -SignedDiff(w, b, a).value
  {
  }

  /** A value minus itself is zero, at the maximum too. */
  lemma SignedDiffSelf(w: Width, a: nat)
    requires InUnsigned(w, a)
    ensures SignedDiff(w, a, a) == Some(0)
  {
  }

  /** `MAX - 1` does not fit the signed type of the same width. */
  lemma SignedDiffMaxOne(w: Width)
    ensures SignedDiff(w, UnsignedMax(w), 1) == None
    ensures SignedDiff(w, UnsignedMax(w), UnsignedMax(w)) == Some(0)
  {
    WidthRanges(w);
  }

  /** The signed minimum itself is never produced: `0 - (max + 1)` fits the
    * signed type but fails `try_from` on its magnitude. */
  lemma SignedMinNotProduced(w: Width)
    ensures InUnsigned(w, SignedMax(w) + 1) && InSigned(w, -(SignedMax(w) + 1))
    ensures SignedDiff(w, 0, SignedMax(w) + 1) == None
  {
    WidthRanges(w);
  }

  /** The differences of 8 and 9, in both orders, for every width. */
  lemma SignedDiffSmall(w: Width)
    ensures SignedDiff(w, 8, 9) == Some(-1)
    ensures SignedDiff(w, 9, 8) == Some(1)
  {
    WidthRanges(w);
  }
}
