/**
 * Ranges of the Rust machine integers the solutions use. `usize` and `isize`
 * are taken to be 64 bits wide.
 */
module MachineInt {
  const U8_MAX: nat := 0xff
  const U16_MAX: nat := 0xffff
  const U32_MAX: nat := 0xffff_ffff
  const U64_MAX: nat := 0xffff_ffff_ffff_ffff
  const U128_MAX: nat := 0xffff_ffff_ffff_ffff_ffff_ffff_ffff_ffff
  const USIZE_MAX: nat := U64_MAX

  const I8_MAX: nat := 0x7f
  const I16_MAX: nat := 0x7fff
  const I32_MIN: int := -0x8000_0000
  const I32_MAX: int := 0x7fff_ffff
  const I64_MAX: nat := 0x7fff_ffff_ffff_ffff
  const I128_MAX: nat := 0x7fff_ffff_ffff_ffff_ffff_ffff_ffff_ffff
  const ISIZE_MIN: int := -0x8000_0000_0000_0000
  const ISIZE_MAX: int := 0x7fff_ffff_ffff_ffff

  /** `n as i32`: the low 32 bits of `n`, read in two's complement. */
  function AsI32(n: int): (r: int)
    ensures I32_MIN <= r <= I32_MAX
    ensures I32_MIN <= n <= I32_MAX ==> r == n
    ensures (n - r) % 0x1_0000_0000 == 0
  {
    var low := n % 0x1_0000_0000;
    if low <= I32_MAX then low else low - 0x1_0000_0000
  }

  function Pow(base: nat, exp: nat): (r: nat)
    ensures base > 0 ==> r > 0
  {
    if exp == 0 then 1 else base * Pow(base, exp - 1)
  }

  lemma {:induction false} PowMonotone(base: nat, a: nat, b: nat)
    requires base > 0 && a <= b
    ensures Pow(base, a) <= Pow(base, b)
  {
    if a < b {
      PowMonotone(base, a, b - 1);
    }
  }

  lemma {:induction false} PowAdd(base: nat, a: nat, b: nat)
    ensures Pow(base, a + b) == Pow(base, a) * Pow(base, b)
  {
    if b > 0 {
      PowAdd(base, a, b - 1);
      var x, y := Pow(base, a), Pow(base, b - 1);
      assert Pow(base, a + b) == base * Pow(base, a + b - 1);
      assert base * (x * y) == x * (base * y);
    }
  }

  lemma MulAtLeastSelf(a: nat, p: nat)
    requires p >= 1
    ensures a * p >= a
  {
  }

  lemma ShiftDigit(x: int, p: int, y: int, d: int)
    ensures 10 * (x * p + y) + d == x * (10 * p) + (10 * y + d)
  {
  }

  lemma Regroup(a: int, p: int, d: int, r: int)
    ensures a * (10 * p) + (d * p + r) == (a * 10 + d) * p + r
  {
  }
}
