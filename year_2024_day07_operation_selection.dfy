/**
 * Operator choices as digit vectors (`year_2024/day07/operation_selection.rs`).
 * A number below `2^len` names one choice of `+`/`*` for each of `len` gaps
 * through its binary digits, and a number below `3^len` names one choice of
 * `*`/`+`/`||` through its base-3 digits, least significant digit first.
 */
module Year2024Day07OperationSelection {
  import opened Wrappers
  import MachineInt
  import opened Year2024Day07Error

  /** `Operation`; `operation_selection.rs` spells the third one `Concatination`. */
  datatype Operation = Addition | Multiplication | Concatenation

  /** The `len` lowest binary digits of `n`, least significant first. */
  function Bits(n: nat, len: nat): (b: seq<bool>)
    ensures |b| == len
  {
    if len == 0 then [] else [n % 2 == 1] + Bits(n / 2, len - 1)
  }

  /** The number a digit vector stands for: the sum of `2^i` over the set bits. */
  function BitsValue(b: seq<bool>): (v: nat)
    ensures v < MachineInt.Pow(2, |b|)
  {
    if b == [] then 0 else (if b[0] then 1 else 0) + 2 * BitsValue(b[1..])
  }

  /** Decoding the digits of a number below `2^len` gives it back. */
  lemma {:induction false} BitsValueOfBits(n: nat, len: nat)
    requires n < MachineInt.Pow(2, len)
    ensures BitsValue(Bits(n, len)) == n
  {
    if len > 0 {
      BitsValueOfBits(n / 2, len - 1);
      assert Bits(n, len)[1..] == Bits(n / 2, len - 1);
    }
  }

  /** Every digit vector is the digits of its value: each vector of length
    * `len` is reached by exactly one number below `2^len`. */
  lemma {:induction false} BitsOfBitsValue(b: seq<bool>)
    ensures Bits(BitsValue(b), |b|) == b
  {
    if b != [] {
      BitsOfBitsValue(b[1..]);
      var v := BitsValue(b);
      assert v % 2 == 1 <==> b[0];
      assert v / 2 == BitsValue(b[1..]);
    }
  }

  /** `get_bit_vector`: `BitFieldGeneration` when `n` needs more than `len`
    * binary digits, otherwise its `len` lowest digits. The shift `1 << len`
    * is on `usize`, so a `len` of 64 or more panics. */
  method GetBitVector(n: nat, len: nat) returns (r: Result<seq<bool>, Error>)
    requires n <= MachineInt.USIZE_MAX && len < 64
    ensures r.Err? <==> n > MachineInt.Pow(2, len) - 1
    ensures r.Err? ==> r.error == BitFieldGeneration
    ensures r.Ok? ==> r.value == Bits(n, len)
  {
    if n > MachineInt.Pow(2, len) - 1 {
      return Err(BitFieldGeneration);
    }
    var rest := n;
    var bitVector: seq<bool> := [];
    while |bitVector| < len
      invariant |bitVector| <= len
      invariant bitVector + Bits(rest, len - |bitVector|) == Bits(n, len)
      decreases len - |bitVector|
    {
      bitVector := bitVector + [rest % 2 == 1];
      rest := rest / 2;
    }
    return Ok(bitVector);
  }

  /** The `match` of `get_enumeration_vector` on a base-3 digit. */
  function OperationOfDigit(d: nat): Operation
    requires d < 3
  {
    match d
    case 0 => Multiplication
    case 1 => Addition
    case 2 => Concatenation
  }

  function DigitOfOperation(op: Operation): (d: nat)
    ensures d < 3 && OperationOfDigit(d) == op
  {
    match op
    case Multiplication => 0
    case Addition => 1
    case Concatenation => 2
  }

  /** The `len` lowest base-3 digits of `n` as operations, least significant first. */
  function Trits(n: nat, len: nat): (ops: seq<Operation>)
    ensures |ops| == len
  {
    if len == 0 then [] else [OperationOfDigit(n % 3)] + Trits(n / 3, len - 1)
  }

  /** The number an operation vector stands for in base 3. */
  function TritsValue(ops: seq<Operation>): (v: nat)
    ensures v < MachineInt.Pow(3, |ops|)
  {
    if ops == [] then 0 else DigitOfOperation(ops[0]) + 3 * TritsValue(ops[1..])
  }

  lemma {:induction false} TritsValueOfTrits(n: nat, len: nat)
    requires n < MachineInt.Pow(3, len)
    ensures TritsValue(Trits(n, len)) == n
  {
    if len > 0 {
      TritsValueOfTrits(n / 3, len - 1);
      assert Trits(n, len)[1..] == Trits(n / 3, len - 1);
      assert DigitOfOperation(OperationOfDigit(n % 3)) == n % 3;
    }
  }

  /** Each operation vector of length `len` is reached by exactly one number below `3^len`. */
  lemma {:induction false} TritsOfTritsValue(ops: seq<Operation>)
    ensures Trits(TritsValue(ops), |ops|) == ops
  {
    if ops != [] {
      TritsOfTritsValue(ops[1..]);
      var v := TritsValue(ops);
      assert v % 3 == DigitOfOperation(ops[0]);
      assert v / 3 == TritsValue(ops[1..]);
    }
  }

  /** Taking the lowest digit off `rest` moves it onto the end of `acc`. */
  lemma TritsStep(acc: seq<Operation>, rest: nat, m: nat)
    requires m > 0
    ensures acc + Trits(rest, m) == (acc + [OperationOfDigit(rest % 3)]) + Trits(rest / 3, m - 1)
  {
  }

  /** `get_enumeration_vector`: `EnumerationFieldGeneration` when `len` does
    * not fit a `u32` or `n` needs more than `len` base-3 digits, otherwise
    * its `len` lowest digits. `3u32.pow(len)` panics once it overflows. */
  method GetEnumerationVector(n: nat, len: nat) returns (r: Result<seq<Operation>, Error>)
    requires n <= MachineInt.U32_MAX && len <= MachineInt.USIZE_MAX
    requires len > MachineInt.U32_MAX || MachineInt.Pow(3, len) <= MachineInt.U32_MAX
    ensures r.Err? <==> len > MachineInt.U32_MAX || n > MachineInt.Pow(3, len) - 1
    ensures r.Err? ==> r.error == EnumerationFieldGeneration
    ensures r.Ok? ==> r.value == Trits(n, len)
  {
    if len > MachineInt.U32_MAX {
      return Err(EnumerationFieldGeneration);
    }
    var maximumDisplayableValue := MachineInt.Pow(3, len) - 1;
    if n > maximumDisplayableValue {
      return Err(EnumerationFieldGeneration);
    }
    var rest := n;
    var enumerationVector: seq<Operation> := [];
    while |enumerationVector| < len
      invariant |enumerationVector| <= len
      invariant enumerationVector + Trits(rest, len - |enumerationVector|) == Trits(n, len)
      decreases len - |enumerationVector|
    {
      TritsStep(enumerationVector, rest, len - |enumerationVector|);
      var operation;
      match rest % 3 {
        case 0 => operation := Multiplication;
        case 1 => operation := Addition;
        case 2 => operation := Concatenation;
      }
      enumerationVector := enumerationVector + [operation];
      rest := rest / 3;
    }
    return Ok(enumerationVector);
  }

  /** `3^len` fits a `u32` exactly up to `len = 20`, so the precondition of
    * `GetEnumerationVector` allows the lengths 0 to 20 and those beyond `u32`. */
  lemma {:induction false} EnumerationLengthLimit(len: nat)
    ensures MachineInt.Pow(3, len) <= MachineInt.U32_MAX <==> len <= 20
  {
    assert MachineInt.Pow(3, 5) == 243;
    MachineInt.PowAdd(3, 5, 5);
    MachineInt.PowAdd(3, 10, 10);
    assert MachineInt.Pow(3, 20) == 3486784401;
    assert MachineInt.Pow(3, 21) == 3 * MachineInt.Pow(3, 20);
    if len <= 20 {
      MachineInt.PowMonotone(3, len, 20);
    } else {
      MachineInt.PowMonotone(3, 21, len);
    }
  }

  /** The cases of `generate_bit_vector` and `generate_enumeration_vector`. */
  lemma SelectionExamples()
    ensures Bits(1, 4) == [true, false, false, false]
    ensures Bits(5, 4) == [true, false, true, false]
    ensures 5 > MachineInt.Pow(2, 2) - 1
    ensures Trits(5, 4) == [Concatenation, Addition, Multiplication, Multiplication]
    ensures Trits(6, 4) == [Multiplication, Concatenation, Multiplication, Multiplication]
    ensures 27 > MachineInt.Pow(3, 2) - 1
  {
  }
}
