/**
 * The first version of 2024 day 7 (`year_2024/day07.rs`), kept beside the
 * split one: the same parser, bit vectors and `+`/`*` search, with fewer
 * integer types and one error for every parse failure.
 */
module Year2024Day07Old {
  import opened Wrappers
  import RustText
  import MachineInt
  import New = Year2024Day07Error
  import opened Year2024Day07CheckedOp
  import Year2024Day07OperationSelection
  import Year2024Day07Equation
  import Year2024Day07

  datatype Error = ParsingFailed | BitFieldGeneration | AccumulationFailed

  type Equation = Year2024Day07Equation.Equation

  /** The types this version implements `CheckedOp` for: no 128-bit
    * types and no `isize`. */
  predicate Supported(t: Integer)
  {
    t !in {U128, I128, Isize}
  }

  /** `get_bit_vector`: the same bits, with this version's error. */
  method GetBitVector(n: nat, len: nat) returns (r: Result<seq<bool>, Error>)
    requires n <= MachineInt.USIZE_MAX && len < 64
    ensures r.Err? <==> n > MachineInt.Pow(2, len) - 1
    ensures r.Err? ==> r.error == BitFieldGeneration
    ensures r.Ok? ==> r.value == Year2024Day07OperationSelection.Bits(n, len)
  {
    var bits := Year2024Day07OperationSelection.GetBitVector(n, len);
    if bits.Err? {
      return Err(BitFieldGeneration);
    }
    return Ok(bits.value);
  }

  /** `Equation::from_str`: `expected: v1 v2 …`, where a number that is not
    * of type `T` is a `ParsingFailed` like a line that does not match. */
  function FromStr(t: Integer, s: string): (r: Result<Equation, Error>)
    requires Supported(t)
    ensures r.Ok? ==> Year2024Day07Equation.OfType(t, r.value) && |r.value.testValues| >= 1
    ensures r.Err? ==> r.error == ParsingFailed
  {
    match Year2024Day07Equation.Captures(s)
    case None => Err(ParsingFailed)
    case Some((e, vs)) =>
      match Parse(t, e)
      case Err(_) => Err(ParsingFailed)
      case Ok(expected) =>
        match Year2024Day07Equation.ParseValues(t, RustText.Split(RustText.Trim(vs), " "))
        case Err(_) => Err(ParsingFailed)
        case Ok(values) => Ok(Year2024Day07Equation.Equation(expected, values))
  }

  /** The error-less parse of the two versions agrees; the new version only
    * tells a number too large for `T` apart. */
  function AsOld(r: Result<Equation, New.Error>): Result<Equation, Error>
  {
    match r
    case Ok(eq) => Ok(eq)
    case Err(_) => Err(ParsingFailed)
  }

  lemma FromStrAgrees(t: Integer, s: string)
    requires Supported(t)
    ensures FromStr(t, s) == AsOld(Year2024Day07Equation.FromStr(t, s))
  {
  }

  /** The parse examples of this version: a number too large for `T` is a
    * parse failure. */
  lemma ParseExamples()
    ensures FromStr(U8, "190: 10 19") == Ok(Year2024Day07Equation.Equation(190, [10, 19]))
    ensures FromStr(U8, "3267: 81 40 27") == Err(ParsingFailed)
    ensures FromStr(U16, "3267: 81 40 27") == Ok(Year2024Day07Equation.Equation(3267, [81, 40, 27]))
    ensures FromStr(U8, "161011: 16 10 13") == Err(ParsingFailed)
    ensures FromStr(U16, "161011: 16 10 13") == Err(ParsingFailed)
    ensures FromStr(U32, "161011: 16 10 13") == Ok(Year2024Day07Equation.Equation(161011, [16, 10, 13]))
  {
    Year2024Day07Equation.ParseExample190();
    Year2024Day07Equation.ParseExample3267();
    Year2024Day07Equation.ParseExample161011();
    FromStrAgrees(U8, "190: 10 19");
    FromStrAgrees(U8, "3267: 81 40 27");
    FromStrAgrees(U16, "3267: 81 40 27");
    FromStrAgrees(U8, "161011: 16 10 13");
    FromStrAgrees(U16, "161011: 16 10 13");
    FromStrAgrees(U32, "161011: 16 10 13");
  }

  /** The bit vector examples: 1 and 5 in four bits, and 5 not in two. */
  method BitVectorExamples() returns (one: Result<seq<bool>, Error>, five: Result<seq<bool>, Error>, tooLarge: Result<seq<bool>, Error>)
    ensures one == Ok([true, false, false, false])
    ensures five == Ok([true, false, true, false])
    ensures tooLarge == Err(BitFieldGeneration)
  {
    Year2024Day07OperationSelection.SelectionExamples();
    assert MachineInt.Pow(2, 4) == 16;
    one := GetBitVector(1, 4);
    five := GetBitVector(5, 4);
    tooLarge := GetBitVector(5, 2);
  }

  /** The parsed lines, `collect`ed: every equation, or `ParsingFailed`. */
  function ParseAll(lines: seq<string>): (r: Result<seq<Equation>, Error>)
    ensures r.Ok? <==> forall i :: 0 <= i < |lines| ==> FromStr(U64, lines[i]).Ok?
    ensures r.Ok? ==> |r.value| == |lines| && forall i :: 0 <= i < |lines| ==> FromStr(U64, lines[i]) == Ok(r.value[i])
    ensures r.Err? ==> r.error == ParsingFailed
  {
    var rs := ParsedLines(lines);
    var r := Collect(rs);
    if r.Err? then CollectError(rs); r else r
  }

  function ParsedLines(lines: seq<string>): (rs: seq<Result<Equation, Error>>)
    ensures |rs| == |lines| && forall i :: 0 <= i < |lines| ==> rs[i] == FromStr(U64, lines[i])
  {
    seq(|lines|, i requires 0 <= i < |lines| => FromStr(U64, lines[i]))
  }

  /** Parsed test values are `u64` values, so not negative. */
  lemma ParsedExpected(lines: seq<string>)
    requires ParseAll(lines).Ok?
    ensures Year2024Day07.Expected(ParseAll(lines).value)
  {
    var eqs := ParseAll(lines).value;
    forall i | 0 <= i < |eqs|
      ensures eqs[i].expected >= 0
    {
      assert FromStr(U64, lines[i]) == Ok(eqs[i]);
    }
  }

  /** What `get_sum_of_calibration_values` promises: `ParsingFailed` if a
    * line does not parse; otherwise the sum of the test values of the
    * `+`/`*`-solvable equations, or `AccumulationFailed` past `u64`. */
  ghost function Answer(input: string): Result<int, Error>
  {
    match ParseAll(RustText.Lines(input))
    case Err(e) => Err(e)
    case Ok(eqs) =>
      var total := Year2024Day07.Sum(Year2024Day07.Kept(U64, eqs, false));
      if total <= Max(U64) then Ok(total) else Err(AccumulationFailed)
  }

  /** `get_sum_of_calibration_values`, whose filter and fold are those of
    * the split version. */
  method GetSumOfCalibrationValues(input: string) returns (r: Result<int, Error>)
    requires var p := ParseAll(RustText.Lines(input)); p.Ok? ==> Year2024Day07.AddMulFits(p.value)
    ensures r == Answer(input)
  {
    var parsed := ParseAll(RustText.Lines(input));
    if parsed.Err? {
      return Err(parsed.error);
    }
    var eqs := parsed.value;
    ParsedExpected(RustText.Lines(input));
    var sum := Year2024Day07.SumAddMul(U64, eqs);
    if sum.None? {
      return Err(AccumulationFailed);
    }
    return Ok(sum.value);
  }

  /** The errors of the split version as this one reports them. */
  function AsOldAnswer(r: Result<int, New.Error>): Result<int, Error>
  {
    match r
    case Ok(v) => Ok(v)
    case Err(e) => if e == New.AccumulationFailed then Err(AccumulationFailed) else Err(ParsingFailed)
  }

  /** Both versions give the same `u64` answer, but for the kind of parse
    * error. */
  lemma AnswerAgrees(input: string)
    ensures Answer(input) == AsOldAnswer(Year2024Day07.Answer(U64, input, false))
  {
    var lines := RustText.Lines(input);
    forall i | 0 <= i < |lines|
      ensures FromStr(U64, lines[i]) == AsOld(Year2024Day07Equation.FromStr(U64, lines[i]))
    {
      FromStrAgrees(U64, lines[i]);
    }
    var old_ := ParseAll(lines);
    var new_ := Year2024Day07.ParseAll(U64, lines);
    if new_.Ok? {
      assert old_.Ok?;
      assert old_.value == new_.value;
    } else {
      assert old_.Err?;
    }
  }
}
