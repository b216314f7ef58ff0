/**
 * The two answers of 2024 day 7 (`year_2024/day07/mod.rs`): every line of
 * the input is parsed as an equation, the equations a solver accepts are
 * kept, and their test values are summed with `checked_add`, in `u64` with
 * `+` and `*`, in `u128` once `||` is allowed too.
 */
module Year2024Day07 {
  import opened Wrappers
  import MachineInt
  import RustText
  import opened Year2024Day07Error
  import opened Year2024Day07CheckedOp
  import opened Year2024Day07Equation

  /** The parsed lines, `collect`ed: every equation, or the error of the
    * first line that does not parse. */
  function ParseAll(t: Integer, lines: seq<string>): (r: Result<seq<Equation>, Error>)
    ensures r.Ok? <==> forall i :: 0 <= i < |lines| ==> FromStr(t, lines[i]).Ok?
    ensures r.Ok? ==> |r.value| == |lines| && forall i :: 0 <= i < |lines| ==> FromStr(t, lines[i]) == Ok(r.value[i])
    ensures r.Err? ==> exists i :: (0 <= i < |lines| && FromStr(t, lines[i]) == Err(r.error) &&
      forall j :: 0 <= j < i ==> FromStr(t, lines[j]).Ok?)
  {
    var rs := ParsedLines(t, lines);
    var r := Collect(rs);
    if r.Err? then CollectError(rs); r else r
  }

  /** Each line parsed on its own. */
  function ParsedLines(t: Integer, lines: seq<string>): (rs: seq<Result<Equation, Error>>)
    ensures |rs| == |lines| && forall i :: 0 <= i < |lines| ==> rs[i] == FromStr(t, lines[i])
  {
    seq(|lines|, i requires 0 <= i < |lines| => FromStr(t, lines[i]))
  }

  /** Parsed equations have at least one value, all of the type. */
  lemma ParsedEquations(t: Integer, lines: seq<string>)
    requires ParseAll(t, lines).Ok?
    ensures forall i :: 0 <= i < |lines| ==>
      var eq := ParseAll(t, lines).value[i]; OfType(t, eq) && |eq.testValues| >= 1
  {
    var eqs := ParseAll(t, lines).value;
    forall i | 0 <= i < |lines|
      ensures OfType(t, eqs[i]) && |eqs[i].testValues| >= 1
    {
      assert FromStr(t, lines[i]) == Ok(eqs[i]);
    }
  }

  /** The `filter`: in order, the test values of the equations the solver
    * accepts. */
  ghost function Kept(t: Integer, eqs: seq<Equation>, withConcat: bool): seq<int>
  {
    if eqs == [] then []
    else
      var last := eqs[|eqs| - 1];
      Kept(t, eqs[..|eqs| - 1], withConcat) +
      (if |last.testValues| >= 1 && Solvable(t, last, withConcat) then [last.expected] else [])
  }

  function Sum(items: seq<int>): int
  {
    if items == [] then 0 else Sum(items[..|items| - 1]) + items[|items| - 1]
  }

  /** The `fold`: `checked_add` from `Some(0)` along `items`, and `None`
    * from the first overflow on. */
  function Fold(t: Integer, items: seq<int>): Option<int>
  {
    if items == [] then Some(0)
    else
      match Fold(t, items[..|items| - 1])
      case None => None
      case Some(a) => CheckedAdd(t, a, items[|items| - 1])
  }

  predicate NonNegative(items: seq<int>)
  {
    forall i :: 0 <= i < |items| ==> items[i] >= 0
  }

  lemma {:induction false} SumNonNegative(items: seq<int>)
    requires NonNegative(items)
    ensures Sum(items) >= 0
  {
    if items != [] {
      SumNonNegative(items[..|items| - 1]);
    }
  }

  /** On non-negative items the fold overflows exactly when the true total
    * exceeds the type's maximum, and otherwise yields that total. */
  lemma {:induction false} FoldIsSum(t: Integer, items: seq<int>)
    requires NonNegative(items)
    ensures Fold(t, items) == if Sum(items) <= Max(t) then Some(Sum(items)) else None
  {
    if items != [] {
      var init := items[..|items| - 1];
      FoldIsSum(t, init);
      SumNonNegative(init);
    }
  }

  /** Kept test values come from the equations; a type without negative
    * values keeps only non-negative ones. */
  lemma {:induction false} KeptNonNegative(t: Integer, eqs: seq<Equation>, withConcat: bool)
    requires forall i :: 0 <= i < |eqs| ==> eqs[i].expected >= 0
    ensures NonNegative(Kept(t, eqs, withConcat))
  {
    if eqs != [] {
      KeptNonNegative(t, eqs[..|eqs| - 1], withConcat);
    }
  }

  /** What both answers promise: the parse error of the first bad line; or
    * the sum of the kept test values, and `AccumulationFailed` when it does
    * not fit the type. */
  ghost function Answer(t: Integer, input: string, withConcat: bool): Result<int, Error>
  {
    match ParseAll(t, RustText.Lines(input))
    case Err(e) => Err(e)
    case Ok(eqs) =>
      var total := Sum(Kept(t, eqs, withConcat));
      if total <= Max(t) then Ok(total) else Err(AccumulationFailed)
  }

  lemma KeptStep(t: Integer, eqs: seq<Equation>, i: nat, withConcat: bool)
    requires i < |eqs|
    ensures Kept(t, eqs[..i + 1], withConcat) ==
      if |eqs[i].testValues| >= 1 && Solvable(t, eqs[i], withConcat) then Kept(t, eqs[..i], withConcat) + [eqs[i].expected]
      else Kept(t, eqs[..i], withConcat)
  {
    assert eqs[..i + 1][..i] == eqs[..i];
  }

  lemma FoldStep(t: Integer, items: seq<int>, x: int)
    ensures Fold(t, items + [x]) == if Fold(t, items).None? then None else CheckedAdd(t, Fold(t, items).value, x)
  {
    assert (items + [x])[..|items|] == items;
  }

  /** One step of the `filter` and `fold`: the solver's verdict on the next
    * equation decides whether its test value is added. */
  lemma SumStep(t: Integer, eqs: seq<Equation>, i: nat, withConcat: bool, acc: Option<int>, solvable: bool)
    requires i < |eqs| && |eqs[i].testValues| >= 1
    requires acc == Fold(t, Kept(t, eqs[..i], withConcat))
    requires solvable == Solvable(t, eqs[i], withConcat)
    ensures Fold(t, Kept(t, eqs[..i + 1], withConcat)) ==
      if !solvable then acc else if acc.None? then None else CheckedAdd(t, acc.value, eqs[i].expected)
  {
    KeptStep(t, eqs, i, withConcat);
    if solvable {
      FoldStep(t, Kept(t, eqs[..i], withConcat), eqs[i].expected);
    }
  }

  /** After the last equation the fold is the checked total of the kept
    * test values. */
  lemma FoldKept(t: Integer, eqs: seq<Equation>, withConcat: bool)
    requires Expected(eqs)
    ensures Fold(t, Kept(t, eqs[..|eqs|], withConcat)) ==
      var total := Sum(Kept(t, eqs, withConcat)); if total <= Max(t) then Some(total) else None
  {
    assert eqs[..|eqs|] == eqs;
    KeptNonNegative(t, eqs, withConcat);
    FoldIsSum(t, Kept(t, eqs, withConcat));
  }

  /** The panics of `is_solvable_add_mul`: `1 << (len - 1)` on more than
    * 64 values, and `len - 1` on none. */
  predicate AddMulFits(eqs: seq<Equation>)
  {
    forall i :: 0 <= i < |eqs| ==> 1 <= |eqs[i].testValues| <= 64
  }

  /** The panic of `is_solvable_add_mul_concat` on any line. */
  predicate ConcatFits(eqs: seq<Equation>)
  {
    forall i :: 0 <= i < |eqs| ==> EnumerationFits(eqs[i])
  }

  predicate Expected(eqs: seq<Equation>)
  {
    forall i :: 0 <= i < |eqs| ==> eqs[i].expected >= 0
  }

  /** The `filter` and `fold` with the `+`/`*` solver. */
  method SumAddMul(t: Integer, eqs: seq<Equation>) returns (acc: Option<int>)
    requires AddMulFits(eqs) && Expected(eqs)
    ensures acc == var total := Sum(Kept(t, eqs, false)); if total <= Max(t) then Some(total) else None
  {
    acc := Some(0);
    for i := 0 to |eqs|
      invariant acc == Fold(t, Kept(t, eqs[..i], false))
    {
      var solvable := IsSolvableAddMul(t, eqs[i]);
      SumStep(t, eqs, i, false, acc, solvable);
      if solvable {
        acc := if acc.None? then None else CheckedAdd(t, acc.value, eqs[i].expected);
      }
    }
    FoldKept(t, eqs, false);
  }

  /** The `filter` and `fold` with the three-operator solver. */
  method SumAddMulConcat(t: Integer, eqs: seq<Equation>) returns (acc: Option<int>)
    requires ConcatFits(eqs) && Expected(eqs)
    ensures acc == var total := Sum(Kept(t, eqs, true)); if total <= Max(t) then Some(total) else None
  {
    acc := Some(0);
    for i := 0 to |eqs|
      invariant acc == Fold(t, Kept(t, eqs[..i], true))
    {
      var solvable := IsSolvableAddMulConcat(t, eqs[i]);
      SumStep(t, eqs, i, true, acc, solvable);
      if solvable {
        acc := if acc.None? then None else CheckedAdd(t, acc.value, eqs[i].expected);
      }
    }
    FoldKept(t, eqs, true);
  }

  /** `get_sum_of_calibration_values`. */
  method GetSumOfCalibrationValues(input: string) returns (r: Result<int, Error>)
    requires var p := ParseAll(U64, RustText.Lines(input)); p.Ok? ==> AddMulFits(p.value)
    ensures r == Answer(U64, input, false)
  {
    var parsed := ParseAll(U64, RustText.Lines(input));
    if parsed.Err? {
      return Err(parsed.error);
    }
    ParsedEquations(U64, RustText.Lines(input));
    var sum := SumAddMul(U64, parsed.value);
    if sum.None? {
      return Err(AccumulationFailed);
    }
    return Ok(sum.value);
  }

  /** `get_sum_of_calibration_values_with_concat`. */
  method GetSumOfCalibrationValuesWithConcat(input: string) returns (r: Result<int, Error>)
    requires var p := ParseAll(U128, RustText.Lines(input)); p.Ok? ==> ConcatFits(p.value)
    ensures r == Answer(U128, input, true)
  {
    var parsed := ParseAll(U128, RustText.Lines(input));
    if parsed.Err? {
      return Err(parsed.error);
    }
    ParsedEquations(U128, RustText.Lines(input));
    var sum := SumAddMulConcat(U128, parsed.value);
    if sum.None? {
      return Err(AccumulationFailed);
    }
    return Ok(sum.value);
  }

  // ---------------------------------------------------------------------
  // The sample
  // ---------------------------------------------------------------------

  /** An equation with a value, all of type `t`: one that parses back
    * from its line. */
  predicate Printable(t: Integer, eq: Equation)
  {
    |eq.testValues| >= 1 && OfType(t, eq)
  }

  /** The input made of one formatted line per equation. */
  function Input(eqs: seq<Equation>): string
    requires forall i :: 0 <= i < |eqs| ==> Unsigned(eqs[i])
  {
    RustText.Join(InputLines(eqs), "\n")
  }

  function InputLines(eqs: seq<Equation>): (lines: seq<string>)
    requires forall i :: 0 <= i < |eqs| ==> Unsigned(eqs[i])
    ensures |lines| == |eqs| && forall i :: 0 <= i < |eqs| ==> lines[i] == Format(eqs[i])
  {
    if eqs == [] then [] else [Format(eqs[0])] + InputLines(eqs[1..])
  }

  /** Formatting equations as input lines and parsing that input gives the
    * equations back. */
  lemma ParseInput(t: Integer, eqs: seq<Equation>)
    requires forall i :: 0 <= i < |eqs| ==> Unsigned(eqs[i])
    requires forall i :: 0 <= i < |eqs| ==> Printable(t, eqs[i])
    ensures ParseAll(t, RustText.Lines(Input(eqs))) == Ok(eqs)
  {
    var lines := InputLines(eqs);
    forall i | 0 <= i < |eqs|
      ensures RustText.IsLine(lines[i]) && FromStr(t, lines[i]) == Ok(eqs[i])
    {
      FormatIsLine(eqs[i]);
      FromStrFormat(t, eqs[i]);
    }
    RustText.LinesJoin(lines);
    var r := ParseAll(t, lines);
    assert r.Ok?;
    assert r.value == eqs;
  }

  /** What `eq` adds to the sum of the kept values. */
  ghost function KeptValue(t: Integer, eq: Equation, c: bool): int
  {
    if |eq.testValues| >= 1 && Solvable(t, eq, c) then eq.expected else 0
  }

  lemma KeptSumStep(t: Integer, eqs: seq<Equation>, k: nat, c: bool)
    requires 0 < k <= |eqs|
    ensures Sum(Kept(t, eqs[..k], c)) == Sum(Kept(t, eqs[..k - 1], c)) + KeptValue(t, eqs[k - 1], c)
  {
    KeptStep(t, eqs, k - 1, c);
    var init := Kept(t, eqs[..k - 1], c);
    assert (init + [eqs[k - 1].expected])[..|init|] == init;
  }

  /** The sum of what the first `k` equations add. */
  ghost function KeptTotal(t: Integer, eqs: seq<Equation>, c: bool, k: nat): int
    requires k <= |eqs|
  {
    if k == 0 then 0 else KeptTotal(t, eqs, c, k - 1) + KeptValue(t, eqs[k - 1], c)
  }

  lemma {:induction false} SumKept(t: Integer, eqs: seq<Equation>, c: bool, k: nat)
    requires k <= |eqs|
    ensures Sum(Kept(t, eqs[..k], c)) == KeptTotal(t, eqs, c, k)
  {
    if k == 0 {
      assert eqs[..0] == [];
    } else {
      SumKept(t, eqs, c, k - 1);
      KeptSumStep(t, eqs, k, c);
    }
  }

  lemma KeptTotalStep(t: Integer, eqs: seq<Equation>, c: bool, k: nat)
    requires 0 < k <= |eqs|
    ensures KeptTotal(t, eqs, c, k) == KeptTotal(t, eqs, c, k - 1) + KeptValue(t, eqs[k - 1], c)
  {
  }

  lemma SumNine(t: Integer, c: bool, e0: Equation, e1: Equation, e2: Equation, e3: Equation, e4: Equation,
                e5: Equation, e6: Equation, e7: Equation, e8: Equation)
    ensures Sum(Kept(t, [e0, e1, e2, e3, e4, e5, e6, e7, e8], c)) ==
      KeptValue(t, e0, c) + KeptValue(t, e1, c) + KeptValue(t, e2, c) + KeptValue(t, e3, c) + KeptValue(t, e4, c) +
      KeptValue(t, e5, c) + KeptValue(t, e6, c) + KeptValue(t, e7, c) + KeptValue(t, e8, c)
  {
    var eqs := [e0, e1, e2, e3, e4, e5, e6, e7, e8];
    assert eqs[0] == e0 && eqs[1] == e1 && eqs[2] == e2 && eqs[3] == e3 && eqs[4] == e4;
    assert eqs[5] == e5 && eqs[6] == e6 && eqs[7] == e7 && eqs[8] == e8;
    SumKept(t, eqs, c, 9);
    assert eqs[..9] == eqs;
    KeptTotalStep(t, eqs, c, 1);
    KeptTotalStep(t, eqs, c, 2);
    KeptTotalStep(t, eqs, c, 3);
    KeptTotalStep(t, eqs, c, 4);
    KeptTotalStep(t, eqs, c, 5);
    KeptTotalStep(t, eqs, c, 6);
    KeptTotalStep(t, eqs, c, 7);
    KeptTotalStep(t, eqs, c, 8);
    KeptTotalStep(t, eqs, c, 9);
  }

  /** The answers on the sample, in every wide type: 3749 with `+` and
    * `*`, 11387 with `||` as well. */
  lemma SampleSum(t: Integer, c: bool)
    requires Wide(t)
    ensures Sum(Kept(t, Sample, c)) == if c then 11387 else 3749
  {
    var e0, e1, e2, e3, e4, e5, e6, e7, e8 :=
      Sample[0], Sample[1], Sample[2], Sample[3], Sample[4], Sample[5], Sample[6], Sample[7], Sample[8];
    SampleLine0(t, c);
    SampleLine1(t, c);
    SampleLine2(t, c);
    SampleLine3(t, c);
    SampleLine4(t, c);
    SampleLine5(t, c);
    SampleLine6(t, c);
    SampleLine7(t, c);
    SampleLine8(t, c);
    SumNine(t, c, e0, e1, e2, e3, e4, e5, e6, e7, e8);
    assert Sample == [e0, e1, e2, e3, e4, e5, e6, e7, e8];
  }
}
