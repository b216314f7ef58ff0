/**
 * 2023 day 1 (`year_2023/day01.rs`): every line of the calibration document
 * hides a two-digit value, its first digit followed by its last digit, and
 * the answer is the sum of those values.
 *
 * The solution reads each line with the pattern
 * `^\D*(?P<first>\d)?.*(?P<second>\d)`. Under Rust's leftmost-first,
 * greedy matching, `\D*` stops at the first digit, the optional `first`
 * takes that digit when a later digit is left for `second`, and the greedy
 * `.*` leaves the last digit to `second`; a line with a single digit
 * matches with `first` absent, and a line with no digit does not match.
 * `Capture` is that match, written out, over ASCII digits.
 */
module Year2023Day01 {
  import opened Wrappers
  import MachineInt
  import RustText

  type ParseIntError = RustText.IntErrorKind

  predicate IsDigit(c: char) { RustText.IsDigit(c) }

  /** The line has a digit somewhere. */
  predicate HasDigit(l: string)
  {
    exists i :: 0 <= i < |l| && IsDigit(l[i])
  }

  // ---------------------------------------------------------------------
  // The digits of a line
  // ---------------------------------------------------------------------

  /** The digits of `l`, in order. */
  function Digits(l: string): (ds: seq<char>)
    ensures |ds| <= |l|
    ensures forall i :: 0 <= i < |ds| ==> IsDigit(ds[i])
  {
    if l == [] then []
    else (if IsDigit(l[0]) then [l[0]] else []) + Digits(l[1..])
  }

  /** The digits of two pieces, one after the other. */
  lemma {:induction false} DigitsConcat(a: string, b: string)
    ensures Digits(a + b) == Digits(a) + Digits(b)
  {
    if a != [] {
      assert (a + b)[1..] == a[1..] + b;
      DigitsConcat(a[1..], b);
    } else {
      assert a + b == b;
    }
  }

  /** No digits exactly when no character is a digit. */
  lemma {:induction false} DigitsEmpty(s: string)
    ensures Digits(s) == [] <==> !HasDigit(s)
  {
    if s != [] {
      DigitsEmpty(s[1..]);
      assert forall i :: 1 <= i < |s| ==> s[i] == s[1..][i - 1];
      if HasDigit(s[1..]) {
        var i :| 0 <= i < |s| - 1 && IsDigit(s[1..][i]);
        assert IsDigit(s[i + 1]);
      }
    }
  }

  // ---------------------------------------------------------------------
  // The pattern
  // ---------------------------------------------------------------------

  /** Where `^\D*` stops: the index of the first digit. */
  function FirstDigit(l: string): (r: Option<nat>)
    ensures r.None? <==> !HasDigit(l)
    ensures r.Some? ==>
      (r.value < |l| && IsDigit(l[r.value]) && forall j :: 0 <= j < r.value ==> !IsDigit(l[j]))
  {
    if l == [] then None
    else if IsDigit(l[0]) then Some(0)
    else
      var r := FirstDigit(l[1..]);
      assert forall i :: 1 <= i < |l| ==> l[i] == l[1..][i - 1];
      if r.Some? then Some(r.value + 1)
      else
        assert !HasDigit(l) by {
          if i :| 0 <= i < |l| && IsDigit(l[i]) {
            assert IsDigit(l[1..][i - 1]);
          }
        }
        None
  }

  /** Where the greedy `.*` leaves off: the index of the last digit. */
  function LastDigit(l: string): (r: Option<nat>)
    ensures r.None? <==> !HasDigit(l)
    ensures r.Some? ==>
      (r.value < |l| && IsDigit(l[r.value]) && forall j :: r.value < j < |l| ==> !IsDigit(l[j]))
  {
    if l == [] then None
    else if IsDigit(l[|l| - 1]) then Some(|l| - 1)
    else
      var r := LastDigit(l[..|l| - 1]);
      if r.Some? then Some(r.value)
      else
        assert !HasDigit(l) by {
          if i :| 0 <= i < |l| && IsDigit(l[i]) {
            assert IsDigit(l[..|l| - 1][i]);
          }
        }
        None
  }

  /** The groups `first` and `second` of a match. */
  datatype Captures = Captures(first: Option<char>, second: char)

  /** `re.captures(l)`: no match without a digit; `first` is the first
    * digit when a different, later digit is left for `second`, which is
    * the last digit. */
  function Capture(l: string): (r: Option<Captures>)
    ensures r.None? <==> !HasDigit(l)
  {
    match (FirstDigit(l), LastDigit(l))
    case (Some(p), Some(q)) =>
      if p < q then Some(Captures(Some(l[p]), l[q])) else Some(Captures(None, l[q]))
    case _ => None
  }

  /** The groups in terms of the line's digits: `second` is the last
    * digit, and `first` is the first digit exactly when there are two or
    * more. */
  lemma CaptureMeaning(l: string)
    ensures Capture(l).None? <==> Digits(l) == []
    ensures Capture(l).Some? ==>
      var ds := Digits(l);
      Capture(l).value.second == ds[|ds| - 1] &&
      Capture(l).value.first == if |ds| >= 2 then Some(ds[0]) else None
  {
    DigitsEmpty(l);
    if HasDigit(l) {
      var p, q := FirstDigit(l).value, LastDigit(l).value;
      assert p <= q;
      NoDigitBefore(l, p);
      NoDigitAfter(l, q);
      if p < q {
        DigitsOfTwo(l, p, q);
      } else {
        DigitsOfOne(l, p);
      }
    }
  }

  lemma DigitsOfTwo(l: string, p: nat, q: nat)
    requires p < q < |l| && IsDigit(l[p]) && IsDigit(l[q])
    requires !HasDigit(l[..p]) && !HasDigit(l[q + 1..])
    ensures Digits(l) == [l[p]] + Digits(l[p + 1..q]) + [l[q]]
  {
    SplitAt(l, p, q);
    DigitsAroundTwo(l[..p], l[p], l[p + 1..q], l[q], l[q + 1..]);
  }

  lemma DigitsOfOne(l: string, p: nat)
    requires p < |l| && IsDigit(l[p])
    requires !HasDigit(l[..p]) && !HasDigit(l[p + 1..])
    ensures Digits(l) == [l[p]]
  {
    assert l == l[..p] + [l[p]] + l[p + 1..] by {
      assert l[..p] + [l[p]] == l[..p + 1];
    }
    DigitsAroundOne(l[..p], l[p], l[p + 1..]);
  }

  lemma NoDigitBefore(l: string, p: nat)
    requires p <= |l| && forall j :: 0 <= j < p ==> !IsDigit(l[j])
    ensures !HasDigit(l[..p])
  {
    assert forall i :: 0 <= i < p ==> l[..p][i] == l[i];
  }

  lemma NoDigitAfter(l: string, q: nat)
    requires q < |l| && forall j :: q < j < |l| ==> !IsDigit(l[j])
    ensures !HasDigit(l[q + 1..])
  {
    var b := l[q + 1..];
    assert forall i :: 0 <= i < |b| ==> b[i] == l[q + 1 + i];
  }

  /** A line cut around two positions. */
  lemma SplitAt(l: string, p: nat, q: nat)
    requires p < q < |l|
    ensures l == l[..p] + [l[p]] + l[p + 1..q] + [l[q]] + l[q + 1..]
  {
    assert l[..p] + [l[p]] == l[..p + 1];
    assert l[..p + 1] + l[p + 1..q] == l[..q];
    assert l[..q] + [l[q]] == l[..q + 1];
    assert l[..q + 1] + l[q + 1..] == l;
  }

  /** The digits of a line with exactly one digit, `x`. */
  lemma DigitsAroundOne(a: string, x: char, b: string)
    requires !HasDigit(a) && IsDigit(x) && !HasDigit(b)
    ensures Digits(a + [x] + b) == [x]
  {
    DigitsEmpty(a);
    DigitsEmpty(b);
    DigitsConcat(a, [x]);
    DigitsConcat(a + [x], b);
    assert Digits([x]) == [x];
  }

  /** The digits of a line whose first digit is `x` and last is `y`. */
  lemma DigitsAroundTwo(a: string, x: char, m: string, y: char, b: string)
    requires !HasDigit(a) && IsDigit(x) && IsDigit(y) && !HasDigit(b)
    ensures Digits(a + [x] + m + [y] + b) == [x] + Digits(m) + [y]
  {
    DigitsEmpty(a);
    DigitsEmpty(b);
    DigitsConcat(a, [x]);
    DigitsConcat(a + [x], m);
    DigitsConcat(a + [x] + m, [y]);
    DigitsConcat(a + [x] + m + [y], b);
    assert Digits([x]) == [x] && Digits([y]) == [y];
  }

  // ---------------------------------------------------------------------
  // Calibration values
  // ---------------------------------------------------------------------

  /** The value of one line: `first * 10 + second`, or `digit * 11` when
    * only `second` matched. A line with no digit panics in `day01.rs`
    * (`expect("invalid calibration line")`), hence the precondition. */
  function CalibrationValue(l: string): int
    requires HasDigit(l)
  {
    var caps := Capture(l).value;
    match caps.first
    case Some(first) => RustText.DigitValue(first) * 10 + RustText.DigitValue(caps.second)
    case None => RustText.DigitValue(caps.second) * 11
  }

  /** The value is the first digit followed by the last digit, which for a
    * single digit `d` is `11 * d`. */
  lemma CalibrationValueMeaning(l: string)
    requires HasDigit(l)
    ensures var ds := Digits(l);
      |ds| > 0 &&
      CalibrationValue(l) == 10 * RustText.DigitValue(ds[0]) + RustText.DigitValue(ds[|ds| - 1])
    ensures |Digits(l)| == 1 ==> CalibrationValue(l) == 11 * RustText.DigitValue(Digits(l)[0])
    ensures 0 <= CalibrationValue(l) <= 99
  {
    CaptureMeaning(l);
  }

  /** `get_calibration_values_only_digits`: the value of every line, in
    * order. The `ParseIntError` is never produced, because every parse is
    * of a single digit and every other failure panics. */
  function CalibrationValues(input: string): (r: Result<seq<int>, ParseIntError>)
    requires forall l :: l in RustText.Lines(input) ==> HasDigit(l)
    ensures r.Ok?
    ensures var lines := RustText.Lines(input);
      |r.value| == |lines| &&
      forall i :: 0 <= i < |lines| ==> r.value[i] == CalibrationValue(lines[i])
  {
    var lines := RustText.Lines(input);
    Ok(seq(|lines|, i requires 0 <= i < |lines| => CalibrationValue(lines[i])))
  }

  function Sum(xs: seq<int>): int
  {
    if xs == [] then 0 else Sum(xs[..|xs| - 1]) + xs[|xs| - 1]
  }

  /** A sum of calibration values lies between 0 and 99 per value. */
  lemma {:induction false} SumBounds(xs: seq<int>)
    requires forall i :: 0 <= i < |xs| ==> 0 <= xs[i] <= 99
    ensures 0 <= Sum(xs) <= 99 * |xs|
  {
    if xs != [] {
      SumBounds(xs[..|xs| - 1]);
    }
  }

  /** The running sums only grow, so the total bounds each of them: an
    * `i32` total never overflows on the way. */
  lemma {:induction false} SumPrefix(xs: seq<int>, k: nat)
    requires k <= |xs| && forall i :: 0 <= i < |xs| ==> 0 <= xs[i] <= 99
    ensures 0 <= Sum(xs[..k]) <= Sum(xs)
    decreases |xs| - k
  {
    SumBounds(xs[..k]);
    if k < |xs| {
      SumPrefix(xs, k + 1);
      assert xs[..k + 1][..k] == xs[..k];
    } else {
      assert xs[..k] == xs;
    }
  }

  /** `get_calibration_values_sum_only_digits`: the sum of the values. An
    * `i32` sum that overflows panics in `day01.rs`, hence the second
    * precondition. */
  function CalibrationValuesSum(input: string): (r: Result<int, ParseIntError>)
    requires forall l :: l in RustText.Lines(input) ==> HasDigit(l)
    requires Sum(CalibrationValues(input).value) <= MachineInt.I32_MAX
    ensures r.Ok? && 0 <= r.value <= 99 * |RustText.Lines(input)|
  {
    var vs := CalibrationValues(input).value;
    forall i | 0 <= i < |vs|
      ensures 0 <= vs[i] <= 99
    {
      CalibrationValueMeaning(RustText.Lines(input)[i]);
    }
    SumBounds(vs);
    Ok(Sum(vs))
  }

  // ---------------------------------------------------------------------
  // The test cases
  // ---------------------------------------------------------------------

  /** A line whose first digit is at `p` and last at `q`. */
  lemma LineValue(l: string, p: nat, q: nat)
    requires p <= q < |l| && IsDigit(l[p]) && IsDigit(l[q])
    requires forall j :: 0 <= j < p ==> !IsDigit(l[j])
    requires forall j :: q < j < |l| ==> !IsDigit(l[j])
    ensures HasDigit(l)
    ensures CalibrationValue(l) ==
      if p < q then 10 * RustText.DigitValue(l[p]) + RustText.DigitValue(l[q])
      else 11 * RustText.DigitValue(l[p])
  {
    assert FirstDigit(l) == Some(p);
    assert LastDigit(l) == Some(q);
  }

  /** The lines of the sample, one lemma each. */
  lemma SampleValue0(l: string)
    requires l == "1abc2"
    ensures HasDigit(l) && CalibrationValue(l) == 12
  {
    LineValue(l, 0, 4);
  }

  lemma SampleValue1(l: string)
    requires l == "pqr3stu8vwx"
    ensures HasDigit(l) && CalibrationValue(l) == 38
  {
    LineValue(l, 3, 7);
  }

  lemma SampleValue2(l: string)
    requires l == "a1b2c3d4e5f"
    ensures HasDigit(l) && CalibrationValue(l) == 15
  {
    LineValue(l, 1, 9);
  }

  lemma SampleValue3(l: string)
    requires l == "treb7uchet"
    ensures HasDigit(l) && CalibrationValue(l) == 77
  {
    LineValue(l, 4, 4);
  }

  /** Two lines joined by `\n` split back into those two. */
  lemma TwoLines(c: string, d: string)
    requires RustText.IsLine(c) && RustText.IsLine(d)
    ensures RustText.Lines(c + "\n" + d) == [c, d]
  {
    RustText.LinesOfLine(d);
    RustText.LinesCons(c, d);
  }

  /** Three lines joined by `\n` split back into those three. */
  lemma ThreeLines(b: string, c: string, d: string)
    requires RustText.IsLine(b) && RustText.IsLine(c) && RustText.IsLine(d)
    ensures RustText.Lines(b + "\n" + (c + "\n" + d)) == [b, c, d]
  {
    TwoLines(c, d);
    RustText.LinesCons(b, c + "\n" + d);
    assert [b] + [c, d] == [b, c, d];
  }

  /** Four lines joined by `\n` split back into those four. */
  lemma FourLines(a: string, b: string, c: string, d: string)
    requires RustText.IsLine(a) && RustText.IsLine(b) && RustText.IsLine(c) && RustText.IsLine(d)
    ensures RustText.Lines(a + "\n" + (b + "\n" + (c + "\n" + d))) == [a, b, c, d]
  {
    ThreeLines(b, c, d);
    RustText.LinesCons(a, b + "\n" + (c + "\n" + d));
    assert [a] + [b, c, d] == [a, b, c, d];
  }

  /** The `get_values_only_digits` and `get_sum_only_digits` tests: the
    * sample's four lines, joined by `\n`, are worth 12, 38, 15 and 77, 142
    * in all. */
  lemma Sample(l0: string, l1: string, l2: string, l3: string)
    requires l0 == "1abc2" && l1 == "pqr3stu8vwx" && l2 == "a1b2c3d4e5f" && l3 == "treb7uchet"
    ensures var input := l0 + "\n" + (l1 + "\n" + (l2 + "\n" + l3));
      (forall l :: l in RustText.Lines(input) ==> HasDigit(l)) &&
      CalibrationValues(input) == Ok([12, 38, 15, 77]) &&
      Sum(CalibrationValues(input).value) == 142
  {
    FourLines(l0, l1, l2, l3);
    SampleValue0(l0);
    SampleValue1(l1);
    SampleValue2(l2);
    SampleValue3(l3);
    SampleOf(l0 + "\n" + (l1 + "\n" + (l2 + "\n" + l3)), l0, l1, l2, l3);
  }

  /** The sample's values, from its lines. */
  lemma SampleOf(input: string, l0: string, l1: string, l2: string, l3: string)
    requires RustText.Lines(input) == [l0, l1, l2, l3]
    requires HasDigit(l0) && HasDigit(l1) && HasDigit(l2) && HasDigit(l3)
    requires CalibrationValue(l0) == 12 && CalibrationValue(l1) == 38
    requires CalibrationValue(l2) == 15 && CalibrationValue(l3) == 77
    ensures forall l :: l in RustText.Lines(input) ==> HasDigit(l)
    ensures CalibrationValues(input) == Ok([12, 38, 15, 77])
    ensures Sum(CalibrationValues(input).value) == 142
  {
    var vs := CalibrationValues(input).value;
    assert vs == [12, 38, 15, 77];
    SumFour(12, 38, 15, 77);
  }

  lemma SumFour(a: int, b: int, c: int, d: int)
    ensures Sum([a, b, c, d]) == a + b + c + d
  {
    assert Sum([a]) == a by {
      assert [a][..0] == [];
    }
    assert Sum([a, b]) == a + b by {
      assert [a, b][..1] == [a];
    }
    assert Sum([a, b, c]) == a + b + c by {
      assert [a, b, c][..2] == [a, b];
    }
    assert [a, b, c, d][..3] == [a, b, c];
  }

  /** The word-spelled sample cannot be read by the digits-only code that
    * `get_calibration_values_with_words` repeats: its second line holds no
    * digit, so `day01.rs` panics there. */
  lemma WordSampleHasNoDigit()
    ensures !HasDigit("eightwothree")
  {
    assert forall i :: 0 <= i < |"eightwothree"| ==> !IsDigit("eightwothree"[i]);
  }
}
