/**
 * 2024 day 2 (`year_2024/day02.rs`): reports of levels, one report per
 * line, levels separated by single spaces. A report is safe when its levels
 * all go down or all go up, by one to three at each step; with the problem
 * dampener it is also safe when dropping one level makes it so.
 */
module Year2024Day02 {
  import opened Wrappers
  import MachineInt
  import RustText

  const U32_MAX: nat := MachineInt.U32_MAX

  /** Every space-separated piece of the report is a `u32`: the `unwrap` in
    * `parse_report` does not panic. */
  predicate Parsable(report: string)
  {
    var pieces := RustText.Split(report, " ");
    forall i :: 0 <= i < |pieces| ==> RustText.ParseUnsigned(pieces[i], U32_MAX).Ok?
  }

  /** `parse_report`: the value of each piece between single spaces. Its
    * `Result` is always `Ok`, so the levels are returned directly. */
  function ParseReport(report: string): (r: seq<nat>)
    requires Parsable(report)
    ensures var pieces := RustText.Split(report, " ");
      |r| == |pieces| && forall i :: 0 <= i < |r| ==> RustText.ParseUnsigned(pieces[i], U32_MAX) == Ok(r[i])
  {
    var pieces := RustText.Split(report, " ");
    seq(|pieces|, i requires 0 <= i < |pieces| => RustText.ParseUnsigned(pieces[i], U32_MAX).value)
  }

  /** The levels written in decimal and joined by single spaces. */
  function Print(levels: seq<nat>): string
  {
    RustText.Join(seq(|levels|, i requires 0 <= i < |levels| => RustText.Decimal(levels[i])), " ")
  }

  /** Parsing gives back the levels of a printed report. */
  lemma ReportRoundTrip(levels: seq<nat>)
    requires |levels| >= 1 && forall i :: 0 <= i < |levels| ==> levels[i] <= U32_MAX
    ensures Parsable(Print(levels)) && ParseReport(Print(levels)) == levels
  {
    var parts := seq(|levels|, i requires 0 <= i < |levels| => RustText.Decimal(levels[i]));
    forall i | 0 <= i < |parts|
      ensures ' ' !in parts[i]
    {
      assert RustText.AllDigits(parts[i]);
    }
    RustText.JoinSplit(parts, ' ');
    forall i | 0 <= i < |parts|
      ensures RustText.ParseUnsigned(parts[i], U32_MAX) == Ok(levels[i])
    {
      RustText.ParseDecimal(levels[i], U32_MAX);
    }
  }

  /** The three tests the folds over adjacent pairs make. */
  datatype PairTest = Decreasing | Increasing | SmallGap

  predicate Holds(t: PairTest, one: nat, two: nat)
  {
    match t
    case Decreasing => one > two
    case Increasing => one < two
    case SmallGap => var diff := if one < two then two - one else one - two; 1 <= diff <= 3
  }

  /** `zip(items, items.skip(1)).fold(acc, |acc, (one, two)| acc && …)`
    * from pair `k` on. */
  predicate FoldPairs(t: PairTest, items: seq<nat>, k: nat, acc: bool)
    decreases |items| - k
  {
    if k + 1 >= |items| then acc else FoldPairs(t, items, k + 1, acc && Holds(t, items[k], items[k + 1]))
  }

  /** `report_is_safe`: at least one pair, all pairs going down or all
    * going up, and all gaps between one and three. */
  predicate ReportIsSafe(items: seq<nat>)
  {
    |items| >= 2 &&
    (FoldPairs(Decreasing, items, 0, true) || FoldPairs(Increasing, items, 0, true)) &&
    FoldPairs(SmallGap, items, 0, true)
  }

  /** A fold is true exactly when it starts true and every pair from `k`
    * on passes. */
  lemma {:induction false} FoldPairsMeaning(t: PairTest, items: seq<nat>, k: nat, acc: bool)
    ensures FoldPairs(t, items, k, acc) <==> acc && forall i :: k <= i < |items| - 1 ==> Holds(t, items[i], items[i + 1])
    decreases |items| - k
  {
    if k + 1 < |items| {
      FoldPairsMeaning(t, items, k + 1, acc && Holds(t, items[k], items[k + 1]));
    }
  }

  /** Safety stated directly on the levels. */
  predicate Safe(items: seq<nat>)
  {
    |items| >= 2 &&
    ((forall i :: 0 <= i < |items| - 1 ==> items[i] > items[i + 1]) ||
     (forall i :: 0 <= i < |items| - 1 ==> items[i] < items[i + 1])) &&
    forall i :: 0 <= i < |items| - 1 ==> 1 <= items[i] as int - items[i + 1] as int <= 3 || 1 <= items[i + 1] as int - items[i] as int <= 3
  }

  lemma ReportIsSafeMeaning(items: seq<nat>)
    ensures ReportIsSafe(items) <==> Safe(items)
  {
    FoldPairsMeaning(Decreasing, items, 0, true);
    FoldPairsMeaning(Increasing, items, 0, true);
    FoldPairsMeaning(SmallGap, items, 0, true);
  }

  /** Dropping the first level of a safe report of three or more levels
    * leaves it safe. */
  lemma SafeWithoutFirst(items: seq<nat>)
    requires ReportIsSafe(items) && |items| >= 3
    ensures ReportIsSafe(items[1..])
  {
    ReportIsSafeMeaning(items);
    ReportIsSafeMeaning(items[1..]);
    assert forall i :: 1 <= i < |items| ==> items[1..][i - 1] == items[i];
  }

  /** `is_safe`. */
  predicate IsSafe(report: string)
    requires Parsable(report)
  {
    ReportIsSafe(ParseReport(report))
  }

  /** `modified.remove(x)` on a copy of the levels. */
  function Remove(items: seq<nat>, x: nat): (r: seq<nat>)
    requires x < |items|
    ensures |r| == |items| - 1
    ensures forall i :: 0 <= i < |r| ==> r[i] == if i < x then items[i] else items[i + 1]
  {
    items[..x] + items[x + 1..]
  }

  /** Safe, or safe once one level is dropped. */
  predicate DampenedSafe(items: seq<nat>)
  {
    ReportIsSafe(items) || exists x :: 0 <= x < |items| && ReportIsSafe(Remove(items, x))
  }

  /** `is_safe_dampened`: safe as it is, or else the first position whose
    * removal makes the report safe. */
  method IsSafeDampened(report: string) returns (b: bool)
    requires Parsable(report)
    ensures b == DampenedSafe(ParseReport(report))
  {
    var digits := ParseReport(report);
    if ReportIsSafe(digits) {
      return true;
    }
    for x := 0 to |digits|
      invariant forall y :: 0 <= y < x ==> !ReportIsSafe(Remove(digits, y))
    {
      var modified := digits[..x] + digits[x + 1..];
      if ReportIsSafe(modified) {
        assert modified == Remove(digits, x);
        return true;
      }
    }
    return false;
  }

  /** The dampener does not help a report of two levels or fewer:
    * dropping one leaves at most one level, which is never safe. */
  lemma DampenedOfShort(items: seq<nat>)
    requires |items| <= 2
    ensures DampenedSafe(items) <==> ReportIsSafe(items)
  {
  }

  predicate AllParsable(lines: seq<string>)
  {
    forall i :: 0 <= i < |lines| ==> Parsable(lines[i])
  }

  /** The lines that are safe. */
  function CountSafe(lines: seq<string>): nat
    requires AllParsable(lines)
  {
    if |lines| == 0 then 0 else (if IsSafe(lines[0]) then 1 else 0) + CountSafe(lines[1..])
  }

  /** The lines that are safe with the dampener. */
  function CountDampened(lines: seq<string>): nat
    requires AllParsable(lines)
  {
    if |lines| == 0 then 0 else (if DampenedSafe(ParseReport(lines[0])) then 1 else 0) + CountDampened(lines[1..])
  }

  /** `count_safe_reports`: it panics unless every line parses. */
  function CountSafeReports(input: string): nat
    requires AllParsable(RustText.Lines(input))
  {
    CountSafe(RustText.Lines(input))
  }

  /** `count_safe_reports_dampened`. */
  function CountSafeReportsDampened(input: string): nat
    requires AllParsable(RustText.Lines(input))
  {
    CountDampened(RustText.Lines(input))
  }

  /** The dampener only adds reports: there are at least as many
    * dampened-safe lines as safe ones, and no more than lines. */
  lemma {:induction false} CountsOrdered(lines: seq<string>)
    requires AllParsable(lines)
    ensures CountSafe(lines) <= CountDampened(lines) <= |lines|
  {
    if |lines| > 0 {
      CountsOrdered(lines[1..]);
    }
  }

  /** The verdicts of the tests, on the levels of their six reports. */
  lemma SafeExamples()
    ensures ReportIsSafe([7, 6, 4, 2, 1]) && ReportIsSafe([1, 3, 6, 7, 9])
    ensures !ReportIsSafe([1, 2, 7, 8, 9]) && !ReportIsSafe([9, 7, 6, 2, 1])
    ensures !ReportIsSafe([1, 3, 2, 4, 5]) && !ReportIsSafe([8, 6, 4, 4, 1])
  {
  }

  /** With the dampener, dropping the 3 of `1 3 2 4 5` or one 4 of
    * `8 6 4 4 1` makes them safe. */
  lemma DampenedExamples()
    ensures DampenedSafe([1, 3, 2, 4, 5]) && DampenedSafe([8, 6, 4, 4, 1])
  {
    assert Remove([1, 3, 2, 4, 5], 1) == [1, 2, 4, 5];
    assert ReportIsSafe([1, 2, 4, 5]);
    assert Remove([8, 6, 4, 4, 1], 2) == [8, 6, 4, 1];
    assert ReportIsSafe([8, 6, 4, 1]);
  }

  /** `1 2 7 8 9` stays unsafe with the dampener: every way of dropping a
    * level keeps a gap above three. */
  lemma IncreasingTooFast(items: seq<nat>)
    requires items == [1, 2, 7, 8, 9]
    ensures !DampenedSafe(items)
  {
    ReportIsSafeMeaning(items);
    assert items[2] as int - items[1] as int == 5;
    forall x | 0 <= x < |items|
      ensures !ReportIsSafe(Remove(items, x))
    {
      var r := Remove(items, x);
      if x <= 1 {
        assert r[1] as int - r[0] as int >= 5;
      } else {
        assert r[2] as int - r[1] as int >= 5;
      }
      ReportIsSafeMeaning(r);
    }
  }

  /** `9 7 6 2 1` stays unsafe with the dampener. */
  lemma DecreasingTooFast(items: seq<nat>)
    requires items == [9, 7, 6, 2, 1]
    ensures !DampenedSafe(items)
  {
    ReportIsSafeMeaning(items);
    assert items[2] as int - items[3] as int == 4;
    forall x | 0 <= x < |items|
      ensures !ReportIsSafe(Remove(items, x))
    {
      var r := Remove(items, x);
      if x <= 2 {
        assert r[1] as int - r[2] as int >= 4;
      } else {
        assert r[2] as int - r[3] as int >= 4;
      }
      ReportIsSafeMeaning(r);
    }
  }

  /** Five one-digit levels are printed as five digits between single
    * spaces. */
  lemma PrintFive(a: nat, b: nat, c: nat, d: nat, e: nat)
    requires a < 10 && b < 10 && c < 10 && d < 10 && e < 10
    ensures Print([a, b, c, d, e]) ==
      [RustText.DigitChar(a), ' ', RustText.DigitChar(b), ' ', RustText.DigitChar(c), ' ',
       RustText.DigitChar(d), ' ', RustText.DigitChar(e)]
  {
    var da, db, dc, dd, de := [RustText.DigitChar(a)], [RustText.DigitChar(b)], [RustText.DigitChar(c)],
      [RustText.DigitChar(d)], [RustText.DigitChar(e)];
    var parts := seq(5, i requires 0 <= i < 5 => RustText.Decimal([a, b, c, d, e][i]));
    assert parts == [da, db, dc, dd, de];
    var p1, p2, p3, p4 := [db, dc, dd, de], [dc, dd, de], [dd, de], [de];
    assert parts[1..] == p1 && p1[1..] == p2 && p2[1..] == p3 && p3[1..] == p4;
    assert RustText.Join(p4, " ") == de;
    assert RustText.Join(p3, " ") == dd + " " + de;
    assert RustText.Join(p2, " ") == dc + " " + dd + " " + de;
    assert RustText.Join(p1, " ") == db + " " + dc + " " + dd + " " + de;
  }

  /** A line of five one-digit levels, as the tests write them. */
  lemma ParseFive(line: string, a: nat, b: nat, c: nat, d: nat, e: nat)
    requires a < 10 && b < 10 && c < 10 && d < 10 && e < 10
    requires line == [RustText.DigitChar(a), ' ', RustText.DigitChar(b), ' ', RustText.DigitChar(c), ' ',
                      RustText.DigitChar(d), ' ', RustText.DigitChar(e)]
    ensures Parsable(line) && ParseReport(line) == [a, b, c, d, e]
  {
    PrintFive(a, b, c, d, e);
    ReportRoundTrip([a, b, c, d, e]);
  }

  /** The verdicts of the six sample lines, read from their text. */
  lemma LineVerdict(line: string, a: nat, b: nat, c: nat, d: nat, e: nat)
    requires a < 10 && b < 10 && c < 10 && d < 10 && e < 10
    requires line == [RustText.DigitChar(a), ' ', RustText.DigitChar(b), ' ', RustText.DigitChar(c), ' ',
                      RustText.DigitChar(d), ' ', RustText.DigitChar(e)]
    ensures Parsable(line)
    ensures IsSafe(line) == ReportIsSafe([a, b, c, d, e])
    ensures DampenedSafe(ParseReport(line)) == DampenedSafe([a, b, c, d, e])
  {
    ParseFive(line, a, b, c, d, e);
  }

  /** The sample of the tests, as its lines: two safe reports, four with the
    * dampener. */
  lemma SampleLines(l0: string, l1: string, l2: string, l3: string, l4: string, l5: string)
    requires l0 == "7 6 4 2 1" && l1 == "1 2 7 8 9" && l2 == "9 7 6 2 1"
    requires l3 == "1 3 2 4 5" && l4 == "8 6 4 4 1" && l5 == "1 3 6 7 9"
    ensures AllParsable([l0, l1, l2, l3, l4, l5])
    ensures CountSafe([l0, l1, l2, l3, l4, l5]) == 2 && CountDampened([l0, l1, l2, l3, l4, l5]) == 4
  {
    LineVerdict(l0, 7, 6, 4, 2, 1);
    LineVerdict(l1, 1, 2, 7, 8, 9);
    LineVerdict(l2, 9, 7, 6, 2, 1);
    LineVerdict(l3, 1, 3, 2, 4, 5);
    LineVerdict(l4, 8, 6, 4, 4, 1);
    LineVerdict(l5, 1, 3, 6, 7, 9);
    SafeExamples();
    DampenedExamples();
    IncreasingTooFast([1, 2, 7, 8, 9]);
    DecreasingTooFast([9, 7, 6, 2, 1]);
    CountsOfSix(l0, l1, l2, l3, l4, l5);
  }

  /** Counting a line in front of others. */
  lemma CountCons(l: string, rest: seq<string>)
    requires Parsable(l) && AllParsable(rest)
    ensures AllParsable([l] + rest)
    ensures CountSafe([l] + rest) == (if IsSafe(l) then 1 else 0) + CountSafe(rest)
    ensures CountDampened([l] + rest) == (if DampenedSafe(ParseReport(l)) then 1 else 0) + CountDampened(rest)
  {
    assert ([l] + rest)[1..] == rest;
  }

  lemma CountsOfSix(l0: string, l1: string, l2: string, l3: string, l4: string, l5: string)
    requires Parsable(l0) && Parsable(l1) && Parsable(l2) && Parsable(l3) && Parsable(l4) && Parsable(l5)
    ensures AllParsable([l0, l1, l2, l3, l4, l5])
    ensures CountSafe([l0, l1, l2, l3, l4, l5]) ==
      (if IsSafe(l0) then 1 else 0) + (if IsSafe(l1) then 1 else 0) + (if IsSafe(l2) then 1 else 0) +
      (if IsSafe(l3) then 1 else 0) + (if IsSafe(l4) then 1 else 0) + (if IsSafe(l5) then 1 else 0)
    ensures CountDampened([l0, l1, l2, l3, l4, l5]) ==
      (if DampenedSafe(ParseReport(l0)) then 1 else 0) + (if DampenedSafe(ParseReport(l1)) then 1 else 0) +
      (if DampenedSafe(ParseReport(l2)) then 1 else 0) + (if DampenedSafe(ParseReport(l3)) then 1 else 0) +
      (if DampenedSafe(ParseReport(l4)) then 1 else 0) + (if DampenedSafe(ParseReport(l5)) then 1 else 0)
  {
    var s5: seq<string> := [l5];
    CountCons(l5, []);
    assert [l5] + [] == s5;
    var s4 := [l4] + s5;
    CountCons(l4, s5);
    var s3 := [l3] + s4;
    CountCons(l3, s4);
    var s2 := [l2] + s3;
    CountCons(l2, s3);
    var s1 := [l1] + s2;
    CountCons(l1, s2);
    CountCons(l0, s1);
    assert [l0] + s1 == [l0, l1, l2, l3, l4, l5];
  }

  /** The test input, read by lines: two safe reports, four with the
    * dampener. */
  lemma SampleCounts(input: string)
    requires input == "7 6 4 2 1" + "\n" + "1 2 7 8 9" + "\n" + "9 7 6 2 1" + "\n" +
      "1 3 2 4 5" + "\n" + "8 6 4 4 1" + "\n" + "1 3 6 7 9"
    ensures AllParsable(RustText.Lines(input))
    ensures CountSafeReports(input) == 2 && CountSafeReportsDampened(input) == 4
  {
    var l0, l1, l2, l3, l4, l5 := "7 6 4 2 1", "1 2 7 8 9", "9 7 6 2 1", "1 3 2 4 5", "8 6 4 4 1", "1 3 6 7 9";
    RustText.JoinSix(l0, l1, l2, l3, l4, l5);
    RustText.LinesJoin([l0, l1, l2, l3, l4, l5]);
    SampleLines(l0, l1, l2, l3, l4, l5);
  }
}
