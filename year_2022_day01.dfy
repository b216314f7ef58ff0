/**
 * 2022 day 1 (`year_2022/day01.rs`): the calories each elf carries, one
 * item per line, the elves' lists separated by empty lines. The answer is
 * the largest total carried by one elf, counting only the lists that an
 * empty line closes.
 */
module Year2022Day01 {
  import opened Wrappers
  import MachineInt
  import RustText

  type IntErrorKind = RustText.IntErrorKind

  const I32_MIN: int := MachineInt.I32_MIN
  const I32_MAX: int := MachineInt.I32_MAX

  /** `line.parse::<i32>()`. */
  function Parse(line: string): Result<int, IntErrorKind>
  {
    RustText.ParseSigned(line, I32_MIN, I32_MAX)
  }

  /** A line the loop gets past: empty, or an `i32`. */
  predicate Readable(line: string)
  {
    line == "" || Parse(line).Ok?
  }

  predicate AllReadable(lines: seq<string>)
  {
    forall i :: 0 <= i < |lines| ==> Readable(lines[i])
  }

  /** The index of the first line that is not readable, or `|lines|`. */
  function FirstBad(lines: seq<string>): (k: nat)
    ensures k <= |lines| && AllReadable(lines[..k])
    ensures k < |lines| ==> !Readable(lines[k])
    decreases |lines|
  {
    if lines == [] then 0
    else if !Readable(lines[0]) then 0
    else
      var k := FirstBad(lines[1..]);
      assert forall i :: 1 <= i < 1 + k ==> lines[i] == lines[1..][..k][i - 1];
      1 + k
  }

  /** The values of the lines, grouped between empty lines; the last group
    * is the one still open after the last line. */
  function Groups(lines: seq<string>): (gs: seq<seq<int>>)
    requires AllReadable(lines)
    ensures |gs| >= 1
  {
    if lines == [] then [[]]
    else
      var init := lines[..|lines| - 1];
      assert forall i :: 0 <= i < |init| ==> init[i] == lines[i];
      var gs := Groups(init);
      var last := lines[|lines| - 1];
      if last == "" then gs + [[]]
      else gs[..|gs| - 1] + [gs[|gs| - 1] + [Parse(last).value]]
  }

  function Sum(xs: seq<int>): int
  {
    if xs == [] then 0 else Sum(xs[..|xs| - 1]) + xs[|xs| - 1]
  }

  function Sums(gs: seq<seq<int>>): (r: seq<int>)
    ensures |r| == |gs| && forall i :: 0 <= i < |gs| ==> r[i] == Sum(gs[i])
  {
    seq(|gs|, i requires 0 <= i < |gs| => Sum(gs[i]))
  }

  /** The largest of `xs`, or 0 when that is larger (or `xs` is empty). */
  function MaxFrom0(xs: seq<int>): (m: int)
    ensures m >= 0 && forall i :: 0 <= i < |xs| ==> xs[i] <= m
    ensures m == 0 || exists i :: 0 <= i < |xs| && xs[i] == m
  {
    if xs == [] then 0
    else
      var m := MaxFrom0(xs[..|xs| - 1]);
      assert forall i :: 0 <= i < |xs| - 1 ==> xs[..|xs| - 1][i] == xs[i];
      if m < xs[|xs| - 1] then xs[|xs| - 1] else m
  }

  /** The total of the group still open after `lines`. */
  function Open(lines: seq<string>): int
    requires AllReadable(lines)
  {
    var gs := Groups(lines);
    Sum(gs[|gs| - 1])
  }

  /** The best total among the groups that empty lines have closed. */
  function Best(lines: seq<string>): int
    requires AllReadable(lines)
  {
    var gs := Groups(lines);
    MaxFrom0(Sums(gs[..|gs| - 1]))
  }

  /** What `get_highest_calories_from_text` computes from the lines: the
    * error of the first line that is not an `i32`, or the best closed total. */
  function Highest(lines: seq<string>): Result<int, IntErrorKind>
  {
    var k := FirstBad(lines);
    if k < |lines| then Err(Parse(lines[k]).error)
    else
      assert lines[..k] == lines;
      Ok(Best(lines))
  }

  /** Every running total before the first unreadable line fits an `i32`:
    * the `+=` does not overflow. */
  predicate NoOverflow(lines: seq<string>)
  {
    var k := FirstBad(lines);
    forall i :: 0 <= i <= k ==>
      AllReadable(lines[..i]) && I32_MIN <= Open(lines[..i]) <= I32_MAX
  }

  lemma PrefixReadable(lines: seq<string>, i: nat)
    requires i <= FirstBad(lines)
    ensures AllReadable(lines[..i])
  {
    var k := FirstBad(lines);
    assert forall j :: 0 <= j < i ==> lines[..i][j] == lines[..k][j];
  }

  /** An empty line closes the open group, which then competes for the best. */
  lemma StepEmpty(p: seq<string>)
    requires AllReadable(p)
    ensures AllReadable(p + [""])
    ensures Open(p + [""]) == 0
    ensures Best(p + [""]) == if Best(p) < Open(p) then Open(p) else Best(p)
  {
    var q := p + [""];
    assert q[..|q| - 1] == p;
    var gs := Groups(p);
    assert Groups(q) == gs + [[]];
    assert (gs + [[]])[..|gs|] == gs;
    var s := Sums(gs);
    assert s[..|s| - 1] == Sums(gs[..|gs| - 1]);
  }

  /** An item line adds its value to the open group and leaves the rest. */
  lemma StepItem(p: seq<string>, l: string)
    requires AllReadable(p) && l != "" && Parse(l).Ok?
    ensures AllReadable(p + [l])
    ensures Open(p + [l]) == Open(p) + Parse(l).value
    ensures Best(p + [l]) == Best(p)
  {
    var q := p + [l];
    assert q[..|q| - 1] == p;
    var gs := Groups(p);
    var last := gs[|gs| - 1] + [Parse(l).value];
    var gs' := gs[..|gs| - 1] + [last];
    assert Groups(q) == gs';
    assert gs'[..|gs'| - 1] == gs[..|gs| - 1];
    assert last[..|last| - 1] == gs[|gs| - 1];
  }

  /** `get_highest_calories_from_text`, over `calorie_str.lines()`. */
  method GetHighestCaloriesFromText(calories: string) returns (result: Result<int, IntErrorKind>)
    requires NoOverflow(RustText.Lines(calories))
    ensures result == Highest(RustText.Lines(calories))
    ensures result.Ok? ==> result.value >= 0
  {
    var lines := RustText.Lines(calories);
    var highest: int := 0;
    var current: int := 0;
    assert lines[..0] == [];
    for i := 0 to |lines|
      invariant i <= FirstBad(lines) && AllReadable(lines[..i])
      invariant current == Open(lines[..i]) && highest == Best(lines[..i])
    {
      var line := lines[i];
      if line == "" {
        LoopEmpty(lines, i);
        if highest < current {
          highest := current;
        }
        current := 0;
        continue;
      }
      match Parse(line)
      case Err(e) =>
        LoopError(lines, i);
        return Err(e);
      case Ok(v) =>
        LoopItem(lines, i, v);
        // The `+=` stays in range: a debug build would panic otherwise.
        current := current + v;
    }
    assert lines[..|lines|] == lines;
    HighestOk(lines);
    return Ok(highest);
  }

  /** The loop's empty-line step keeps its invariant. */
  lemma LoopEmpty(lines: seq<string>, i: nat)
    requires i < |lines| && i <= FirstBad(lines) && lines[i] == ""
    ensures i + 1 <= FirstBad(lines) && AllReadable(lines[..i]) && AllReadable(lines[..i + 1])
    ensures Open(lines[..i + 1]) == 0
    ensures Best(lines[..i + 1]) ==
      if Best(lines[..i]) < Open(lines[..i]) then Open(lines[..i]) else Best(lines[..i])
  {
    PrefixReadable(lines, i);
    TakeOneMore(lines, i);
    StepEmpty(lines[..i]);
  }

  /** The loop's item step keeps its invariant, and its `+=` stays in range. */
  lemma LoopItem(lines: seq<string>, i: nat, v: int)
    requires NoOverflow(lines)
    requires i < |lines| && i <= FirstBad(lines) && lines[i] != "" && Parse(lines[i]) == Ok(v)
    ensures i + 1 <= FirstBad(lines) && AllReadable(lines[..i]) && AllReadable(lines[..i + 1])
    ensures Open(lines[..i + 1]) == Open(lines[..i]) + v && Best(lines[..i + 1]) == Best(lines[..i])
    ensures I32_MIN <= Open(lines[..i]) + v <= I32_MAX
  {
    PrefixReadable(lines, i);
    TakeOneMore(lines, i);
    StepItem(lines[..i], lines[i]);
  }

  lemma TakeOneMore(lines: seq<string>, i: nat)
    requires i < |lines|
    ensures lines[..i + 1] == lines[..i] + [lines[i]]
  {
  }

  /** An item line that is not an `i32` is the first unreadable one, and
    * its error is the answer. */
  lemma LoopError(lines: seq<string>, i: nat)
    requires i < |lines| && i <= FirstBad(lines) && lines[i] != "" && Parse(lines[i]).Err?
    ensures Highest(lines) == Err(Parse(lines[i]).error)
  {
    FirstBadAt(lines, i);
  }

  /** An unreadable line no later than the first unreadable one is it. */
  lemma {:induction false} FirstBadAt(lines: seq<string>, i: nat)
    requires i < |lines| && i <= FirstBad(lines) && !Readable(lines[i])
    ensures FirstBad(lines) == i
  {
    if i > 0 {
      assert lines[1..][i - 1] == lines[i];
      FirstBadAt(lines[1..], i - 1);
    }
  }

  /** With every line readable, the answer is the best closed total. */
  lemma HighestOk(lines: seq<string>)
    requires FirstBad(lines) == |lines|
    ensures AllReadable(lines) && Highest(lines) == Ok(Best(lines))
  {
    assert lines[..FirstBad(lines)] == lines;
  }

  /** `Best` is the largest closed total, and 0 when no group was closed or
    * every closed total is negative. */
  lemma BestMeaning(lines: seq<string>)
    requires AllReadable(lines)
    ensures var b := Best(lines); var gs := Groups(lines);
      b >= 0 &&
      (forall i :: 0 <= i < |gs| - 1 ==> Sum(gs[i]) <= b) &&
      (b == 0 || exists i :: 0 <= i < |gs| - 1 && Sum(gs[i]) == b)
  {
    ClosedMax(Groups(lines));
  }

  lemma ClosedMax(gs: seq<seq<int>>)
    requires |gs| >= 1
    ensures var b := MaxFrom0(Sums(gs[..|gs| - 1]));
      (forall i :: 0 <= i < |gs| - 1 ==> Sum(gs[i]) <= b) &&
      (b == 0 || exists i :: 0 <= i < |gs| - 1 && Sum(gs[i]) == b)
  {
    var s := Sums(gs[..|gs| - 1]);
    assert forall i :: 0 <= i < |gs| - 1 ==> s[i] == Sum(gs[i]);
  }

  /** The result, when there is one, is the largest closed total, and 0
    * when no group was closed or every closed total is negative. */
  lemma HighestMeaning(lines: seq<string>)
    requires Highest(lines).Ok?
    ensures AllReadable(lines)
    ensures var h := Highest(lines).value; var gs := Groups(lines);
      h >= 0 &&
      (forall i :: 0 <= i < |gs| - 1 ==> Sum(gs[i]) <= h) &&
      (h == 0 || exists i :: 0 <= i < |gs| - 1 && Sum(gs[i]) == h)
  {
    HighestOk(lines);
    BestMeaning(lines);
  }

  /** The answer is an error exactly when some line is neither empty nor an
    * `i32`, and then it is that of the first such line. */
  lemma HighestError(lines: seq<string>)
    ensures Highest(lines).Err? <==> exists i :: 0 <= i < |lines| && !Readable(lines[i])
    ensures Highest(lines).Err? ==>
      exists i :: 0 <= i < |lines| && AllReadable(lines[..i]) && !Readable(lines[i]) && Highest(lines) == Parse(lines[i])
  {
    var k := FirstBad(lines);
    if k == |lines| {
      assert lines[..k] == lines;
    }
  }

  /** The group still open at the end is never compared: more items after
    * the last empty line do not change the answer. */
  lemma LastGroupIgnored(lines: seq<string>, l: string)
    requires FirstBad(lines) == |lines| && l != "" && Parse(l).Ok?
    ensures Highest(lines + [l]) == Highest(lines)
  {
    HighestOk(lines);
    StepItem(lines, l);
    FirstBadAll(lines + [l]);
    HighestOk(lines + [l]);
  }

  /** `FirstBad` is the length exactly when every line is readable. */
  lemma FirstBadAll(lines: seq<string>)
    requires AllReadable(lines)
    ensures FirstBad(lines) == |lines|
  {
  }

  /** The loop as a fold over the lines still to come. */
  function Scan(lines: seq<string>, highest: int, current: int): Result<int, IntErrorKind>
    decreases |lines|
  {
    if lines == [] then Ok(highest)
    else if lines[0] == "" then Scan(lines[1..], if highest < current then current else highest, 0)
    else
      match Parse(lines[0])
      case Err(e) => Err(e)
      case Ok(v) => Scan(lines[1..], highest, current + v)
  }

  /** The fold from line `i` on, started from the state the first `i` lines
    * leave, ends at the answer. */
  lemma {:induction false} ScanFrom(lines: seq<string>, i: nat)
    requires i <= FirstBad(lines)
    ensures AllReadable(lines[..i])
    ensures Scan(lines[i..], Best(lines[..i]), Open(lines[..i])) == Highest(lines)
    decreases |lines| - i
  {
    PrefixReadable(lines, i);
    if i == |lines| {
      assert lines[..i] == lines;
    } else if i < FirstBad(lines) {
      ScanAdvance(lines, i);
      ScanFrom(lines, i + 1);
    } else {
      ScanStops(lines, i);
    }
  }

  /** A readable line moves the fold one line on, to the state one more
    * line leaves. */
  lemma ScanAdvance(lines: seq<string>, i: nat)
    requires i < FirstBad(lines)
    ensures AllReadable(lines[..i]) && AllReadable(lines[..i + 1])
    ensures Scan(lines[i..], Best(lines[..i]), Open(lines[..i])) ==
      Scan(lines[i + 1..], Best(lines[..i + 1]), Open(lines[..i + 1]))
  {
    var k := FirstBad(lines);
    PrefixReadable(lines, i);
    PrefixReadable(lines, i + 1);
    var line := lines[i];
    assert lines[i..] == [line] + lines[i + 1..];
    assert lines[..i + 1] == lines[..i] + [line];
    assert lines[..k][i] == line;
    ScanLine(lines[..i], line, lines[i + 1..]);
  }

  /** One readable line after the lines `p` moves the fold on to the state
    * `p + [l]` leaves. */
  lemma ScanLine(p: seq<string>, l: string, rest: seq<string>)
    requires AllReadable(p) && Readable(l)
    ensures AllReadable(p + [l])
    ensures Scan([l] + rest, Best(p), Open(p)) == Scan(rest, Best(p + [l]), Open(p + [l]))
  {
    if l == "" {
      StepEmpty(p);
      ScanEmpty(rest, Best(p), Open(p));
    } else {
      StepItem(p, l);
      ScanItem(l, Parse(l).value, rest, Best(p), Open(p));
    }
  }

  /** At the first unreadable line the fold stops with that line's error. */
  lemma ScanStops(lines: seq<string>, i: nat)
    requires i == FirstBad(lines) < |lines|
    ensures AllReadable(lines[..i])
    ensures Scan(lines[i..], Best(lines[..i]), Open(lines[..i])) == Highest(lines)
  {
    assert lines[i..][0] == lines[i];
  }

  lemma ScanMeaning(lines: seq<string>)
    ensures Scan(lines, 0, 0) == Highest(lines)
  {
    ScanFrom(lines, 0);
    assert lines[..0] == [] && lines[0..] == lines;
  }

  /** One step of the fold, for an item line. */
  lemma ScanItem(l: string, v: int, rest: seq<string>, highest: int, current: int)
    requires l != "" && Parse(l) == Ok(v)
    ensures Scan([l] + rest, highest, current) == Scan(rest, highest, current + v)
  {
    assert ([l] + rest)[1..] == rest;
  }

  /** The last step of the fold, for an item line. */
  lemma ScanLast(l: string, v: int, highest: int, current: int)
    requires l != "" && Parse(l) == Ok(v)
    ensures Scan([l], highest, current) == Ok(highest)
  {
    assert [l][1..] == [];
  }

  /** One step of the fold, for an empty line. */
  lemma ScanEmpty(rest: seq<string>, highest: int, current: int)
    ensures Scan([""] + rest, highest, current) == Scan(rest, if highest < current then current else highest, 0)
  {
    assert ([""] + rest)[1..] == rest;
  }

  /** A line of four digits is their decimal value. */
  lemma ParseFour(a: char, b: char, c: char, d: char)
    requires RustText.IsDigit(a) && RustText.IsDigit(b) && RustText.IsDigit(c) && RustText.IsDigit(d)
    ensures Parse([a, b, c, d]) == Ok(1000 * RustText.DigitValue(a) + 100 * RustText.DigitValue(b) +
      10 * RustText.DigitValue(c) + RustText.DigitValue(d))
  {
    RustText.DecimalValueFour(a, b, c, d);
    RustText.ParseSignedDigits([a, b, c, d], I32_MIN, I32_MAX);
  }

  /** A line of five digits is their decimal value. */
  lemma ParseFive(a: char, b: char, c: char, d: char, e: char)
    requires RustText.IsDigit(a) && RustText.IsDigit(b) && RustText.IsDigit(c) && RustText.IsDigit(d)
    requires RustText.IsDigit(e)
    ensures Parse([a, b, c, d, e]) == Ok(10000 * RustText.DigitValue(a) + 1000 * RustText.DigitValue(b) +
      100 * RustText.DigitValue(c) + 10 * RustText.DigitValue(d) + RustText.DigitValue(e))
  {
    RustText.DecimalValueFour(a, b, c, d);
    var s := [a, b, c, d, e];
    assert s[..4] == [a, b, c, d];
    assert RustText.AllDigits(s);
    RustText.ParseSignedDigits(s, I32_MIN, I32_MAX);
  }

  /** An item line holding `v`. */
  predicate Item(l: string, v: int)
  {
    l != "" && Parse(l) == Ok(v)
  }

  /** A line of a digit and three zeros is that digit's thousands. */
  lemma ParseThousands(l: string, d: char, v: int)
    requires RustText.IsDigit(d) && v == 1000 * RustText.DigitValue(d) && l == [d, '0', '0', '0']
    ensures Item(l, v)
  {
    ParseFour(d, '0', '0', '0');
  }

  /** The line "10000". */
  lemma ParseTenThousand(l: string)
    requires l == ['1', '0', '0', '0', '0']
    ensures Item(l, 10000)
  {
    ParseFive('1', '0', '0', '0', '0');
  }

  /** The loop over the sample's lines ends with 24000: the fourth elf's
    * total, the last elf's 10000 never being compared. The item lines are
    * given by what they parse to. */
  lemma SampleScan(lines: seq<string>, l0: string, l1: string, l2: string, l4: string, l6: string, l7: string, l9: string, l10: string, l11: string, l13: string)
    requires Item(l0, 1000) && Item(l1, 2000) && Item(l2, 3000) && Item(l4, 4000) && Item(l6, 5000)
    requires Item(l7, 6000) && Item(l9, 7000) && Item(l10, 8000) && Item(l11, 9000) && Item(l13, 10000)
    requires lines == [l0] + ([l1] + ([l2] + ([""] + ([l4] + ([""] + ([l6] + ([l7] + ([""] + ([l9] + ([l10] + ([l11] + ([""] + [l13]))))))))))))
    ensures Scan(lines, 0, 0) == Ok(24000)
  {
    var t13 := [l13];
    var t12 := [""] + t13;
    var t11 := [l11] + t12;
    var t10 := [l10] + t11;
    var t9 := [l9] + t10;
    var t8 := [""] + t9;
    var t7 := [l7] + t8;
    var t6 := [l6] + t7;
    var t5 := [""] + t6;
    var t4 := [l4] + t5;
    var t3 := [""] + t4;
    var t2 := [l2] + t3;
    var t1 := [l1] + t2;
    ScanItem(l0, 1000, t1, 0, 0);
    ScanItem(l1, 2000, t2, 0, 1000);
    ScanItem(l2, 3000, t3, 0, 3000);
    ScanEmpty(t4, 0, 6000);
    ScanItem(l4, 4000, t5, 6000, 0);
    ScanEmpty(t6, 6000, 4000);
    ScanItem(l6, 5000, t7, 6000, 0);
    ScanItem(l7, 6000, t8, 6000, 5000);
    ScanEmpty(t9, 6000, 11000);
    ScanItem(l9, 7000, t10, 11000, 0);
    ScanItem(l10, 8000, t11, 11000, 7000);
    ScanItem(l11, 9000, t12, 11000, 15000);
    ScanEmpty(t13, 11000, 24000);
    ScanLast(l13, 10000, 24000, 0);
  }

  /** The sample's item lines, each with the value it parses to. */
  lemma SampleItemsLow(lines: seq<string>)
    requires |lines| == 14 && lines[0] == "1000" && lines[1] == "2000" && lines[2] == "3000" && lines[4] == "4000" && lines[6] == "5000"
    ensures Item(lines[0], 1000) && Item(lines[1], 2000) && Item(lines[2], 3000) && Item(lines[4], 4000) && Item(lines[6], 5000)
  {
    ParseThousands(lines[0], '1', 1000);
    ParseThousands(lines[1], '2', 2000);
    ParseThousands(lines[2], '3', 3000);
    ParseThousands(lines[4], '4', 4000);
    ParseThousands(lines[6], '5', 5000);
  }

  lemma SampleItemsHigh(lines: seq<string>)
    requires |lines| == 14 && lines[7] == "6000" && lines[9] == "7000" && lines[10] == "8000" && lines[11] == "9000" && lines[13] == "10000"
    ensures Item(lines[7], 6000) && Item(lines[9], 7000) && Item(lines[10], 8000) && Item(lines[11], 9000) && Item(lines[13], 10000)
  {
    ParseThousands(lines[7], '6', 6000);
    ParseThousands(lines[9], '7', 7000);
    ParseThousands(lines[10], '8', 8000);
    ParseThousands(lines[11], '9', 9000);
    ParseTenThousand(lines[13]);
  }

  /** The sample's fourteen lines, one by one. */
  lemma SampleLinesAt(lines: seq<string>)
    requires lines == ["1000"] + (["2000"] + (["3000"] + ([""] + (["4000"] + ([""] + (["5000"] + (["6000"] + ([""] + (["7000"] + (["8000"] + (["9000"] + ([""] + ["10000"]))))))))))))
    ensures |lines| == 14
    ensures lines[0] == "1000" && lines[1] == "2000" && lines[2] == "3000" && lines[3] == "" && lines[4] == "4000" && lines[5] == "" && lines[6] == "5000"
    ensures lines[7] == "6000" && lines[8] == "" && lines[9] == "7000" && lines[10] == "8000" && lines[11] == "9000" && lines[12] == "" && lines[13] == "10000"
  {
  }

  /** The sample's text splits into its fourteen lines, the empty ones
    * included. */
  lemma SampleLines(calories: string)
    requires calories == "1000" + "\n" + ("2000" + "\n" + ("3000" + "\n" + ("\n" + ("4000" + "\n" + ("\n" + ("5000" + "\n" + ("6000" + "\n" + ("\n" + ("7000" + "\n" + ("8000" + "\n" + ("9000" + "\n" + ("\n" + "10000"))))))))))))
    ensures RustText.Lines(calories) == ["1000"] + (["2000"] + (["3000"] + ([""] + (["4000"] + ([""] + (["5000"] + (["6000"] + ([""] + (["7000"] + (["8000"] + (["9000"] + ([""] + ["10000"]))))))))))))
  {
    var r13 := "10000";
    RustText.LinesOfLine(r13);
    var r12 := "\n" + r13;
    RustText.LinesCons("", r13);
    assert "" + "\n" + r13 == r12;
    var r11 := "9000" + "\n" + r12;
    RustText.LinesCons("9000", r12);
    var r10 := "8000" + "\n" + r11;
    RustText.LinesCons("8000", r11);
    var r9 := "7000" + "\n" + r10;
    RustText.LinesCons("7000", r10);
    var r8 := "\n" + r9;
    RustText.LinesCons("", r9);
    assert "" + "\n" + r9 == r8;
    var r7 := "6000" + "\n" + r8;
    RustText.LinesCons("6000", r8);
    var r6 := "5000" + "\n" + r7;
    RustText.LinesCons("5000", r7);
    var r5 := "\n" + r6;
    RustText.LinesCons("", r6);
    assert "" + "\n" + r6 == r5;
    var r4 := "4000" + "\n" + r5;
    RustText.LinesCons("4000", r5);
    var r3 := "\n" + r4;
    RustText.LinesCons("", r4);
    assert "" + "\n" + r4 == r3;
    var r2 := "3000" + "\n" + r3;
    RustText.LinesCons("3000", r3);
    var r1 := "2000" + "\n" + r2;
    RustText.LinesCons("2000", r2);
    var r0 := "1000" + "\n" + r1;
    RustText.LinesCons("1000", r1);
  }

  /** The sample answer, 24000. */
  lemma Sample(calories: string)
    requires calories == "1000" + "\n" + ("2000" + "\n" + ("3000" + "\n" + ("\n" + ("4000" + "\n" + ("\n" + ("5000" + "\n" + ("6000" + "\n" + ("\n" + ("7000" + "\n" + ("8000" + "\n" + ("9000" + "\n" + ("\n" + "10000"))))))))))))
    ensures Highest(RustText.Lines(calories)) == Ok(24000)
  {
    var lines := RustText.Lines(calories);
    SampleLines(calories);
    SampleLinesAt(lines);
    SampleItemsLow(lines);
    SampleItemsHigh(lines);
    SampleScan(lines, lines[0], lines[1], lines[2], lines[4], lines[6], lines[7], lines[9], lines[10], lines[11], lines[13]);
    ScanMeaning(RustText.Lines(calories));
  }
}
