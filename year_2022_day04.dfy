/**
 * 2022 day 4 (`year_2022/day04.rs`): each line assigns two elves an
 * inclusive range of sections, written `a-b,c-d`. The answers count the
 * pairs where one range contains the other, and the pairs that overlap.
 */
module Year2022Day04 {
  import opened Wrappers
  import MachineInt
  import RustText

  const I32_MIN: int := MachineInt.I32_MIN
  const I32_MAX: int := MachineInt.I32_MAX

  /** `RangeInclusive<i32>`: `start..=end`, empty when `start > end`. */
  datatype Range = Range(start: int, end: int)

  /** `range.contains(&x)`. */
  predicate Contains(r: Range, x: int)
  {
    r.start <= x <= r.end
  }

  /** `is_range_contained`: both ends of one range lie in the other. */
  predicate IsRangeContained(first: Range, second: Range)
  {
    (Contains(first, second.start) && Contains(first, second.end)) ||
    (Contains(second, first.start) && Contains(second, first.end))
  }

  /** `is_range_overlapping`: some end of one range lies in the other. */
  predicate IsRangeOverlapping(first: Range, second: Range)
  {
    (Contains(first, second.start) || Contains(first, second.end)) ||
    (Contains(second, first.start) || Contains(second, first.end))
  }

  predicate NonEmpty(r: Range)
  {
    r.start <= r.end
  }

  /** Every section of `inner` is one of `outer`'s. */
  ghost predicate Within(inner: Range, outer: Range)
  {
    forall x :: Contains(inner, x) ==> Contains(outer, x)
  }

  /** For ranges that hold sections, the end-point test is set containment. */
  lemma ContainedMeaning(first: Range, second: Range)
    requires NonEmpty(first) && NonEmpty(second)
    ensures IsRangeContained(first, second) <==> Within(second, first) || Within(first, second)
  {
    if Within(second, first) {
      assert Contains(second, second.start) && Contains(second, second.end);
    }
    if Within(first, second) {
      assert Contains(first, first.start) && Contains(first, first.end);
    }
  }

  /** For ranges that hold sections, the end-point test is a shared
    * section. */
  lemma OverlappingMeaning(first: Range, second: Range)
    requires NonEmpty(first) && NonEmpty(second)
    ensures IsRangeOverlapping(first, second) <==> exists x :: Contains(first, x) && Contains(second, x)
  {
    var x := if first.start <= second.start then second.start else first.start;
    if IsRangeOverlapping(first, second) {
      assert Contains(first, x) && Contains(second, x);
    }
  }

  /** Neither test cares about the order of the pair, and containment is a
    * kind of overlap. */
  lemma RangeTestsSymmetric(first: Range, second: Range)
    ensures IsRangeContained(first, second) == IsRangeContained(second, first)
    ensures IsRangeOverlapping(first, second) == IsRangeOverlapping(second, first)
    ensures IsRangeContained(first, second) ==> IsRangeOverlapping(first, second)
  {
  }

  /** The `overlapping` and `contained` cases. */
  lemma RangeTestCases()
    ensures IsRangeOverlapping(Range(1, 6), Range(3, 6)) && IsRangeOverlapping(Range(1, 5), Range(3, 6))
    ensures IsRangeOverlapping(Range(3, 6), Range(1, 6)) && !IsRangeOverlapping(Range(1, 2), Range(3, 6))
    ensures IsRangeContained(Range(1, 6), Range(3, 6)) && IsRangeContained(Range(3, 6), Range(1, 6))
    ensures !IsRangeContained(Range(1, 5), Range(3, 6)) && !IsRangeContained(Range(1, 2), Range(3, 6))
  {
  }

  /** `entry.parse::<i32>()`. */
  function Parse(entry: string): Result<int, RustText.IntErrorKind>
  {
    RustText.ParseSigned(entry, I32_MIN, I32_MAX)
  }

  /** The values of a range's `-`-separated entries, or `None` once one of
    * them is no `i32`. */
  function EntryValues(entries: seq<string>): (r: Option<seq<int>>)
    ensures r.Some? ==> |r.value| == |entries|
  {
    if entries == [] then Some([])
    else
      match EntryValues(entries[..|entries| - 1])
      case None => None
      case Some(vs) =>
        match Parse(entries[|entries| - 1])
        case Err(_) => None
        case Ok(v) => Some(vs + [v])
  }

  /** What reading one `,`-separated part leads to. */
  datatype Part = BadEntry | ShortPart | Good(range: Range)

  /** A part: `None` for an entry that is no `i32`, a panic (`tmp[1]`) for
    * fewer than two entries, otherwise the range of the first two. */
  function ReadPart(part: string): Part
  {
    match EntryValues(RustText.Split(part, "-"))
    case None => BadEntry
    case Some(vs) => if |vs| < 2 then ShortPart else Good(Range(vs[0], vs[1]))
  }

  /** The ranges read from the parts, in order, until a part fails. */
  datatype Progress = Ranges(ranges: seq<Range>) | Failed | Panicked

  function ReadParts(parts: seq<string>): (r: Progress)
    ensures r.Ranges? ==> |r.ranges| == |parts|
  {
    if parts == [] then Ranges([])
    else
      match ReadParts(parts[..|parts| - 1])
      case Ranges(rs) =>
        (match ReadPart(parts[|parts| - 1])
         case BadEntry => Failed
         case ShortPart => Panicked
         case Good(r) => Ranges(rs + [r]))
      case Failed => Failed
      case Panicked => Panicked
  }

  /** What `parse_ranges` does with a line. */
  datatype Outcome = Pair(first: Range, second: Range) | Unparsed | Panic

  /** `parse_ranges`, as a value: the first two ranges of the trimmed line;
    * a panic (`ranges[1]`) when it has only one. */
  function ParsedRanges(line: string): Outcome
  {
    match ReadParts(RustText.Split(RustText.Trim(line), ","))
    case Ranges(rs) => if |rs| < 2 then Panic else Pair(rs[0], rs[1])
    case Failed => Unparsed
    case Panicked => Panic
  }

  /** The result `parse_ranges` returns when it does not panic. */
  function PairOf(o: Outcome): Option<(Range, Range)>
  {
    match o
    case Pair(a, b) => Some((a, b))
    case _ => None
  }

  lemma PrefixStep<T>(s: seq<T>, i: nat)
    requires i < |s|
    ensures s[..i + 1][..i] == s[..i] && s[..i + 1][i] == s[i]
  {
  }

  /** A failed or panicking part decides the outcome of the whole line. */
  lemma {:induction false} ReadPartsStuck(parts: seq<string>, i: nat)
    requires i <= |parts| && !ReadParts(parts[..i]).Ranges?
    ensures ReadParts(parts) == ReadParts(parts[..i])
    decreases |parts| - i
  {
    if i < |parts| {
      PrefixStep(parts, i);
      ReadPartsStuck(parts, i + 1);
    } else {
      assert parts[..i] == parts;
    }
  }

  /** The inner loop of `parse_ranges`: the values of one part's entries,
    * stopping at the first that is no `i32`. */
  method ParseEntries(part: string) returns (r: Option<seq<int>>)
    ensures r == EntryValues(RustText.Split(part, "-"))
  {
    var entries := RustText.Split(part, "-");
    var tmp: seq<int> := [];
    assert entries[..0] == [];
    for j := 0 to |entries|
      invariant EntryValues(entries[..j]) == Some(tmp)
    {
      var v := Parse(entries[j]);
      PrefixStep(entries, j);
      if v.Err? {
        EntryValuesStuck(entries, j + 1);
        return None;
      }
      tmp := tmp + [v.value];
    }
    assert entries[..|entries|] == entries;
    return Some(tmp);
  }

  /** What one more part does to the ranges read so far. */
  lemma PartStep(parts: seq<string>, i: nat, ranges: seq<Range>)
    requires i < |parts| && ReadParts(parts[..i]) == Ranges(ranges)
    ensures var vs := EntryValues(RustText.Split(parts[i], "-"));
      && (vs.None? ==> ReadParts(parts) == Failed)
      && (vs.Some? && |vs.value| < 2 ==> ReadParts(parts) == Panicked)
      && (vs.Some? && |vs.value| >= 2 ==> ReadParts(parts[..i + 1]) == Ranges(ranges + [Range(vs.value[0], vs.value[1])]))
  {
    PrefixStep(parts, i);
    if !ReadParts(parts[..i + 1]).Ranges? {
      ReadPartsStuck(parts, i + 1);
    }
  }

  /** `parse_ranges`. */
  method ParseRanges(line: string) returns (r: Option<(Range, Range)>)
    requires ParsedRanges(line) != Panic
    ensures r == PairOf(ParsedRanges(line))
  {
    var text := RustText.Trim(line);
    var parts := RustText.Split(text, ",");
    var ranges: seq<Range> := [];
    assert parts[..0] == [];
    for i := 0 to |parts|
      invariant ReadParts(parts[..i]) == Ranges(ranges)
    {
      var tmp := ParseEntries(parts[i]);
      PartStep(parts, i, ranges);
      if tmp.None? {
        return None;
      }
      if |tmp.value| < 2 {
        // `tmp[1]` panics here.
        assert false;
      }
      ranges := ranges + [Range(tmp.value[0], tmp.value[1])];
    }
    assert parts[..|parts|] == parts;
    if |ranges| < 2 {
      // `ranges[1]` panics here.
      assert false;
    }
    return Some((ranges[0], ranges[1]));
  }

  /** An entry that is no `i32` makes the whole part a bad one. */
  lemma {:induction false} EntryValuesStuck(entries: seq<string>, j: nat)
    requires j <= |entries| && EntryValues(entries[..j]).None?
    ensures EntryValues(entries).None?
    decreases |entries| - j
  {
    if j < |entries| {
      PrefixStep(entries, j);
      EntryValuesStuck(entries, j + 1);
    } else {
      assert entries[..j] == entries;
    }
  }

  /** `read` applied to every line. */
  function ReadLines(read: string -> Outcome, lines: seq<string>): (os: seq<Outcome>)
    ensures |os| == |lines|
    ensures forall i :: 0 <= i < |lines| ==> os[i] == read(lines[i])
  {
    seq(|lines|, i requires 0 <= i < |lines| => read(lines[i]))
  }

  /** The outcome of every line. */
  function Outcomes(lines: seq<string>): (os: seq<Outcome>)
    ensures |os| == |lines|
    ensures forall i :: 0 <= i < |lines| ==> os[i] == ParsedRanges(lines[i])
  {
    ReadLines(ParsedRanges, lines)
  }

  /** The test a count applies to each pair: `is_range_contained` or
    * `is_range_overlapping`. */
  type Test = (Range, Range) -> bool

  /** The number of pairs that pass `test`, or `None` once a line does not
    * parse. */
  function Count(test: Test, os: seq<Outcome>): (r: Option<int>)
    ensures r.Some? ==> 0 <= r.value <= |os|
  {
    if os == [] then Some(0)
    else
      match Count(test, os[..|os| - 1])
      case None => None
      case Some(n) =>
        match os[|os| - 1]
        case Pair(a, b) => Some(if test(a, b) then n + 1 else n)
        case _ => None
  }

  /** The count has a value exactly when every line parses. */
  lemma {:induction false} CountDefined(test: Test, os: seq<Outcome>)
    ensures Count(test, os).Some? <==> forall i :: 0 <= i < |os| ==> os[i].Pair?
  {
    if os != [] {
      var init := os[..|os| - 1];
      CountDefined(test, init);
      assert forall i :: 0 <= i < |init| ==> init[i] == os[i];
    }
  }

  /** A line that does not parse spoils the count of every longer list. */
  lemma CountStuck(test: Test, os: seq<Outcome>, i: nat)
    requires i <= |os| && Count(test, os[..i]).None?
    ensures Count(test, os).None?
  {
    CountDefined(test, os[..i]);
    var k :| 0 <= k < i && !os[..i][k].Pair?;
    CountDefined(test, os);
  }

  /** One more line adds one when its pair passes. */
  lemma CountStep(test: Test, os: seq<Outcome>, i: nat)
    requires i < |os| && Count(test, os[..i]).Some?
    ensures Count(test, os[..i + 1]) ==
      match os[i]
      case Pair(a, b) => Some(if test(a, b) then Count(test, os[..i]).value + 1 else Count(test, os[..i]).value)
      case _ => None
  {
    PrefixStep(os, i);
  }

  /** Every pair that is contained also overlaps, so there are never more of
    * the former. */
  lemma {:induction false} ContainedAtMostOverlapping(os: seq<Outcome>)
    ensures Count(IsRangeContained, os).Some? <==> Count(IsRangeOverlapping, os).Some?
    ensures Count(IsRangeContained, os).Some? ==>
      Count(IsRangeContained, os).value <= Count(IsRangeOverlapping, os).value
  {
    if os != [] {
      ContainedAtMostOverlapping(os[..|os| - 1]);
      var last := os[|os| - 1];
      if last.Pair? {
        RangeTestsSymmetric(last.first, last.second);
      }
    }
  }

  /** The index of the first line that does not parse, or `|os|`. */
  function Stop(os: seq<Outcome>): (k: nat)
    ensures k <= |os| && forall j :: 0 <= j < k ==> os[j].Pair?
    ensures k < |os| ==> !os[k].Pair?
  {
    if os == [] || !os[0].Pair? then 0
    else
      var k := Stop(os[1..]);
      assert forall j :: 1 <= j < k + 1 ==> os[j] == os[1..][j - 1];
      k + 1
  }

  /** The count up to the first line that does not parse. */
  function Reached(test: Test, os: seq<Outcome>): (n: int)
  {
    var k := Stop(os);
    CountDefined(test, os[..k]);
    Count(test, os[..k]).value
  }

  /** The line that stops the loop, if any, does not make `parse_ranges`
    * panic. */
  predicate NoPanic(os: seq<Outcome>)
  {
    Stop(os) < |os| ==> os[Stop(os)] != Panic
  }

  /** The count never exceeds what it reaches, so the `+= 1` does not
    * overflow when that fits an `i32`. */
  predicate NoOverflow(test: Test, os: seq<Outcome>)
  {
    Reached(test, os) <= I32_MAX
  }

  /** Counting further never lowers the count. */
  lemma {:induction false} CountGrows(test: Test, os: seq<Outcome>, i: nat, k: nat)
    requires i <= k <= |os| && Count(test, os[..k]).Some?
    ensures Count(test, os[..i]).Some? && Count(test, os[..i]).value <= Count(test, os[..k]).value
    decreases k - i
  {
    if i < k {
      assert os[..k][..k - 1] == os[..k - 1];
      CountGrows(test, os, i, k - 1);
    }
  }

  /** Up to `i32::MAX` lines never overflow. */
  lemma ShortNoOverflow(test: Test, os: seq<Outcome>)
    requires |os| <= I32_MAX
    ensures NoOverflow(test, os)
  {
    var k := Stop(os);
    CountDefined(test, os[..k]);
    assert |os[..k]| == k;
  }

  /** What the line after a prefix that parses does to the count. */
  lemma LineStep(test: Test, os: seq<Outcome>, i: nat)
    requires i < |os| && i <= Stop(os) && NoPanic(os) && NoOverflow(test, os)
    ensures Count(test, os[..i]).Some? && os[i] != Panic
    ensures os[i].Unparsed? ==> Count(test, os).None?
    ensures os[i].Pair? ==> i + 1 <= Stop(os)
    ensures os[i].Pair? ==>
              var n := Count(test, os[..i]).value;
              var m := if test(os[i].first, os[i].second) then n + 1 else n;
              Count(test, os[..i + 1]) == Some(m) && m <= I32_MAX
  {
    CountBelowReached(test, os, i);
    CountStep(test, os, i);
    if os[i].Unparsed? {
      CountStuck(test, os, i + 1);
    } else if os[i].Pair? {
      CountBelowReached(test, os, i + 1);
    }
  }

  /** Before the first line that does not parse, the count has a value no
    * larger than the one the loop reaches. */
  lemma CountBelowReached(test: Test, os: seq<Outcome>, i: nat)
    requires i <= Stop(os)
    ensures Count(test, os[..i]).Some? && Count(test, os[..i]).value <= Reached(test, os)
  {
    var k := Stop(os);
    CountDefined(test, os[..k]);
    CountGrows(test, os, i, k);
  }

  /** The loop both counts share, over `input.lines()`. */
  method CountPairs(test: Test, input: string) returns (r: Option<int>)
    requires NoPanic(Outcomes(RustText.Lines(input)))
    requires NoOverflow(test, Outcomes(RustText.Lines(input)))
    ensures r == Count(test, Outcomes(RustText.Lines(input)))
  {
    var lines := RustText.Lines(input);
    ghost var os := Outcomes(lines);
    var sum := 0;
    assert os[..0] == [];
    for i := 0 to |lines|
      invariant i <= Stop(os) && Count(test, os[..i]) == Some(sum)
    {
      LineStep(test, os, i);
      ghost var o := os[i];
      assert o == ParsedRanges(lines[i]);
      var pair := ParseRanges(lines[i]);
      assert pair == PairOf(o);
      if pair.None? {
        return None;
      }
      var (first, second) := pair.value;
      assert o == Pair(first, second);
      if test(first, second) {
        // The count stays in range: a debug build would panic otherwise.
        assert sum + 1 <= I32_MAX;
        sum := sum + 1;
      }
    }
    assert os[..|os|] == os;
    return Some(sum);
  }

  /** `get_contained_pair_count`. */
  method GetContainedPairCount(input: string) returns (r: Option<int>)
    requires NoPanic(Outcomes(RustText.Lines(input)))
    requires NoOverflow(IsRangeContained, Outcomes(RustText.Lines(input)))
    ensures r == Count(IsRangeContained, Outcomes(RustText.Lines(input)))
  {
    r := CountPairs(IsRangeContained, input);
  }

  /** `get_overlapping_pair_count`. */
  method GetOverlappingPairCount(input: string) returns (r: Option<int>)
    requires NoPanic(Outcomes(RustText.Lines(input)))
    requires NoOverflow(IsRangeOverlapping, Outcomes(RustText.Lines(input)))
    ensures r == Count(IsRangeOverlapping, Outcomes(RustText.Lines(input)))
  {
    r := CountPairs(IsRangeOverlapping, input);
  }

  /** The text of one line, `a-b,c-d`. */
  function Row(a: string, b: string, c: string, d: string): string
  {
    a + "-" + b + "," + (c + "-" + d)
  }

  /** Digits whose value is an `i32`. */
  predicate Number(s: string)
  {
    s != "" && RustText.AllDigits(s) && RustText.DecimalValue(s) <= I32_MAX
  }

  /** Two numbers joined by `-` read back as the range between them. */
  lemma ReadRange(a: string, b: string)
    requires Number(a) && Number(b)
    ensures ',' !in a + "-" + b
    ensures ReadPart(a + "-" + b) == Good(Range(RustText.DecimalValue(a), RustText.DecimalValue(b)))
  {
    RustText.DigitsLack(a, '-');
    RustText.DigitsLack(b, '-');
    RustText.DigitsLack(a, ',');
    RustText.DigitsLack(b, ',');
    RustText.SplitAroundOne(a, "-", b);
    RustText.ParseSignedDigits(a, I32_MIN, I32_MAX);
    RustText.ParseSignedDigits(b, I32_MIN, I32_MAX);
    EntryValuesTwo(a, b);
  }

  lemma EntryValuesTwo(a: string, b: string)
    requires Parse(a).Ok? && Parse(b).Ok?
    ensures EntryValues([a, b]) == Some([Parse(a).value, Parse(b).value])
  {
    var va := Parse(a).value;
    assert [a][..0] == [] && EntryValues([]) == Some([]);
    assert [] + [va] == [va];
    assert EntryValues([a]) == Some([va]);
    assert [a, b][..1] == [a] && [a, b][1] == b;
    assert [va] + [Parse(b).value] == [va, Parse(b).value];
  }

  lemma ReadPartsTwo(x: string, y: string)
    requires ReadPart(x).Good? && ReadPart(y).Good?
    ensures ReadParts([x, y]) == Ranges([ReadPart(x).range, ReadPart(y).range])
  {
    assert [x][..0] == [];
    assert ReadParts([x]) == Ranges([ReadPart(x).range]);
    assert [x, y][..1] == [x];
  }

  /** A row of four numbers reads back as its two ranges. */
  lemma ReadRow(a: string, b: string, c: string, d: string)
    requires Number(a) && Number(b) && Number(c) && Number(d)
    ensures ParsedRanges(Row(a, b, c, d)) ==
      Pair(Range(RustText.DecimalValue(a), RustText.DecimalValue(b)),
           Range(RustText.DecimalValue(c), RustText.DecimalValue(d)))
  {
    var x, y := a + "-" + b, c + "-" + d;
    ReadRange(a, b);
    ReadRange(c, d);
    assert Row(a, b, c, d) == x + "," + y;
    RustText.TrimKeeps(Row(a, b, c, d));
    RustText.SplitAroundOne(x, ",", y);
    ReadPartsTwo(x, y);
  }

  /** How a pair of ranges of non-negative sections is written. */
  function Format(first: Range, second: Range): string
    requires 0 <= first.start && 0 <= first.end && 0 <= second.start && 0 <= second.end
  {
    Row(RustText.Decimal(first.start), RustText.Decimal(first.end),
        RustText.Decimal(second.start), RustText.Decimal(second.end))
  }

  /** Writing a pair and parsing it back gives the pair. */
  lemma ParseRangesRoundTrip(first: Range, second: Range)
    requires 0 <= first.start <= I32_MAX && 0 <= first.end <= I32_MAX
    requires 0 <= second.start <= I32_MAX && 0 <= second.end <= I32_MAX
    ensures ParsedRanges(Format(first, second)) == Pair(first, second)
  {
    RustText.DecimalValueOfDecimal(first.start);
    RustText.DecimalValueOfDecimal(first.end);
    RustText.DecimalValueOfDecimal(second.start);
    RustText.DecimalValueOfDecimal(second.end);
    ReadRow(RustText.Decimal(first.start), RustText.Decimal(first.end),
            RustText.Decimal(second.start), RustText.Decimal(second.end));
  }

  /** A row of numbers is one line of text. */
  lemma RowIsLine(a: string, b: string, c: string, d: string)
    requires Number(a) && Number(b) && Number(c) && Number(d)
    ensures RustText.IsLine(Row(a, b, c, d))
  {
    RustText.DigitsLack(a, '\n');
    RustText.DigitsLack(b, '\n');
    RustText.DigitsLack(c, '\n');
    RustText.DigitsLack(d, '\n');
    var r := Row(a, b, c, d);
    assert r[|r| - 1] == d[|d| - 1];
  }

  /** One more parsed line adds one when its pair passes. */
  lemma CountSnoc(test: Test, os: seq<Outcome>, o: Outcome)
    requires Count(test, os).Some? && o.Pair?
    ensures Count(test, os + [o]) ==
      Some(if test(o.first, o.second) then Count(test, os).value + 1 else Count(test, os).value)
  {
    var s := os + [o];
    assert s[..|s| - 1] == os && s[|s| - 1] == o;
  }

  function Passes(test: Test, o: Outcome): int
    requires o.Pair?
  {
    if test(o.first, o.second) then 1 else 0
  }

  /** Three more parsed lines. */
  lemma CountThree(test: Test, os: seq<Outcome>, a: Outcome, b: Outcome, c: Outcome)
    requires Count(test, os).Some? && a.Pair? && b.Pair? && c.Pair?
    ensures Count(test, os + [a, b, c]) ==
      Some(Count(test, os).value + Passes(test, a) + Passes(test, b) + Passes(test, c))
  {
    CountSnoc(test, os, a);
    CountSnoc(test, os + [a], b);
    CountSnoc(test, os + [a] + [b], c);
    assert os + [a] + [b] + [c] == os + [a, b, c];
  }

  /** The count of six parsed lines. */
  lemma CountSix(test: Test, o0: Outcome, o1: Outcome, o2: Outcome, o3: Outcome, o4: Outcome, o5: Outcome)
    requires o0.Pair? && o1.Pair? && o2.Pair? && o3.Pair? && o4.Pair? && o5.Pair?
    ensures Count(test, [o0, o1, o2, o3, o4, o5]) ==
      Some(Passes(test, o0) + Passes(test, o1) + Passes(test, o2) +
           Passes(test, o3) + Passes(test, o4) + Passes(test, o5))
  {
    CountThree(test, [], o0, o1, o2);
    assert [] + [o0, o1, o2] == [o0, o1, o2];
    CountThree(test, [o0, o1, o2], o3, o4, o5);
    assert [o0, o1, o2] + [o3, o4, o5] == [o0, o1, o2, o3, o4, o5];
  }

  /** A sample row of one-digit numbers. */
  lemma SampleRow(r: string, a: string, b: string, c: string, d: string)
    requires |a| == 1 && |b| == 1 && |c| == 1 && |d| == 1
    requires RustText.IsDigit(a[0]) && RustText.IsDigit(b[0]) && RustText.IsDigit(c[0]) && RustText.IsDigit(d[0])
    requires r == Row(a, b, c, d)
    ensures RustText.IsLine(r)
    ensures ParsedRanges(r) ==
      Pair(Range(RustText.DigitValue(a[0]), RustText.DigitValue(b[0])),
           Range(RustText.DigitValue(c[0]), RustText.DigitValue(d[0])))
  {
    OneDigit(a);
    OneDigit(b);
    OneDigit(c);
    OneDigit(d);
    RowIsLine(a, b, c, d);
    ReadRow(a, b, c, d);
  }

  lemma OneDigit(s: string)
    requires |s| == 1 && RustText.IsDigit(s[0])
    ensures Number(s) && RustText.DecimalValue(s) == RustText.DigitValue(s[0])
  {
    assert s[..0] == [];
  }

  /** The sample's six lines. */
  lemma SampleLines(input: string, r0: string, r1: string, r2: string, r3: string, r4: string, r5: string)
    requires RustText.IsLine(r0) && RustText.IsLine(r1) && RustText.IsLine(r2)
    requires RustText.IsLine(r3) && RustText.IsLine(r4) && RustText.IsLine(r5)
    requires input == r0 + "\n" + (r1 + "\n" + (r2 + "\n" + (r3 + "\n" + (r4 + "\n" + r5))))
    ensures RustText.Lines(input) == [r0, r1, r2, r3, r4, r5]
  {
    var t4 := r4 + "\n" + r5;
    var t3 := r3 + "\n" + t4;
    var t2 := r2 + "\n" + t3;
    var t1 := r1 + "\n" + t2;
    RustText.LinesOfLine(r5);
    RustText.LinesCons(r4, r5);
    RustText.LinesCons(r3, t4);
    RustText.LinesCons(r2, t3);
    RustText.LinesCons(r1, t2);
    RustText.LinesCons(r0, t1);
    SixInOrder(r0, r1, r2, r3, r4, r5);
  }

  lemma SixInOrder<T>(a: T, b: T, c: T, d: T, e: T, f: T)
    ensures [a] + ([b] + ([c] + ([d] + ([e] + [f])))) == [a, b, c, d, e, f]
  {
  }

  /** The sample: 2 pairs where one range contains the other, 4 that
    * overlap, and no line that panics or overflows. */
  lemma SampleCounts(input: string)
    requires input ==
      Row("2", "4", "6", "8") + "\n" + (Row("2", "3", "4", "5") + "\n" + (Row("5", "7", "7", "9") + "\n" +
      (Row("2", "8", "3", "7") + "\n" + (Row("6", "6", "4", "6") + "\n" + Row("2", "6", "4", "8")))))
    ensures var os := Outcomes(RustText.Lines(input));
      NoPanic(os) && NoOverflow(IsRangeContained, os) && NoOverflow(IsRangeOverlapping, os)
    ensures Count(IsRangeContained, Outcomes(RustText.Lines(input))) == Some(2)
    ensures Count(IsRangeOverlapping, Outcomes(RustText.Lines(input))) == Some(4)
  {
    var r0, r1, r2 := Row("2", "4", "6", "8"), Row("2", "3", "4", "5"), Row("5", "7", "7", "9");
    var r3, r4, r5 := Row("2", "8", "3", "7"), Row("6", "6", "4", "6"), Row("2", "6", "4", "8");
    SampleRow0(r0);
    SampleRow1(r1);
    SampleRow2(r2);
    SampleRow3(r3);
    SampleRow4(r4);
    SampleRow5(r5);
    SampleLines(input, r0, r1, r2, r3, r4, r5);
    ReadSix(ParsedRanges, RustText.Lines(input), r0, r1, r2, r3, r4, r5);
    SampleTally(Outcomes(RustText.Lines(input)));
  }

  lemma SampleRow0(r: string)
    requires r == Row("2", "4", "6", "8")
    ensures RustText.IsLine(r) && ParsedRanges(r) == Pair(Range(2, 4), Range(6, 8))
  {
    SampleRow(r, "2", "4", "6", "8");
  }

  lemma SampleRow1(r: string)
    requires r == Row("2", "3", "4", "5")
    ensures RustText.IsLine(r) && ParsedRanges(r) == Pair(Range(2, 3), Range(4, 5))
  {
    SampleRow(r, "2", "3", "4", "5");
  }

  lemma SampleRow2(r: string)
    requires r == Row("5", "7", "7", "9")
    ensures RustText.IsLine(r) && ParsedRanges(r) == Pair(Range(5, 7), Range(7, 9))
  {
    SampleRow(r, "5", "7", "7", "9");
  }

  lemma SampleRow3(r: string)
    requires r == Row("2", "8", "3", "7")
    ensures RustText.IsLine(r) && ParsedRanges(r) == Pair(Range(2, 8), Range(3, 7))
  {
    SampleRow(r, "2", "8", "3", "7");
  }

  lemma SampleRow4(r: string)
    requires r == Row("6", "6", "4", "6")
    ensures RustText.IsLine(r) && ParsedRanges(r) == Pair(Range(6, 6), Range(4, 6))
  {
    SampleRow(r, "6", "6", "4", "6");
  }

  lemma SampleRow5(r: string)
    requires r == Row("2", "6", "4", "8")
    ensures RustText.IsLine(r) && ParsedRanges(r) == Pair(Range(2, 6), Range(4, 8))
  {
    SampleRow(r, "2", "6", "4", "8");
  }

  /** `read` applied to six lines. */
  lemma ReadSix(read: string -> Outcome, lines: seq<string>, r0: string, r1: string, r2: string,
                r3: string, r4: string, r5: string)
    requires lines == [r0, r1, r2, r3, r4, r5]
    ensures ReadLines(read, lines) == [read(r0), read(r1), read(r2), read(r3), read(r4), read(r5)]
  {
    var os := ReadLines(read, lines);
    assert os[0] == read(r0) && os[1] == read(r1) && os[2] == read(r2);
    assert os[3] == read(r3) && os[4] == read(r4) && os[5] == read(r5);
  }

  /** Counting the sample's pairs. */
  lemma SampleTally(os: seq<Outcome>)
    requires os == [Pair(Range(2, 4), Range(6, 8)), Pair(Range(2, 3), Range(4, 5)), Pair(Range(5, 7), Range(7, 9)),
                    Pair(Range(2, 8), Range(3, 7)), Pair(Range(6, 6), Range(4, 6)), Pair(Range(2, 6), Range(4, 8))]
    ensures NoPanic(os) && NoOverflow(IsRangeContained, os) && NoOverflow(IsRangeOverlapping, os)
    ensures Count(IsRangeContained, os) == Some(2)
    ensures Count(IsRangeOverlapping, os) == Some(4)
  {
    CountSix(IsRangeContained, os[0], os[1], os[2], os[3], os[4], os[5]);
    CountSix(IsRangeOverlapping, os[0], os[1], os[2], os[3], os[4], os[5]);
    assert os == [os[0], os[1], os[2], os[3], os[4], os[5]];
    ShortNoOverflow(IsRangeContained, os);
    ShortNoOverflow(IsRangeOverlapping, os);
  }
}
