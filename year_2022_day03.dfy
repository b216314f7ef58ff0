/**
 * 2022 day 3 (`year_2022/day03.rs`): each line is a rucksack whose two
 * halves are its compartments. The item type found in both halves is
 * ranked by its priority, and the answer is the sum of those priorities.
 */
module Year2022Day03 {
  import opened Wrappers
  import MachineInt
  import RustText

  const I32_MAX: int := MachineInt.I32_MAX

  /** The first character of `first`, in order, that occurs somewhere in
    * `second`. */
  function FirstShared(first: string, second: string): (r: Option<char>)
    ensures r.None? <==> forall i :: 0 <= i < |first| ==> first[i] !in second
    ensures r.Some? ==> r.value in first && r.value in second
  {
    if first == [] then None
    else if first[0] in second then Some(first[0])
    else
      assert forall i :: 1 <= i < |first| ==> first[i] == first[1..][i - 1];
      FirstShared(first[1..], second)
  }

  /** No earlier character of `first` occurs in `second`. */
  lemma {:induction false} FirstSharedIsFirst(first: string, second: string)
    requires FirstShared(first, second).Some?
    ensures exists i ::
              0 <= i < |first| && first[i] == FirstShared(first, second).value &&
              forall j :: 0 <= j < i ==> first[j] !in second
  {
    if first[0] !in second {
      var rest := first[1..];
      FirstSharedIsFirst(rest, second);
      var i :| 0 <= i < |rest| && rest[i] == FirstShared(rest, second).value &&
        forall j :: 0 <= j < i ==> rest[j] !in second;
      assert forall j :: 1 <= j <= i ==> first[j] == rest[j - 1];
      assert first[i + 1] == rest[i];
    } else {
      assert first[0] == FirstShared(first, second).value;
    }
  }

  /** `get_duplicate_from_halves`, as a value: no answer for an empty line
    * or one of odd length, otherwise the first item of the first half that
    * the second half holds too. */
  function Duplicate(line: string): Option<char>
  {
    if |line| == 0 || |line| % 2 != 0 then None
    else FirstShared(line[..|line| / 2], line[|line| / 2..])
  }

  /** What `Duplicate` finds, in terms of the line itself. */
  lemma DuplicateMeaning(line: string)
    ensures Duplicate(line).Some? <==>
      |line| > 0 && |line| % 2 == 0 &&
      exists i :: 0 <= i < |line| / 2 && line[i] in line[|line| / 2..]
    ensures Duplicate(line).Some? ==>
      exists i :: 0 <= i < |line| / 2 && line[i] == Duplicate(line).value &&
        line[i] in line[|line| / 2..] &&
        forall j :: 0 <= j < i ==> line[j] !in line[|line| / 2..]
  {
    if |line| > 0 && |line| % 2 == 0 {
      var half := |line| / 2;
      assert forall i :: 0 <= i < half ==> line[..half][i] == line[i];
      if Duplicate(line).Some? {
        FirstSharedIsFirst(line[..half], line[half..]);
      }
    }
  }

  /** `get_duplicate_from_halves`: the scan over the first half. */
  method GetDuplicateFromHalves(line: string) returns (r: Option<char>)
    ensures r == Duplicate(line)
  {
    var len := |line|;
    if len == 0 || len % 2 != 0 {
      return None;
    }
    var first := line[..len / 2];
    var second := line[len / 2..];
    for i := 0 to |first|
      invariant FirstShared(first[i..], second) == FirstShared(first, second)
    {
      var c := first[i];
      assert first[i..][1..] == first[i + 1..];
      if c in second {
        return Some(c);
      }
    }
    assert first[|first|..] == [];
    return None;
  }

  /** `get_priority`: `a`…`z` rank 1…26, `A`…`Z` rank 27…52, anything else
    * is worth nothing. */
  function Priority(c: char): (p: int)
    ensures 0 <= p <= 52
    ensures 'a' <= c <= 'z' ==> 1 <= p <= 26
    ensures 'A' <= c <= 'Z' ==> 27 <= p <= 52
    ensures p == 0 <==> !RustText.IsAlphabetic(c)
  {
    if 'a' <= c <= 'z' then c as int - 96
    else if 'A' <= c <= 'Z' then c as int - 38
    else 0
  }

  /** Letters are ranked in alphabetical order, lower case first, so no two
    * letters share a priority. */
  lemma PriorityOrder(a: char, b: char)
    requires RustText.IsAlphabetic(a) && RustText.IsAlphabetic(b)
    ensures Priority(a) < Priority(b) <==>
      (('a' <= a <= 'z') == ('a' <= b <= 'z') && a < b) || ('a' <= a <= 'z' && 'A' <= b <= 'Z')
    ensures Priority(a) == Priority(b) ==> a == b
  {
  }

  /** The `priority` cases. */
  lemma PriorityCases()
    ensures Priority('p') == 16 && Priority('L') == 38 && Priority('P') == 42
    ensures Priority('v') == 22 && Priority('t') == 20 && Priority('s') == 19
  {
  }

  /** The shared item of every trimmed line. */
  function Found(lines: seq<string>): (ds: seq<Option<char>>)
    ensures |ds| == |lines|
    ensures forall i :: 0 <= i < |lines| ==> ds[i] == Duplicate(RustText.Trim(lines[i]))
  {
    seq(|lines|, i requires 0 <= i < |lines| => Duplicate(RustText.Trim(lines[i])))
  }

  /** The priorities of the items, or nothing as soon as one is missing. */
  function Total(ds: seq<Option<char>>): (r: Option<int>)
    ensures r.Some? ==> 0 <= r.value <= 52 * |ds|
  {
    if ds == [] then Some(0)
    else
      match Total(ds[..|ds| - 1])
      case None => None
      case Some(s) =>
        match ds[|ds| - 1]
        case None => None
        case Some(c) => Some(s + Priority(c))
  }

  /** `get_priority_sum`, as a value. */
  function PrioritySum(lines: seq<string>): (r: Option<int>)
    ensures r.Some? ==> 0 <= r.value <= 52 * |lines|
  {
    Total(Found(lines))
  }

  /** The total has a value exactly when no item is missing. */
  lemma {:induction false} TotalDefined(ds: seq<Option<char>>)
    ensures Total(ds).Some? <==> forall i :: 0 <= i < |ds| ==> ds[i].Some?
  {
    if ds != [] {
      var init := ds[..|ds| - 1];
      TotalDefined(init);
      assert forall i :: 0 <= i < |init| ==> init[i] == ds[i];
    }
  }

  /** The sum has a value exactly when every trimmed line has a shared
    * item. */
  lemma PrioritySumDefined(lines: seq<string>)
    ensures PrioritySum(lines).Some? <==>
      forall i :: 0 <= i < |lines| ==> Duplicate(RustText.Trim(lines[i])).Some?
  {
    TotalDefined(Found(lines));
  }

  /** A missing item spoils the total of every longer list. */
  lemma TotalStuck(ds: seq<Option<char>>, i: nat)
    requires i <= |ds| && Total(ds[..i]).None?
    ensures Total(ds).None?
  {
    TotalDefined(ds[..i]);
    var k :| 0 <= k < i && ds[..i][k].None?;
    TotalDefined(ds);
  }

  /** One more item adds its priority to the running sum. */
  lemma TotalStep(ds: seq<Option<char>>, i: nat)
    requires i < |ds| && Total(ds[..i]).Some?
    ensures Total(ds[..i + 1]) ==
      if ds[i].Some? then Some(Total(ds[..i]).value + Priority(ds[i].value)) else None
  {
    assert ds[..i + 1][..i] == ds[..i];
  }

  /** The running sums fit an `i32`: the `+=` does not overflow. */
  predicate NoOverflow(lines: seq<string>)
  {
    var ds := Found(lines);
    forall i :: 0 <= i <= |ds| && Total(ds[..i]).Some? ==> Total(ds[..i]).value <= I32_MAX
  }

  /** Fewer than `i32::MAX / 52` lines never overflow. */
  lemma ShortNoOverflow(lines: seq<string>)
    requires 52 * |lines| <= I32_MAX
    ensures NoOverflow(lines)
  {
    var ds := Found(lines);
    forall i | 0 <= i <= |ds| && Total(ds[..i]).Some?
      ensures Total(ds[..i]).value <= I32_MAX
    {
      assert |ds[..i]| == i;
    }
  }

  /** `get_priority_sum`. */
  method GetPrioritySum(input: string) returns (r: Option<int>)
    requires NoOverflow(RustText.Lines(input))
    ensures r == PrioritySum(RustText.Lines(input))
  {
    var lines := RustText.Lines(input);
    ghost var ds := Found(lines);
    var sum := 0;
    assert ds[..0] == [];
    for i := 0 to |lines|
      invariant Total(ds[..i]) == Some(sum)
    {
      var line := lines[i];
      var d := GetDuplicateFromHalves(RustText.Trim(line));
      assert d == ds[i];
      TotalStep(ds, i);
      match d {
        case Some(c) =>
          // The sum stays in range: a debug build would panic otherwise.
          assert sum + Priority(c) <= I32_MAX;
          sum := sum + Priority(c);
        case None =>
          TotalStuck(ds, i + 1);
          return None;
      }
    }
    assert ds[..|ds|] == ds;
    return Some(sum);
  }

  /** The first character of `first` that `second` holds is found. */
  lemma {:induction false} FirstSharedAt(first: string, second: string, i: nat)
    requires i < |first| && first[i] in second
    requires forall j :: 0 <= j < i ==> first[j] !in second
    ensures FirstShared(first, second) == Some(first[i])
  {
    if i > 0 {
      assert forall j :: 0 <= j < i - 1 ==> first[1..][j] == first[j + 1];
      FirstSharedAt(first[1..], second, i - 1);
    }
  }

  /** A rucksack written as its two compartments `a` and `b`. */
  lemma RucksackShares(a: string, b: string, i: nat)
    requires |a| == |b| > 0 && !RustText.IsWhitespace(a[0]) && !RustText.IsWhitespace(b[|b| - 1])
    requires i < |a| && a[i] in b && forall j :: 0 <= j < i ==> a[j] !in b
    ensures Duplicate(RustText.Trim(a + b)) == Some(a[i])
  {
    RustText.TrimKeeps(a + b);
    assert (a + b)[..|a|] == a && (a + b)[|a|..] == b;
    FirstSharedAt(a, b, i);
  }

  /** The six lines of the test input, each written as its two halves. */
  function SampleRucksacks(): seq<string>
  {
    [Rucksack0(), Rucksack1(), Rucksack2(), Rucksack3(), Rucksack4(), Rucksack5()]
  }

  function Rucksack0(): string { "vJrwpWtwJgWr" + "hcsFMMfFFhFp" }
  function Rucksack1(): string { "jqHRNqRjqzjGDLGL" + "rsFMfFZSrLrFZsSL" }
  function Rucksack2(): string { "PmmdzqPrV" + "vPwwTWBwg" }
  function Rucksack3(): string { "wMqvLMZHhHMvwLH" + "jbvcjnnSBnvTQFn" }
  function Rucksack4(): string { "ttgJtRGJ" + "QctTZtZT" }
  function Rucksack5(): string { "CrZsJsPPZsGz" + "wwsLwLmpwMDw" }

  /** Two halves free of line breaks make one line. */
  lemma LineOfHalves(a: string, b: string)
    requires '\n' !in a && '\n' !in b && b != "" && b[|b| - 1] != '\r'
    ensures RustText.IsLine(a + b)
  {
  }

  lemma SampleItem0()
    ensures RustText.IsLine(Rucksack0())
    ensures Duplicate(RustText.Trim(Rucksack0())) == Some('p')
  {
    LineOfHalves("vJrwpWtwJgWr", "hcsFMMfFFhFp");
    RucksackShares("vJrwpWtwJgWr", "hcsFMMfFFhFp", 4);
  }

  lemma SampleItem1()
    ensures RustText.IsLine(Rucksack1())
    ensures Duplicate(RustText.Trim(Rucksack1())) == Some('L')
  {
    LineOfHalves("jqHRNqRjqzjGDLGL", "rsFMfFZSrLrFZsSL");
    RucksackShares("jqHRNqRjqzjGDLGL", "rsFMfFZSrLrFZsSL", 13);
  }

  lemma SampleItem2()
    ensures RustText.IsLine(Rucksack2())
    ensures Duplicate(RustText.Trim(Rucksack2())) == Some('P')
  {
    LineOfHalves("PmmdzqPrV", "vPwwTWBwg");
    RucksackShares("PmmdzqPrV", "vPwwTWBwg", 0);
  }

  lemma SampleItem3()
    ensures RustText.IsLine(Rucksack3())
    ensures Duplicate(RustText.Trim(Rucksack3())) == Some('v')
  {
    LineOfHalves("wMqvLMZHhHMvwLH", "jbvcjnnSBnvTQFn");
    RucksackShares("wMqvLMZHhHMvwLH", "jbvcjnnSBnvTQFn", 3);
  }

  lemma SampleItem4()
    ensures RustText.IsLine(Rucksack4())
    ensures Duplicate(RustText.Trim(Rucksack4())) == Some('t')
  {
    LineOfHalves("ttgJtRGJ", "QctTZtZT");
    RucksackShares("ttgJtRGJ", "QctTZtZT", 0);
  }

  lemma SampleItem5()
    ensures RustText.IsLine(Rucksack5())
    ensures Duplicate(RustText.Trim(Rucksack5())) == Some('s')
  {
    LineOfHalves("CrZsJsPPZsGz", "wwsLwLmpwMDw");
    RucksackShares("CrZsJsPPZsGz", "wwsLwLmpwMDw", 3);
  }

  /** Six lines, each one a line of its own. */
  lemma LinesOfSix(r0: string, r1: string, r2: string, r3: string, r4: string, r5: string)
    requires RustText.IsLine(r0) && RustText.IsLine(r1) && RustText.IsLine(r2)
    requires RustText.IsLine(r3) && RustText.IsLine(r4) && RustText.IsLine(r5)
    ensures forall k :: 0 <= k < 6 ==> RustText.IsLine([r0, r1, r2, r3, r4, r5][k])
  {
  }

  /** Each line of the test input is a line of its own. */
  lemma SampleLines()
    ensures forall k :: 0 <= k < 6 ==> RustText.IsLine(SampleRucksacks()[k])
  {
    SampleItem0();
    SampleItem1();
    SampleItem2();
    SampleItem3();
    SampleItem4();
    SampleItem5();
    LinesOfSix(Rucksack0(), Rucksack1(), Rucksack2(), Rucksack3(), Rucksack4(), Rucksack5());
  }

  /** The `get_priority_sum` test: the lines of the test input sum to 157
    * and the running sum stays within an `i32`. */
  lemma SampleSum(input: string)
    requires input == RustText.Join(SampleRucksacks(), "\n")
    ensures NoOverflow(RustText.Lines(input)) && PrioritySum(RustText.Lines(input)) == Some(157)
  {
    assert RustText.Lines(input) == SampleRucksacks() by {
      SampleLines();
      RustText.LinesJoin(SampleRucksacks());
    }
    SampleItem0();
    SampleItem1();
    SampleItem2();
    SampleItem3();
    SampleItem4();
    SampleItem5();
    RowsSum(RustText.Lines(input));
  }

  /** Six lines whose items are those of the test input. */
  lemma RowsSum(lines: seq<string>)
    requires |lines| == 6
    requires Duplicate(RustText.Trim(lines[0])) == Some('p') && Duplicate(RustText.Trim(lines[1])) == Some('L')
    requires Duplicate(RustText.Trim(lines[2])) == Some('P') && Duplicate(RustText.Trim(lines[3])) == Some('v')
    requires Duplicate(RustText.Trim(lines[4])) == Some('t') && Duplicate(RustText.Trim(lines[5])) == Some('s')
    ensures NoOverflow(lines) && PrioritySum(lines) == Some(157)
  {
    ShortNoOverflow(lines);
    SampleTotal(Found(lines));
  }

  /** The priorities 16, 38, 42, 22, 20 and 19 of the test items add up to
    * 157. */
  lemma SampleTotal(ds: seq<Option<char>>)
    requires |ds| == 6 && ds[0] == Some('p') && ds[1] == Some('L') && ds[2] == Some('P')
    requires ds[3] == Some('v') && ds[4] == Some('t') && ds[5] == Some('s')
    ensures Total(ds) == Some(157)
  {
    PriorityCases();
    assert ds[..0] == [];
    TotalStep(ds, 0);
    TotalStep(ds, 1);
    TotalStep(ds, 2);
    TotalStep(ds, 3);
    TotalStep(ds, 4);
    TotalStep(ds, 5);
    assert ds[..6] == ds;
  }
}
