/**
 * 2024 day 1 (`year_2024/day01.rs`): two lists of location ids, one pair
 * per line separated by three spaces. The difference of the lists pairs
 * their sorted values; the similarity score weighs each left value by how
 * often it occurs on the right.
 */
module Year2024Day01 {
  import opened Wrappers
  import MachineInt
  import RustText

  const U32_MAX: nat := MachineInt.U32_MAX
  const SEPARATOR: string := "   "

  /** `s.parse::<u32>()`. */
  function ParseU32(s: string): Result<nat, RustText.IntErrorKind>
  {
    RustText.ParseUnsigned(s, U32_MAX)
  }

  /** The line does not make `expect` panic: either its first value fails
    * to parse, or a second piece follows the separator. */
  predicate LineDefined(line: string)
  {
    var pieces := RustText.Split(line, SEPARATOR);
    ParseU32(pieces[0]).Err? || |pieces| >= 2
  }

  /** The lines up to the first failing one do not panic. */
  predicate ParseDefined(lines: seq<string>)
    decreases |lines|, 0
  {
    |lines| == 0 ||
    (ParseDefined(lines[..|lines| - 1]) &&
     (ParseLists(lines[..|lines| - 1]).Ok? ==> LineDefined(lines[|lines| - 1])))
  }

  /** What `parse_lists` returns for its lines: the left and the right value
    * of every line, or the first parse error, left value before right. */
  function ParseLists(lines: seq<string>): (r: Result<(seq<nat>, seq<nat>), RustText.IntErrorKind>)
    requires ParseDefined(lines)
    ensures r.Ok? ==> |r.value.0| == |lines| && |r.value.1| == |lines|
    decreases |lines|, 1
  {
    if |lines| == 0 then Ok(([], []))
    else
      match ParseLists(lines[..|lines| - 1])
      case Err(e) => Err(e)
      case Ok((left, right)) =>
        var pieces := RustText.Split(lines[|lines| - 1], SEPARATOR);
        match ParseU32(pieces[0])
        case Err(e) => Err(e)
        case Ok(l) =>
          match ParseU32(pieces[1])
          case Err(e) => Err(e)
          case Ok(r) => Ok((left + [l], right + [r]))
  }

  /** Once a line fails, the whole parse fails with its error. */
  lemma {:induction false} ErrorPersists(lines: seq<string>, n: nat)
    requires n <= |lines| && ParseDefined(lines)
    ensures ParseDefined(lines[..n])
    ensures ParseLists(lines[..n]).Err? ==> ParseLists(lines) == ParseLists(lines[..n])
    decreases |lines| - n
  {
    if n < |lines| {
      var pre := lines[..|lines| - 1];
      assert pre[..n] == lines[..n];
      ErrorPersists(pre, n);
    } else {
      assert lines[..n] == lines;
    }
  }

  /** `parse_lists`: one loop over the lines that pushes the first piece's
    * value on the left list and the second's on the right. */
  method ParseListsOf(input: string) returns (r: Result<(seq<nat>, seq<nat>), RustText.IntErrorKind>)
    requires ParseDefined(RustText.Lines(input))
    ensures r == ParseLists(RustText.Lines(input))
  {
    var lines := RustText.Lines(input);
    var left: seq<nat> := [];
    var right: seq<nat> := [];
    for i := 0 to |lines|
      invariant ParseDefined(lines[..i]) && ParseLists(lines[..i]) == Ok((left, right))
    {
      ParseStep(lines, i, left, right);
      var split := RustText.Split(lines[i], SEPARATOR);
      var l := ParseU32(split[0]);
      if l.Err? {
        return Err(l.error);
      }
      left := left + [l.value];
      var v := ParseU32(split[1]);
      if v.Err? {
        return Err(v.error);
      }
      right := right + [v.value];
    }
    assert lines[..|lines|] == lines;
    return Ok((left, right));
  }

  /** The loop's step at line `i`: a failing piece is the whole parse's
    * error, and otherwise both values join their lists. */
  lemma ParseStep(lines: seq<string>, i: nat, left: seq<nat>, right: seq<nat>)
    requires i < |lines| && ParseDefined(lines)
    requires ParseDefined(lines[..i]) && ParseLists(lines[..i]) == Ok((left, right))
    ensures var pieces := RustText.Split(lines[i], SEPARATOR);
      |pieces| > 0 &&
      (ParseU32(pieces[0]).Err? ==> ParseLists(lines) == Err(ParseU32(pieces[0]).error)) &&
      (ParseU32(pieces[0]).Ok? ==>
        (|pieces| >= 2 &&
         (ParseU32(pieces[1]).Err? ==> ParseLists(lines) == Err(ParseU32(pieces[1]).error)) &&
         (ParseU32(pieces[1]).Ok? ==>
           (ParseDefined(lines[..i + 1]) &&
            ParseLists(lines[..i + 1]) == Ok((left + [ParseU32(pieces[0]).value], right + [ParseU32(pieces[1]).value]))))))
  {
    ErrorPersists(lines, i + 1);
    assert lines[..i + 1][..i] == lines[..i];
  }

  /** A line of the puzzle: both values in decimal, three spaces apart. */
  function PairLine(l: nat, r: nat): string
  {
    RustText.Decimal(l) + SEPARATOR + RustText.Decimal(r)
  }

  function PairLines(left: seq<nat>, right: seq<nat>): (lines: seq<string>)
    requires |left| == |right|
    ensures |lines| == |left|
  {
    seq(|left|, i requires 0 <= i < |left| => PairLine(left[i], right[i]))
  }

  /** One printed line splits back into its two decimals, which parse. */
  lemma PairLineRoundTrip(l: nat, r: nat)
    requires l <= U32_MAX && r <= U32_MAX
    ensures var pieces := RustText.Split(PairLine(l, r), SEPARATOR);
      |pieces| == 2 && ParseU32(pieces[0]) == Ok(l) && ParseU32(pieces[1]) == Ok(r)
  {
    var a, b := RustText.Decimal(l), RustText.Decimal(r);
    assert RustText.AllDigits(a) && RustText.AllDigits(b);
    RustText.SplitAroundOne(a, SEPARATOR, b);
    RustText.ParseDecimal(l, U32_MAX);
    RustText.ParseDecimal(r, U32_MAX);
  }

  /** Parsing the printed pairs gives back both lists. */
  lemma {:induction false} ParseListsRoundTrip(left: seq<nat>, right: seq<nat>)
    requires |left| == |right|
    requires forall i :: 0 <= i < |left| ==> left[i] <= U32_MAX && right[i] <= U32_MAX
    ensures ParseDefined(PairLines(left, right)) && ParseLists(PairLines(left, right)) == Ok((left, right))
  {
    if |left| > 0 {
      var n := |left| - 1;
      var lines := PairLines(left, right);
      ParseListsRoundTrip(left[..n], right[..n]);
      PairLinesSnoc(left, right);
      PairLineRoundTrip(left[n], right[n]);
      ParseListsSnoc(lines[..n], lines[n], left[..n], right[..n], left[n], right[n]);
      InitLast(lines);
      InitLast(left);
      InitLast(right);
    }
  }

  /** A non-empty sequence is its initial part and its last element. */
  lemma InitLast<T>(s: seq<T>)
    requires |s| > 0
    ensures s[..|s| - 1] + [s[|s| - 1]] == s
  {
  }

  /** The printed pairs of all but the last values, and the last line. */
  lemma PairLinesSnoc(left: seq<nat>, right: seq<nat>)
    requires |left| == |right| > 0
    ensures var n := |left| - 1; var lines := PairLines(left, right);
      lines[..n] == PairLines(left[..n], right[..n]) && lines[n] == PairLine(left[n], right[n])
  {
  }

  /** A line of two parsing pieces after lines that parse adds one value to
    * each list. */
  lemma ParseListsSnoc(lines: seq<string>, line: string, left: seq<nat>, right: seq<nat>, l: nat, r: nat)
    requires ParseDefined(lines) && ParseLists(lines) == Ok((left, right))
    requires var pieces := RustText.Split(line, SEPARATOR);
      |pieces| == 2 && ParseU32(pieces[0]) == Ok(l) && ParseU32(pieces[1]) == Ok(r)
    ensures ParseDefined(lines + [line]) && ParseLists(lines + [line]) == Ok((left + [l], right + [r]))
  {
    var q := lines + [line];
    assert q[..|q| - 1] == lines && q[|q| - 1] == line;
  }

  // Sorting

  predicate SortedAscending(s: seq<nat>)
  {
    forall i, j :: 0 <= i < j < |s| ==> s[i] <= s[j]
  }

  function Insert(x: nat, s: seq<nat>): seq<nat>
  {
    if |s| == 0 then [x]
    else if x <= s[0] then [x] + s
    else [s[0]] + Insert(x, s[1..])
  }

  /** `slice::sort` of the standard library: an insertion sort here, of
    * which only the result matters (`SortSound`). */
  function Sort(s: seq<nat>): seq<nat>
  {
    if |s| == 0 then [] else Insert(s[0], Sort(s[1..]))
  }

  lemma {:induction false} InsertPermutes(x: nat, s: seq<nat>)
    ensures multiset(Insert(x, s)) == multiset(s) + multiset{x}
  {
    if |s| > 0 && x > s[0] {
      InsertPermutes(x, s[1..]);
      assert Insert(x, s) == [s[0]] + Insert(x, s[1..]);
      assert multiset(Insert(x, s)) == multiset([s[0]]) + multiset(Insert(x, s[1..]));
      assert s == [s[0]] + s[1..];
      assert multiset(s) == multiset([s[0]]) + multiset(s[1..]);
    }
  }

  /** The head of an ascending list is its least value. */
  lemma HeadIsLeast(s: seq<nat>, v: nat)
    requires SortedAscending(s) && v in multiset(s)
    ensures |s| > 0 && s[0] <= v
  {
    assert v in s;
    var j :| 0 <= j < |s| && s[j] == v;
  }

  /** Inserting into an ascending list keeps it ascending. */
  lemma {:induction false} InsertSorted(x: nat, s: seq<nat>)
    requires SortedAscending(s)
    ensures SortedAscending(Insert(x, s))
  {
    if |s| > 0 && x > s[0] {
      InsertSorted(x, s[1..]);
      InsertPermutes(x, s[1..]);
      var t := Insert(x, s[1..]);
      forall i | 0 <= i < |t|
        ensures s[0] <= t[i]
      {
        assert t[i] in multiset(t);
        if t[i] != x {
          assert t[i] in multiset(s[1..]);
          assert t[i] in s[1..];
        }
      }
    }
  }

  /** The sorted list is the ascending permutation of the list. */
  lemma {:induction false} SortSound(s: seq<nat>)
    ensures SortedAscending(Sort(s)) && multiset(Sort(s)) == multiset(s)
  {
    if |s| > 0 {
      SortSound(s[1..]);
      InsertSorted(s[0], Sort(s[1..]));
      InsertPermutes(s[0], Sort(s[1..]));
      assert s == [s[0]] + s[1..];
    }
  }

  /** There is only one ascending order of a multiset of values. */
  lemma {:induction false} SortedUnique(a: seq<nat>, b: seq<nat>)
    requires SortedAscending(a) && SortedAscending(b) && multiset(a) == multiset(b)
    ensures a == b
  {
    if |a| > 0 {
      SameHeads(a, b);
      SortedUnique(a[1..], b[1..]);
      ConsEqual(a, b);
    } else {
      assert |multiset(b)| == 0;
      assert |b| == 0;
    }
  }

  /** Two nonempty ascending lists of the same values start alike, and
    * their tails hold the same values in ascending order. */
  lemma SameHeads(a: seq<nat>, b: seq<nat>)
    requires SortedAscending(a) && SortedAscending(b) && multiset(a) == multiset(b) && |a| > 0
    ensures |b| > 0 && a[0] == b[0]
    ensures multiset(a[1..]) == multiset(b[1..]) && SortedAscending(a[1..]) && SortedAscending(b[1..])
  {
    HeadIsLeast(b, a[0]);
    HeadIsLeast(a, b[0]);
    MultisetTail(a);
    MultisetTail(b);
    TailSorted(a);
    TailSorted(b);
  }

  lemma ConsEqual(a: seq<nat>, b: seq<nat>)
    requires |a| > 0 && |b| > 0 && a[0] == b[0] && a[1..] == b[1..]
    ensures a == b
  {
    assert a == [a[0]] + a[1..] && b == [b[0]] + b[1..];
  }

  lemma MultisetTail(s: seq<nat>)
    requires |s| > 0
    ensures multiset(s[1..]) == multiset(s) - multiset{s[0]}
  {
    assert s == [s[0]] + s[1..];
  }

  lemma TailSorted(s: seq<nat>)
    requires SortedAscending(s) && |s| > 0
    ensures SortedAscending(s[1..])
  {
    var t := s[1..];
    forall i, j | 0 <= i < j < |t|
      ensures t[i] <= t[j]
    {
      assert t[i] == s[i + 1] && t[j] == s[j + 1];
    }
  }

  // The list difference

  function AbsDiff(a: nat, b: nat): nat
  {
    if a < b then b - a else a - b
  }

  /** `zip(left, right).fold(0, |acc, (l, r)| acc + l.abs_diff(r))`. */
  function DiffSum(left: seq<nat>, right: seq<nat>): nat
  {
    if |left| == 0 || |right| == 0 then 0 else AbsDiff(left[0], right[0]) + DiffSum(left[1..], right[1..])
  }

  /** The difference of two lists: the gaps between their sorted values. */
  function Difference(left: seq<nat>, right: seq<nat>): nat
  {
    DiffSum(Sort(left), Sort(right))
  }

  /** The difference depends only on which values the lists hold, not on
    * their order. */
  lemma DifferenceIgnoresOrder(l1: seq<nat>, r1: seq<nat>, l2: seq<nat>, r2: seq<nat>)
    requires multiset(l1) == multiset(l2) && multiset(r1) == multiset(r2)
    ensures Difference(l1, r1) == Difference(l2, r2)
  {
    SortSound(l1);
    SortSound(l2);
    SortSound(r1);
    SortSound(r2);
    SortedUnique(Sort(l1), Sort(l2));
    SortedUnique(Sort(r1), Sort(r2));
  }

  /** The difference of a list and itself is 0. */
  lemma {:induction false} DiffSumSelf(s: seq<nat>)
    ensures DiffSum(s, s) == 0
  {
    if |s| > 0 {
      DiffSumSelf(s[1..]);
    }
  }

  /** Swapping the lists leaves their difference unchanged. */
  lemma {:induction false} DiffSumSymmetric(left: seq<nat>, right: seq<nat>)
    ensures DiffSum(left, right) == DiffSum(right, left)
  {
    if |left| > 0 && |right| > 0 {
      DiffSumSymmetric(left[1..], right[1..]);
    }
  }

  lemma DifferenceSymmetric(left: seq<nat>, right: seq<nat>)
    ensures Difference(left, right) == Difference(right, left)
  {
    DiffSumSymmetric(Sort(left), Sort(right));
  }

  // A debug build checks the `u32` arithmetic of both folds and panics on
  // overflow; `Panic` stands for that panic.

  /** How the two puzzle functions fail: the `Err` of `parse_lists`, or a
    * panic of their `u32` arithmetic. */
  datatype Failure = Unparsed(kind: RustText.IntErrorKind) | Panic

  /** `zip(..).fold(acc, |acc, (l, r)| acc + l.abs_diff(*r))` with checked
    * `u32` addition: `None` is the overflow panic. */
  function CheckedDiffSum(left: seq<nat>, right: seq<nat>, acc: nat): Option<nat>
  {
    if |left| == 0 || |right| == 0 then Some(acc)
    else if acc + AbsDiff(left[0], right[0]) > U32_MAX then None
    else CheckedDiffSum(left[1..], right[1..], acc + AbsDiff(left[0], right[0]))
  }

  /** The checked fold panics exactly when the whole sum leaves `u32`: the
    * partial sums only grow. */
  lemma {:induction false} CheckedDiffSumMeaning(left: seq<nat>, right: seq<nat>, acc: nat)
    requires acc <= U32_MAX
    ensures CheckedDiffSum(left, right, acc) ==
      if acc + DiffSum(left, right) <= U32_MAX then Some(acc + DiffSum(left, right)) else None
  {
    if |left| > 0 && |right| > 0 {
      var next := acc + AbsDiff(left[0], right[0]);
      if next <= U32_MAX {
        CheckedDiffSumMeaning(left[1..], right[1..], next);
      }
    }
  }

  /** What `get_list_difference` promises: the difference of the parsed
    * lists, or a panic when it does not fit `u32`. */
  function ListDifference(input: string): Result<nat, Failure>
    requires ParseDefined(RustText.Lines(input))
  {
    match ParseLists(RustText.Lines(input))
    case Err(e) => Err(Unparsed(e))
    case Ok((left, right)) =>
      if Difference(left, right) <= U32_MAX then Ok(Difference(left, right)) else Err(Panic)
  }

  /** `get_list_difference`: parse, sort both lists in place, add up the
    * gaps. */
  method GetListDifference(input: string) returns (r: Result<nat, Failure>)
    requires ParseDefined(RustText.Lines(input))
    ensures r == ListDifference(input)
    ensures r.Ok? ==> r.value <= U32_MAX
  {
    var lists := ParseListsOf(input);
    if lists.Err? {
      return Err(Unparsed(lists.error));
    }
    var (left, right) := lists.value;
    left := Sort(left);
    right := Sort(right);
    var sum := CheckedDiffSum(left, right, 0);
    CheckedDiffSumMeaning(left, right, 0);
    if sum.None? {
      return Err(Panic);
    }
    return Ok(sum.value);
  }

  // The similarity score

  /** `right.iter().filter(|r| *r == v).count()`. */
  function Count(s: seq<nat>, v: nat): nat
  {
    if |s| == 0 then 0 else (if s[0] == v then 1 else 0) + Count(s[1..], v)
  }

  /** `left.iter().fold(0, |acc, l| acc + l * count of l in right)`. */
  function Similarity(left: seq<nat>, right: seq<nat>): nat
  {
    if |left| == 0 then 0 else left[0] * Count(right, left[0]) + Similarity(left[1..], right)
  }

  lemma MulSucc(a: nat, c: nat)
    ensures a * (c + 1) == a * c + a
  {
  }

  /** Putting `b` in front of the right list adds `b` for each `b` on the
    * left. */
  lemma {:induction false} SimilarityConsRight(left: seq<nat>, b: nat, right: seq<nat>)
    ensures Similarity(left, [b] + right) == Similarity(left, right) + b * Count(left, b)
  {
    if |left| > 0 {
      var a := left[0];
      SimilarityConsRight(left[1..], b, right);
      assert ([b] + right)[1..] == right;
      if a == b {
        MulSucc(a, Count(right, a));
        MulSucc(b, Count(left[1..], b));
      }
    }
  }

  /** The score is symmetric: each equal pair of a left and a right value
    * counts that value once, whichever list is walked. */
  lemma {:induction false} SimilaritySymmetric(left: seq<nat>, right: seq<nat>)
    ensures Similarity(left, right) == Similarity(right, left)
  {
    if |right| > 0 {
      var b := right[0];
      assert right == [b] + right[1..];
      SimilarityConsRight(left, b, right[1..]);
      SimilaritySymmetric(left, right[1..]);
    } else {
      SimilarityEmptyRight(left);
    }
  }

  lemma {:induction false} SimilarityEmptyRight(left: seq<nat>)
    ensures Similarity(left, []) == 0
  {
    if |left| > 0 {
      SimilarityEmptyRight(left[1..]);
    }
  }

  /** Every count of a left value on the right fits `u32`, as
    * `u32::try_from(..).unwrap()` needs. */
  predicate CountsFit(left: seq<nat>, right: seq<nat>)
  {
    forall i :: 0 <= i < |left| ==> Count(right, left[i]) <= U32_MAX
  }

  /** The fold of `get_list_similarity_score` from `acc`, with its checks:
    * `try_from(..).unwrap()` panics on a count above `u32::MAX`, `*` and `+`
    * on overflow; `None` is the panic. */
  function CheckedSimilarity(left: seq<nat>, right: seq<nat>, acc: nat): Option<nat>
  {
    if |left| == 0 then Some(acc)
    else
      var count := Count(right, left[0]);
      if count > U32_MAX || left[0] * count > U32_MAX || acc + left[0] * count > U32_MAX then None
      else CheckedSimilarity(left[1..], right, acc + left[0] * count)
  }

  /** The checked fold panics exactly when some count leaves `u32` or the
    * whole score does: every product and partial sum is at most the
    * score. */
  lemma {:induction false} CheckedSimilarityMeaning(left: seq<nat>, right: seq<nat>, acc: nat)
    requires acc <= U32_MAX
    ensures CheckedSimilarity(left, right, acc) ==
      if CountsFit(left, right) && acc + Similarity(left, right) <= U32_MAX
      then Some(acc + Similarity(left, right)) else None
  {
    if |left| > 0 {
      var count := Count(right, left[0]);
      CountsFitCons(left, right);
      if count <= U32_MAX && acc + left[0] * count <= U32_MAX {
        CheckedSimilarityMeaning(left[1..], right, acc + left[0] * count);
      }
    }
  }

  /** The counts of a non-empty list fit when its head's and its tail's do. */
  lemma CountsFitCons(left: seq<nat>, right: seq<nat>)
    requires |left| > 0
    ensures CountsFit(left, right) <==> Count(right, left[0]) <= U32_MAX && CountsFit(left[1..], right)
  {
    if Count(right, left[0]) <= U32_MAX && CountsFit(left[1..], right) {
      forall i | 0 <= i < |left|
        ensures Count(right, left[i]) <= U32_MAX
      {
        if i > 0 {
          assert left[i] == left[1..][i - 1];
        }
      }
    }
  }

  /** What `get_list_similarity_score` promises: the score of the parsed
    * lists, or a panic when a count or the score does not fit `u32`. */
  function SimilarityScore(input: string): Result<nat, Failure>
    requires ParseDefined(RustText.Lines(input))
  {
    match ParseLists(RustText.Lines(input))
    case Err(e) => Err(Unparsed(e))
    case Ok((left, right)) =>
      if CountsFit(left, right) && Similarity(left, right) <= U32_MAX
      then Ok(Similarity(left, right)) else Err(Panic)
  }

  /** `get_list_similarity_score`. */
  function GetListSimilarityScore(input: string): (r: Result<nat, Failure>)
    requires ParseDefined(RustText.Lines(input))
    ensures r == SimilarityScore(input)
    ensures r.Ok? ==> r.value <= U32_MAX
  {
    match ParseLists(RustText.Lines(input))
    case Err(e) => Err(Unparsed(e))
    case Ok((left, right)) =>
      CheckedSimilarityMeaning(left, right, 0);
      match CheckedSimilarity(left, right, 0)
      case None => Err(Panic)
      case Some(score) => Ok(score)
  }

  // The puzzle example

  lemma SortCons(x: nat, s: seq<nat>)
    ensures Sort([x] + s) == Insert(x, Sort(s))
  {
    assert ([x] + s)[1..] == s;
  }

  lemma InsertPast(x: nat, y: nat, s: seq<nat>)
    requires y < x
    ensures Insert(x, [y] + s) == [y] + Insert(x, s)
  {
    assert ([y] + s)[1..] == s;
  }

  lemma InsertHere(x: nat, s: seq<nat>)
    requires |s| > 0 && x <= s[0]
    ensures Insert(x, s) == [x] + s
  {
  }

  lemma SortLeftExample()
    ensures Sort([3, 4, 2, 1, 3, 3]) == [1, 2, 3, 3, 3, 4]
  {
    SortCons(3, []);
    SortCons(3, [3]);
    InsertHere(3, [3]);
    SortCons(1, [3, 3]);
    InsertHere(1, [3, 3]);
    SortCons(2, [1, 3, 3]);
    InsertPast(2, 1, [3, 3]);
    InsertHere(2, [3, 3]);
    SortCons(4, [2, 1, 3, 3]);
    InsertPast(4, 1, [2, 3, 3]);
    InsertPast(4, 2, [3, 3]);
    InsertPast(4, 3, [3]);
    InsertPast(4, 3, []);
    SortCons(3, [4, 2, 1, 3, 3]);
    InsertPast(3, 1, [2, 3, 3, 4]);
    InsertPast(3, 2, [3, 3, 4]);
    InsertHere(3, [3, 3, 4]);
  }

  lemma SortRightExample()
    ensures Sort([4, 3, 5, 3, 9, 3]) == [3, 3, 3, 4, 5, 9]
  {
    SortCons(3, []);
    SortCons(9, [3]);
    InsertPast(9, 3, []);
    SortCons(3, [9, 3]);
    InsertHere(3, [3, 9]);
    SortCons(5, [3, 9, 3]);
    InsertPast(5, 3, [3, 9]);
    InsertPast(5, 3, [9]);
    InsertHere(5, [9]);
    SortCons(3, [5, 3, 9, 3]);
    InsertHere(3, [3, 3, 5, 9]);
    SortCons(4, [3, 5, 3, 9, 3]);
    InsertPast(4, 3, [3, 3, 5, 9]);
    InsertPast(4, 3, [3, 5, 9]);
    InsertPast(4, 3, [5, 9]);
    InsertHere(4, [5, 9]);
  }

  lemma CountCons(x: nat, s: seq<nat>, v: nat)
    ensures Count([x] + s, v) == (if x == v then 1 else 0) + Count(s, v)
  {
    assert ([x] + s)[1..] == s;
  }

  lemma SimilarityCons(x: nat, s: seq<nat>, right: seq<nat>)
    ensures Similarity([x] + s, right) == x * Count(right, x) + Similarity(s, right)
  {
    assert ([x] + s)[1..] == s;
  }

  lemma DiffSumCons(x: nat, s: seq<nat>, y: nat, t: seq<nat>)
    ensures DiffSum([x] + s, [y] + t) == AbsDiff(x, y) + DiffSum(s, t)
  {
    assert ([x] + s)[1..] == s && ([y] + t)[1..] == t;
  }

  /** The example lists differ by 11. */
  lemma DifferenceExample()
    ensures Difference([3, 4, 2, 1, 3, 3], [4, 3, 5, 3, 9, 3]) == 11
  {
    SortLeftExample();
    SortRightExample();
    DiffSumCons(1, [2, 3, 3, 3, 4], 3, [3, 3, 4, 5, 9]);
    DiffSumCons(2, [3, 3, 3, 4], 3, [3, 4, 5, 9]);
    DiffSumCons(3, [3, 3, 4], 3, [4, 5, 9]);
    DiffSumCons(3, [3, 4], 4, [5, 9]);
    DiffSumCons(3, [4], 5, [9]);
    DiffSumCons(4, [], 9, []);
  }

  /** How often each value occurs in the example's right list. */
  lemma RightCounts(v: nat)
    ensures Count([4, 3, 5, 3, 9, 3], v) ==
      (if v == 4 then 1 else 0) + (if v == 3 then 3 else 0) + (if v == 5 then 1 else 0) + (if v == 9 then 1 else 0)
  {
    CountCons(4, [3, 5, 3, 9, 3], v);
    CountCons(3, [5, 3, 9, 3], v);
    CountCons(5, [3, 9, 3], v);
    CountCons(3, [9, 3], v);
    CountCons(9, [3], v);
    CountCons(3, [], v);
  }

  /** The example lists have similarity score 31. */
  lemma SimilarityExample()
    ensures Similarity([3, 4, 2, 1, 3, 3], [4, 3, 5, 3, 9, 3]) == 31
  {
    var r: seq<nat> := [4, 3, 5, 3, 9, 3];
    RightCounts(3);
    RightCounts(4);
    RightCounts(2);
    RightCounts(1);
    SimilarityCons(3, [4, 2, 1, 3, 3], r);
    SimilarityCons(4, [2, 1, 3, 3], r);
    SimilarityCons(2, [1, 3, 3], r);
    SimilarityCons(1, [3, 3], r);
    SimilarityCons(3, [3], r);
    SimilarityCons(3, [], r);
  }

  /** One example line: two one-digit values, three spaces apart. */
  lemma DigitLine(l: nat, r: nat)
    requires l < 10 && r < 10
    ensures PairLine(l, r) == [RustText.DigitChar(l)] + SEPARATOR + [RustText.DigitChar(r)]
    ensures RustText.IsLine(PairLine(l, r))
  {
  }

  /** The first three printed pairs of the example lists. */
  lemma ExampleFirstLines(lines: seq<string>)
    requires lines == PairLines([3, 4, 2, 1, 3, 3], [4, 3, 5, 3, 9, 3])
    ensures lines[0] == "3   4" && lines[1] == "4   3" && lines[2] == "2   5"
  {
    DigitLine(3, 4);
    DigitLine(4, 3);
    DigitLine(2, 5);
  }

  /** The last three printed pairs of the example lists. */
  lemma ExampleLastLines(lines: seq<string>)
    requires lines == PairLines([3, 4, 2, 1, 3, 3], [4, 3, 5, 3, 9, 3])
    ensures lines[3] == "1   3" && lines[4] == "3   9" && lines[5] == "3   3"
  {
    DigitLine(1, 3);
    DigitLine(3, 9);
    DigitLine(3, 3);
  }

  /** The printed pairs of the example lists. */
  lemma ExamplePairLines()
    ensures PairLines([3, 4, 2, 1, 3, 3], [4, 3, 5, 3, 9, 3]) == ["3   4", "4   3", "2   5", "1   3", "3   9", "3   3"]
  {
    var lines := PairLines([3, 4, 2, 1, 3, 3], [4, 3, 5, 3, 9, 3]);
    ExampleFirstLines(lines);
    ExampleLastLines(lines);
  }

  /** The example input's lines are the printed pairs of the example
    * lists. */
  lemma ExampleLines(input: string)
    requires input == "3   4" + "\n" + "4   3" + "\n" + "2   5" + "\n" + "1   3" + "\n" + "3   9" + "\n" + "3   3"
    ensures RustText.Lines(input) == PairLines([3, 4, 2, 1, 3, 3], [4, 3, 5, 3, 9, 3])
  {
    var lines := PairLines([3, 4, 2, 1, 3, 3], [4, 3, 5, 3, 9, 3]);
    ExamplePairLines();
    RustText.JoinSix(lines[0], lines[1], lines[2], lines[3], lines[4], lines[5]);
    assert lines == [lines[0], lines[1], lines[2], lines[3], lines[4], lines[5]];
    DigitLine(3, 4);
    DigitLine(4, 3);
    DigitLine(2, 5);
    DigitLine(1, 3);
    DigitLine(3, 9);
    DigitLine(3, 3);
    RustText.LinesJoin(lines);
  }

  /** The example input: difference 11 and similarity score 31. */
  lemma ExampleInput(input: string)
    requires input == "3   4" + "\n" + "4   3" + "\n" + "2   5" + "\n" + "1   3" + "\n" + "3   9" + "\n" + "3   3"
    ensures ParseDefined(RustText.Lines(input))
    ensures ListDifference(input) == Ok(11) && GetListSimilarityScore(input) == Ok(31)
  {
    var left: seq<nat> := [3, 4, 2, 1, 3, 3];
    var right: seq<nat> := [4, 3, 5, 3, 9, 3];
    ExampleLines(input);
    ParseListsRoundTrip(left, right);
    DifferenceExample();
    SimilarityExample();
    forall i | 0 <= i < |left|
      ensures Count(right, left[i]) <= U32_MAX
    {
      RightCounts(left[i]);
    }
    assert CountsFit(left, right);
  }
}
