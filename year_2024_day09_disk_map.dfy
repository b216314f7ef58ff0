/**
 * The disk map of 2024 day 9 (`year_2024/day09/disk_map.rs`): one line of
 * digits that alternately give the size of a file and of the free space
 * after it. Parsing lays the map out block by block, each block holding
 * the id of its file or nothing, and lists the files with their sizes.
 */
module Year2024Day09DiskMap {
  import opened Wrappers
  import MachineInt
  import RustText
  import opened Year2024Day09Error

  /** `year_2024/day09/file.rs` is not part of this model; a `File` is the
    * id and the size the parse records. */
  datatype File = File(id: nat, size: nat)

  datatype DiskMap = DiskMap(blocks: seq<Option<nat>>, files: seq<File>)

  /** `n` copies of `x`, as `vec![x; n]`. */
  function Repeat<T>(x: T, n: nat): (r: seq<T>)
    ensures |r| == n && forall i :: 0 <= i < n ==> r[i] == x
  {
    if n == 0 then [] else Repeat(x, n - 1) + [x]
  }

  /** What digit `i` describes: file `i / 2` when `i` is even (the ids go
    * up by one after each free space), free space when it is odd. */
  function Owner(i: nat): Option<nat>
  {
    if i % 2 == 0 then Some(i / 2) else None
  }

  /** The number of blocks the digits describe. */
  function DigitSum(ds: string): nat
    requires RustText.AllDigits(ds)
  {
    if |ds| == 0 then 0 else DigitSum(ds[..|ds| - 1]) + RustText.DigitValue(ds[|ds| - 1])
  }

  /** The blocks laid out for the digits, one run per digit. */
  function BlocksOf(ds: string): seq<Option<nat>>
    requires RustText.AllDigits(ds)
  {
    if |ds| == 0 then []
    else BlocksOf(ds[..|ds| - 1]) + Repeat(Owner(|ds| - 1), RustText.DigitValue(ds[|ds| - 1]))
  }

  /** The files the digits record, one per even position. */
  function FilesOf(ds: string): seq<File>
    requires RustText.AllDigits(ds)
  {
    if |ds| == 0 then []
    else
      var i := |ds| - 1;
      FilesOf(ds[..i]) + (if i % 2 == 0 then [File(i / 2, RustText.DigitValue(ds[i]))] else [])
  }

  /** The longest map whose file ids fit `usize`: the increment after the
    * free space of file `usize::MAX` fails. */
  const MAX_DIGITS: nat := 2 * MachineInt.USIZE_MAX + 1

  /** What `DiskMap::from_str` returns: `ParsingFailed` unless the input is
    * exactly one line of at most `MAX_DIGITS` digits. */
  function Parse(s: string): Result<DiskMap, Error>
  {
    var lines := RustText.Lines(s);
    if |lines| != 1 then Err(ParsingFailed)
    else
      var line := lines[0];
      if !RustText.AllDigits(line) || |line| > MAX_DIGITS then Err(ParsingFailed)
      else Ok(DiskMap(BlocksOf(line), FilesOf(line)))
  }

  /** `for _ in 0..size { blocks.push(x) }`. */
  method PushRun(blocks: seq<Option<nat>>, x: Option<nat>, size: nat) returns (r: seq<Option<nat>>)
    ensures r == blocks + Repeat(x, size)
  {
    r := blocks;
    for k := 0 to size
      invariant r == blocks + Repeat(x, k)
    {
      r := r + [x];
    }
  }

  /** `DiskMap::from_str`: a loop over the characters of the one line that
    * pushes the blocks of each digit, records each file, and moves to the
    * next id after each free space. */
  method FromStr(s: string) returns (r: Result<DiskMap, Error>)
    ensures r == Parse(s)
  {
    var lines := RustText.Lines(s);
    if |lines| != 1 {
      return Err(ParsingFailed);
    }
    var line := lines[0];
    var currentlyFile := true;
    var fileId: nat := 0;
    var blocks: seq<Option<nat>> := [];
    var files: seq<File> := [];
    for i := 0 to |line|
      invariant RustText.AllDigits(line[..i]) && i <= MAX_DIGITS
      invariant currentlyFile == (i % 2 == 0) && fileId == i / 2
      invariant blocks == BlocksOf(line[..i]) && files == FilesOf(line[..i])
    {
      var c := line[i];
      if !RustText.IsDigit(c) {
        return Err(ParsingFailed);
      }
      var size := RustText.DigitValue(c);
      assert line[..i + 1][..i] == line[..i];
      if currentlyFile {
        blocks := PushRun(blocks, Some(fileId), size);
        files := files + [File(fileId, size)];
      } else {
        blocks := PushRun(blocks, None, size);
        if fileId == MachineInt.USIZE_MAX {
          return Err(ParsingFailed);
        }
        fileId := fileId + 1;
      }
      currentlyFile := !currentlyFile;
    }
    assert line[..|line|] == line;
    return Ok(DiskMap(blocks, files));
  }

  /** There are as many blocks as the digits add up to. */
  lemma {:induction false} BlocksLength(ds: string)
    requires RustText.AllDigits(ds)
    ensures |BlocksOf(ds)| == DigitSum(ds)
  {
    if |ds| > 0 {
      BlocksLength(ds[..|ds| - 1]);
    }
  }

  /** Digit `i` becomes the blocks from the sum of the digits before it up
    * to the sum including it, and they hold its file's id, or nothing. */
  lemma {:induction false} BlocksOfRuns(ds: string, i: nat, p: nat)
    requires RustText.AllDigits(ds) && i < |ds|
    requires DigitSum(ds[..i]) <= p < DigitSum(ds[..i + 1])
    ensures p < |BlocksOf(ds)| && BlocksOf(ds)[p] == Owner(i)
  {
    var pre := ds[..|ds| - 1];
    BlocksLength(pre);
    if i == |ds| - 1 {
      assert ds[..i] == pre && ds[..i + 1] == ds;
    } else {
      assert pre[..i] == ds[..i] && pre[..i + 1] == ds[..i + 1];
      BlocksOfRuns(pre, i, p);
    }
  }

  /** File `k` has id `k` and the size of digit `2 k`; every digit in an
    * even position is a file. */
  lemma {:induction false} FilesOfMeaning(ds: string)
    requires RustText.AllDigits(ds)
    ensures |FilesOf(ds)| == (|ds| + 1) / 2
    ensures forall k :: 0 <= k < |FilesOf(ds)| ==> FilesOf(ds)[k] == File(k, RustText.DigitValue(ds[2 * k]))
  {
    if |ds| > 0 {
      var pre := ds[..|ds| - 1];
      FilesOfMeaning(pre);
      assert forall k :: 0 <= k < |FilesOf(pre)| ==> pre[2 * k] == ds[2 * k];
    }
  }

  /** One more digit adds its run of blocks and, in an even position, its
    * file. */
  lemma Append(ds: string, c: char)
    requires RustText.AllDigits(ds) && RustText.IsDigit(c)
    ensures RustText.AllDigits(ds + [c])
    ensures BlocksOf(ds + [c]) == BlocksOf(ds) + Repeat(Owner(|ds|), RustText.DigitValue(c))
    ensures FilesOf(ds + [c]) == FilesOf(ds) + (if |ds| % 2 == 0 then [File(|ds| / 2, RustText.DigitValue(c))] else [])
  {
    assert (ds + [c])[..|ds|] == ds;
  }

  /** The layout of five digits: file 0, free, file 1, free, file 2. */
  lemma FiveDigits(a: char, b: char, c: char, d: char, e: char)
    requires RustText.IsDigit(a) && RustText.IsDigit(b) && RustText.IsDigit(c)
    requires RustText.IsDigit(d) && RustText.IsDigit(e)
    ensures RustText.AllDigits([a, b, c, d, e])
    ensures BlocksOf([a, b, c, d, e]) ==
      Repeat(Some(0), RustText.DigitValue(a)) + Repeat(None, RustText.DigitValue(b)) +
      Repeat(Some(1), RustText.DigitValue(c)) + Repeat(None, RustText.DigitValue(d)) + Repeat(Some(2), RustText.DigitValue(e))
    ensures FilesOf([a, b, c, d, e]) ==
      [File(0, RustText.DigitValue(a)), File(1, RustText.DigitValue(c)), File(2, RustText.DigitValue(e))]
  {
    Append([], a);
    assert [] + [a] == [a];
    Append([a], b);
    assert [a] + [b] == [a, b];
    Append([a, b], c);
    assert [a, b] + [c] == [a, b, c];
    Append([a, b, c], d);
    assert [a, b, c] + [d] == [a, b, c, d];
    Append([a, b, c, d], e);
    assert [a, b, c, d] + [e] == [a, b, c, d, e];
  }

  /** The map of the parse test `12345`: a file of one block, two free,
    * three blocks of file 1, four free and five blocks of file 2. */
  lemma ParseExample(s: string)
    requires s == "12345"
    ensures Parse(s) == Ok(DiskMap(
      Repeat(Some(0), 1) + Repeat(None, 2) + Repeat(Some(1), 3) + Repeat(None, 4) + Repeat(Some(2), 5),
      [File(0, 1), File(1, 3), File(2, 5)]))
  {
    RustText.LinesOfLine(s);
    assert s == ['1', '2', '3', '4', '5'];
    FiveDigits('1', '2', '3', '4', '5');
  }

  /** Two lines are a parse failure. */
  lemma TwoLinesExample(s: string)
    requires s == "123\n456"
    ensures Parse(s) == Err(ParsingFailed)
  {
    RustText.LinesJoin(["123", "456"]);
    assert RustText.Join(["123", "456"], "\n") == s;
  }

  /** No line, or a letter among the digits, is a parse failure. */
  lemma NotDigitsExamples(s: string)
    requires s == "12d"
    ensures Parse("") == Err(ParsingFailed)
    ensures Parse(s) == Err(ParsingFailed)
  {
    RustText.LinesOfLine(s);
    assert !RustText.IsDigit(s[2]);
  }

  /** A final newline ends the one line. */
  lemma FinalNewlineExample(s: string)
    requires s == "123"
    ensures Parse(s + "\n") == Ok(DiskMap(Repeat(Some(0), 1) + Repeat(None, 2) + Repeat(Some(1), 3), [File(0, 1), File(1, 3)]))
  {
    RustText.LinesOfLine(s);
    assert s == ['1', '2', '3'];
    ThreeDigits('1', '2', '3');
  }

  /** The layout of three digits: file 0, free, file 1. */
  lemma ThreeDigits(a: char, b: char, c: char)
    requires RustText.IsDigit(a) && RustText.IsDigit(b) && RustText.IsDigit(c)
    ensures RustText.AllDigits([a, b, c])
    ensures BlocksOf([a, b, c]) ==
      Repeat(Some(0), RustText.DigitValue(a)) + Repeat(None, RustText.DigitValue(b)) + Repeat(Some(1), RustText.DigitValue(c))
    ensures FilesOf([a, b, c]) == [File(0, RustText.DigitValue(a)), File(1, RustText.DigitValue(c))]
  {
    Append([], a);
    assert [] + [a] == [a];
    Append([a], b);
    assert [a] + [b] == [a, b];
    Append([a, b], c);
    assert [a, b] + [c] == [a, b, c];
  }

  /** The map of `90909`: three files of nine blocks and no free space. */
  lemma ParseExampleNoGaps(s: string)
    requires s == "90909"
    ensures Parse(s) == Ok(DiskMap(
      Repeat(Some(0), 9) + Repeat(Some(1), 9) + Repeat(Some(2), 9),
      [File(0, 9), File(1, 9), File(2, 9)]))
  {
    RustText.LinesOfLine(s);
    assert s == ['9', '0', '9', '0', '9'];
    FiveDigits('9', '0', '9', '0', '9');
    assert Repeat<Option<nat>>(None, 0) == [];
    assert Repeat(Some(0), 9) + [] == Repeat(Some(0), 9);
    assert Repeat(Some(0), 9) + Repeat(Some(1), 9) + [] == Repeat(Some(0), 9) + Repeat(Some(1), 9);
  }

  /** `runs.into_iter().flatten()`: the runs one after another. */
  function Flatten<T>(runs: seq<seq<T>>): (r: seq<T>)
    ensures runs == [] ==> r == []
  {
    if runs == [] then [] else runs[0] + Flatten(runs[1..])
  }

  lemma {:induction false} FlattenSnoc<T>(runs: seq<seq<T>>, x: seq<T>)
    ensures Flatten(runs + [x]) == Flatten(runs) + x
    decreases |runs|
  {
    if runs != [] {
      assert (runs + [x])[1..] == runs[1..] + [x];
      FlattenSnoc(runs[1..], x);
    } else {
      assert [] + [x] == [x];
    }
  }

  /** An empty run adds no block. */
  lemma {:induction false} FlattenDropEmpty<T>(a: seq<seq<T>>, b: seq<seq<T>>)
    ensures Flatten(a + [[]] + b) == Flatten(a + b)
    decreases |a|
  {
    if a != [] {
      assert (a + [[]] + b)[1..] == a[1..] + [[]] + b;
      assert (a + b)[1..] == a[1..] + b;
      FlattenDropEmpty(a[1..], b);
    } else {
      assert ([] + [[]] + b)[1..] == b;
      assert [] + b == b;
    }
  }

  /** The run of each digit, in order. */
  function RunsOf(ds: string): (runs: seq<seq<Option<nat>>>)
    requires RustText.AllDigits(ds)
    ensures |runs| == |ds|
  {
    if |ds| == 0 then []
    else RunsOf(ds[..|ds| - 1]) + [Repeat(Owner(|ds| - 1), RustText.DigitValue(ds[|ds| - 1]))]
  }

  /** Run `i` is `size` copies of what digit `i` describes, and the blocks
    * are the runs one after another. */
  lemma {:induction false} RunsOfMeaning(ds: string)
    requires RustText.AllDigits(ds)
    ensures forall i :: 0 <= i < |ds| ==> RunsOf(ds)[i] == Repeat(Owner(i), RustText.DigitValue(ds[i]))
    ensures BlocksOf(ds) == Flatten(RunsOf(ds))
  {
    if |ds| > 0 {
      var pre := ds[..|ds| - 1];
      RunsOfMeaning(pre);
      assert forall i :: 0 <= i < |pre| ==> pre[i] == ds[i];
      FlattenSnoc(RunsOf(pre), Repeat(Owner(|ds| - 1), RustText.DigitValue(ds[|ds| - 1])));
    }
  }

  /** The 18 runs the parse test lists for the larger sample; the empty
    * free space of digit 17 is not among them. */
  function LargerRuns(): seq<seq<Option<nat>>>
  {
    LargerRunsA() + LargerRunsB() + [Repeat(Some(9), 2)]
  }

  function LargerRunsA(): seq<seq<Option<nat>>>
  {
    [Repeat(Some(0), 2), Repeat(None, 3), Repeat(Some(1), 3), Repeat(None, 3),
     Repeat(Some(2), 1), Repeat(None, 3), Repeat(Some(3), 3), Repeat(None, 1), Repeat(Some(4), 2)]
  }

  function LargerRunsB(): seq<seq<Option<nat>>>
  {
    [Repeat(None, 1), Repeat(Some(5), 4), Repeat(None, 1), Repeat(Some(6), 4),
     Repeat(None, 1), Repeat(Some(7), 3), Repeat(None, 1), Repeat(Some(8), 4)]
  }

  function LargerFiles(): seq<File>
  {
    [File(0, 2), File(1, 3), File(2, 1), File(3, 3), File(4, 2),
     File(5, 4), File(6, 4), File(7, 3), File(8, 4), File(9, 2)]
  }

  /** The runs of the 19 digits: those of the test and, at 17, an empty one. */
  lemma LargerRunsOf(s: string)
    requires s == "2333133121414131402"
    ensures RustText.AllDigits(s)
    ensures RunsOf(s) == LargerRunsA() + LargerRunsB() + [[]] + [Repeat(Some(9), 2)]
  {
    RunsOfMeaning(s);
    var r, a, b := RunsOf(s), LargerRunsA(), LargerRunsB();
    var m := a + b + [[]] + [Repeat(Some(9), 2)];
    forall i | 0 <= i < 19
      ensures r[i] == m[i]
    {
      if i < 9 {
        FirstRunsMatch(s, i);
        assert m[i] == a[i];
      } else if i < 17 {
        LaterRunsMatch(s, i - 9);
        assert m[i] == b[i - 9];
      } else if i == 17 {
        assert s[17] == '0' && Repeat<Option<nat>>(None, 0) == [] && m[17] == [];
      } else {
        assert s[18] == '2' && m[18] == Repeat(Some(9), 2);
      }
    }
  }

  lemma FirstRunsMatch(s: string, j: nat)
    requires s == "2333133121414131402" && j < 9
    ensures RustText.AllDigits(s)
    ensures LargerRunsA()[j] == Repeat(Owner(j), RustText.DigitValue(s[j]))
  {
    if j == 0 { assert s[0] == '2' && Owner(0) == Some(0); }
    else if j == 1 { assert s[1] == '3' && Owner(1) == None; }
    else if j == 2 { assert s[2] == '3' && Owner(2) == Some(1); }
    else if j == 3 { assert s[3] == '3' && Owner(3) == None; }
    else if j == 4 { assert s[4] == '1' && Owner(4) == Some(2); }
    else if j == 5 { assert s[5] == '3' && Owner(5) == None; }
    else if j == 6 { assert s[6] == '3' && Owner(6) == Some(3); }
    else if j == 7 { assert s[7] == '1' && Owner(7) == None; }
    else { assert s[8] == '2' && Owner(8) == Some(4); }
  }

  lemma LaterRunsMatch(s: string, j: nat)
    requires s == "2333133121414131402" && j < 8
    ensures RustText.AllDigits(s)
    ensures LargerRunsB()[j] == Repeat(Owner(j + 9), RustText.DigitValue(s[j + 9]))
  {
    if j == 0 { assert s[9] == '1' && Owner(9) == None; }
    else if j == 1 { assert s[10] == '4' && Owner(10) == Some(5); }
    else if j == 2 { assert s[11] == '1' && Owner(11) == None; }
    else if j == 3 { assert s[12] == '4' && Owner(12) == Some(6); }
    else if j == 4 { assert s[13] == '1' && Owner(13) == None; }
    else if j == 5 { assert s[14] == '3' && Owner(14) == Some(7); }
    else if j == 6 { assert s[15] == '1' && Owner(15) == None; }
    else { assert s[16] == '4' && Owner(16) == Some(8); }
  }

  lemma LargerFilesOf(s: string)
    requires s == "2333133121414131402"
    ensures RustText.AllDigits(s)
    ensures FilesOf(s) == LargerFiles()
  {
    FilesOfMeaning(s);
    var f, l := FilesOf(s), LargerFiles();
    forall k | 0 <= k < 10
      ensures f[k] == l[k]
    {
      if k == 0 { assert s[0] == '2'; }
      else if k == 1 { assert s[2] == '3'; }
      else if k == 2 { assert s[4] == '1'; }
      else if k == 3 { assert s[6] == '3'; }
      else if k == 4 { assert s[8] == '2'; }
      else if k == 5 { assert s[10] == '4'; }
      else if k == 6 { assert s[12] == '4'; }
      else if k == 7 { assert s[14] == '3'; }
      else if k == 8 { assert s[16] == '4'; }
      else { assert s[18] == '2'; }
    }
  }

  /** The map of the larger sample, as the parse test lists it. */
  lemma ParseExampleLarger(s: string)
    requires s == "2333133121414131402"
    ensures Parse(s) == Ok(DiskMap(Flatten(LargerRuns()), LargerFiles()))
  {
    RustText.LinesOfLine(s);
    LargerRunsOf(s);
    LargerFilesOf(s);
    RunsOfMeaning(s);
    FlattenDropEmpty(LargerRunsA() + LargerRunsB(), [Repeat(Some(9), 2)]);
  }
}
