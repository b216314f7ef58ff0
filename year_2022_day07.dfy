/**
 * 2022 day 7 (`year_2022/day07.rs`): a file system tree of directories that
 * hold files and further directories. A directory's size is the total size
 * of the files below it, summed in `usize` with overflow checks, and the
 * answer is the sum of the sizes of every directory of the tree whose size
 * is at most 100 000.
 *
 * The Rust `Directory` owns its child directories by value, so a child is
 * modelled as a `Tree` value and the directory whose fields the `add_*` and
 * `clear_*` methods update is a `Directory` object whose `Value()` is a
 * `Tree`. The read-only operations work on that value.
 */
module Year2022Day07 {
  import opened Wrappers
  import MachineInt
  import RustText

  const USIZE_MAX: nat := MachineInt.USIZE_MAX

  /** A `usize` value. */
  type Usize = n: nat | n <= MachineInt.USIZE_MAX

  /** `File`: only its size is kept. */
  datatype File = File(size: Usize)

  /** The value of a `Directory`: its name, its files and its child
    * directories, in the order they were added. */
  datatype Tree = Tree(name: string, files: seq<File>, directories: seq<Tree>)

  /** `FileStructureError`. */
  datatype FileStructureError = MissingRootDirectory | Parse(line: string) | Overflow

  /** The largest directory size the answer counts. */
  const MAX_SIZE: nat := 100_000

  // ---------------------------------------------------------------------
  // Checked sums
  // ---------------------------------------------------------------------

  /** The plain sum of `ns`. */
  function Sum(ns: seq<nat>): nat
  {
    if ns == [] then 0 else Sum(ns[..|ns| - 1]) + ns[|ns| - 1]
  }

  /** `usize::checked_add`. */
  function CheckedAdd(a: nat, b: nat): (r: Option<nat>)
    ensures r.Some? <==> a + b <= USIZE_MAX
    ensures r.Some? ==> r.value == a + b
  {
    if a + b <= USIZE_MAX then Some(a + b) else None
  }

  /** `sum = sum.checked_add(x?)?` for every `x` in turn, starting from
    * `start`: nothing as soon as an `x` is missing or a sum overflows. */
  function Accumulate(start: nat, xs: seq<Option<nat>>): Option<nat>
  {
    if xs == [] then Some(start)
    else
      match Accumulate(start, xs[..|xs| - 1])
      case None => None
      case Some(s) =>
        match xs[|xs| - 1]
        case None => None
        case Some(x) => CheckedAdd(s, x)
  }

  /** Every size present: the accumulation is the plain sum, unless that
    * sum overflows. */
  lemma {:induction false} AccumulateSome(start: nat, xs: seq<Option<nat>>, ns: seq<nat>)
    requires start <= USIZE_MAX
    requires |xs| == |ns| && forall i :: 0 <= i < |xs| ==> xs[i] == Some(ns[i])
    ensures Accumulate(start, xs) ==
      if start + Sum(ns) <= USIZE_MAX then Some(start + Sum(ns)) else None
  {
    if xs != [] {
      var n := |xs| - 1;
      AccumulateSome(start, xs[..n], ns[..n]);
      assert Sum(ns) == Sum(ns[..n]) + ns[n];
      assert xs[n] == Some(ns[n]);
      match Accumulate(start, xs[..n]) {
        case None =>
          assert Accumulate(start, xs).None?;
        case Some(s) =>
          assert s == start + Sum(ns[..n]);
          assert Accumulate(start, xs) == CheckedAdd(s, ns[n]);
      }
    } else {
      assert ns == [];
    }
  }

  /** A missing size spoils the accumulation. */
  lemma {:induction false} AccumulateNone(start: nat, xs: seq<Option<nat>>, i: nat)
    requires i < |xs| && xs[i].None?
    ensures Accumulate(start, xs).None?
  {
    var n := |xs| - 1;
    if i < n {
      AccumulateNone(start, xs[..n], i);
    }
  }

  /** Each size bounded by `usize` exactly when it is present: the
    * accumulation is the plain sum, unless that sum overflows. */
  lemma AccumulateBound(start: nat, xs: seq<Option<nat>>, ns: seq<nat>)
    requires start <= USIZE_MAX && |xs| == |ns|
    requires forall i :: 0 <= i < |xs| ==> xs[i] == if ns[i] <= USIZE_MAX then Some(ns[i]) else None
    ensures Accumulate(start, xs) ==
      if start + Sum(ns) <= USIZE_MAX then Some(start + Sum(ns)) else None
  {
    if i :| 0 <= i < |xs| && ns[i] > USIZE_MAX {
      AccumulateNone(start, xs, i);
      SumElement(ns, i);
    } else {
      AccumulateSome(start, xs, ns);
    }
  }

  /** No term exceeds the sum. */
  lemma {:induction false} SumElement(ns: seq<nat>, i: nat)
    requires i < |ns|
    ensures ns[i] <= Sum(ns)
  {
    if i < |ns| - 1 {
      SumElement(ns[..|ns| - 1], i);
    }
  }

  /** Summing one more term at the end. */
  lemma SumSnoc(ns: seq<nat>, n: nat)
    ensures Sum(ns + [n]) == Sum(ns) + n
  {
    assert (ns + [n])[..|ns|] == ns;
  }

  /** Summing two runs. */
  lemma {:induction false} SumConcat(a: seq<nat>, b: seq<nat>)
    ensures Sum(a + b) == Sum(a) + Sum(b)
  {
    if b != [] {
      var n := |b| - 1;
      SumConcat(a, b[..n]);
      assert (a + b)[..|a + b| - 1] == a + b[..n];
    } else {
      assert a + b == a;
    }
  }

  // ---------------------------------------------------------------------
  // Sizes
  // ---------------------------------------------------------------------

  /** The sizes of the files, in order. */
  function FileSizes(files: seq<File>): (ns: seq<nat>)
    ensures |ns| == |files|
    ensures forall i :: 0 <= i < |files| ==> ns[i] == files[i].size
  {
    seq(|files|, i requires 0 <= i < |files| => files[i].size as nat)
  }

  /** The same sizes, each present. */
  function Present(ns: seq<nat>): (xs: seq<Option<nat>>)
    ensures |xs| == |ns|
    ensures forall i :: 0 <= i < |ns| ==> xs[i] == Some(ns[i])
  {
    seq(|ns|, i requires 0 <= i < |ns| => Some(ns[i]))
  }

  /** The true size of a directory: its file sizes plus the true sizes of
    * its child directories, with no bound. */
  function Total(d: Tree): nat
    decreases d, 1
  {
    Sum(ChildTotals(d)) + Sum(FileSizes(d.files))
  }

  /** The true sizes of the child directories, in order. */
  function ChildTotals(d: Tree): (ns: seq<nat>)
    decreases d, 0
    ensures |ns| == |d.directories|
  {
    seq(|d.directories|, i requires 0 <= i < |d.directories| => Total(d.directories[i]))
  }

  /** `get_size`, as a value: the child directories' sizes first, then the
    * file sizes, each added with `checked_add`. */
  function Size(d: Tree): Option<nat>
    decreases d, 1
  {
    match Accumulate(0, ChildSizes(d))
    case None => None
    case Some(s) => Accumulate(s, Present(FileSizes(d.files)))
  }

  /** `get_size` of every child directory, in order. */
  function ChildSizes(d: Tree): (xs: seq<Option<nat>>)
    decreases d, 0
    ensures |xs| == |d.directories|
  {
    seq(|d.directories|, i requires 0 <= i < |d.directories| => Size(d.directories[i]))
  }

  /** `get_size` is the true size when that fits a `usize`, and nothing
    * otherwise. */
  lemma {:induction false} SizeMeaning(d: Tree)
    decreases d
    ensures Size(d) == if Total(d) <= USIZE_MAX then Some(Total(d)) else None
  {
    var cs, ct := ChildSizes(d), ChildTotals(d);
    forall i | 0 <= i < |cs|
      ensures cs[i] == if ct[i] <= USIZE_MAX then Some(ct[i]) else None
    {
      SizeMeaning(d.directories[i]);
    }
    AccumulateBound(0, cs, ct);
    if Sum(ct) <= USIZE_MAX {
      AccumulateSome(Sum(ct), Present(FileSizes(d.files)), FileSizes(d.files));
    }
  }

  /** A directory with nothing in it has size 0. */
  lemma EmptySize(name: string)
    ensures Size(Tree(name, [], [])) == Some(0)
  {
  }

  /** A child directory is never larger than its parent. */
  lemma ChildTotalBound(d: Tree, i: nat)
    requires i < |d.directories|
    ensures Total(d.directories[i]) <= Total(d)
  {
    SumElement(ChildTotals(d), i);
  }

  /** `get_size`: two loops with early exits. */
  method GetSize(d: Tree) returns (r: Option<nat>)
    decreases d
    ensures r == Size(d)
  {
    ghost var cs := ChildSizes(d);
    var sum: nat := 0;
    assert cs[..0] == [];
    for i := 0 to |d.directories|
      invariant Accumulate(0, cs[..i]) == Some(sum)
    {
      assert cs[..i + 1][..i] == cs[..i];
      var s := GetSize(d.directories[i]);
      if s.None? {
        AccumulateNone(0, cs, i);
        return None;
      }
      if sum + s.value > USIZE_MAX {
        AccumulatePrefixNone(0, cs, i + 1);
        return None;
      }
      sum := sum + s.value;
    }
    assert cs[..|cs|] == cs;
    ghost var start := sum;
    ghost var fs := Present(FileSizes(d.files));
    assert fs[..0] == [];
    for i := 0 to |d.files|
      invariant Accumulate(start, fs[..i]) == Some(sum)
    {
      assert fs[..i + 1][..i] == fs[..i];
      if sum + d.files[i].size > USIZE_MAX {
        AccumulatePrefixNone(start, fs, i + 1);
        return None;
      }
      sum := sum + d.files[i].size;
    }
    assert fs[..|fs|] == fs;
    return Some(sum);
  }

  /** Once the accumulation of a prefix fails, so does the whole. */
  lemma {:induction false} AccumulatePrefixNone(start: nat, xs: seq<Option<nat>>, i: nat)
    requires i <= |xs| && Accumulate(start, xs[..i]).None?
    ensures Accumulate(start, xs).None?
    decreases |xs| - i
  {
    if i < |xs| {
      assert xs[..i + 1][..i] == xs[..i];
      AccumulatePrefixNone(start, xs, i + 1);
    } else {
      assert xs[..i] == xs;
    }
  }

  // ---------------------------------------------------------------------
  // The sum of the small directories
  // ---------------------------------------------------------------------

  /** `max` counts a directory of true size `n` when `n <= max`. */
  function Counted(n: nat, max: nat): nat
  {
    if n <= max then n else 0
  }

  /** The true sum of the sizes of the directories of the subtree, the
    * directory itself included, whose true size is at most `max`. */
  function Below(d: Tree, max: nat): nat
    decreases d, 1
  {
    Sum(ChildBelows(d, max)) + Counted(Total(d), max)
  }

  /** `Below` of every child directory, in order. */
  function ChildBelows(d: Tree, max: nat): (ns: seq<nat>)
    decreases d, 0
    ensures |ns| == |d.directories|
  {
    seq(|d.directories|, i requires 0 <= i < |d.directories| => Below(d.directories[i], max))
  }

  /** `get_sum_of_dirs_with_max_size`, as a value: the children's sums
    * first, then the directory's own `get_size`, added when it is at most
    * `max`. */
  function SumBelow(d: Tree, max: nat): Option<nat>
    decreases d, 1
  {
    match Accumulate(0, ChildSums(d, max))
    case None => None
    case Some(s) =>
      match Size(d)
      case None => None
      case Some(own) => if own <= max then CheckedAdd(s, own) else Some(s)
  }

  /** `get_sum_of_dirs_with_max_size` of every child directory, in order. */
  function ChildSums(d: Tree, max: nat): (xs: seq<Option<nat>>)
    decreases d, 0
    ensures |xs| == |d.directories|
  {
    seq(|d.directories|, i requires 0 <= i < |d.directories| => SumBelow(d.directories[i], max))
  }

  /** The checked sum is the true sum when the directory's size and that
    * sum both fit a `usize`, and nothing otherwise. */
  lemma {:induction false} SumBelowMeaning(d: Tree, max: nat)
    decreases d
    ensures SumBelow(d, max) ==
      if Total(d) <= USIZE_MAX && Below(d, max) <= USIZE_MAX then Some(Below(d, max)) else None
  {
    var cs, cb, ct := ChildSums(d, max), ChildBelows(d, max), ChildTotals(d);
    forall i | 0 <= i < |cs|
      ensures cs[i] == if ct[i] <= USIZE_MAX && cb[i] <= USIZE_MAX then Some(cb[i]) else None
    {
      SumBelowMeaning(d.directories[i], max);
    }
    SizeMeaning(d);
    if Total(d) <= USIZE_MAX && Below(d, max) <= USIZE_MAX {
      forall i | 0 <= i < |cs|
        ensures cs[i] == Some(cb[i])
      {
        SumElement(ct, i);
        SumElement(cb, i);
      }
      AccumulateSome(0, cs, cb);
    } else if i :| 0 <= i < |cs| && cs[i].None? {
      AccumulateNone(0, cs, i);
    } else {
      AccumulateSome(0, cs, cb);
    }
  }

  /** `get_sum_of_dirs_with_max_size`: a loop over the children with
    * recursive calls, then the directory's own size. */
  method GetSumOfDirsWithMaxSize(d: Tree, max: Usize) returns (r: Option<nat>)
    decreases d
    ensures r == SumBelow(d, max)
  {
    ghost var cs := ChildSums(d, max);
    var sum: nat := 0;
    assert cs[..0] == [];
    for i := 0 to |d.directories|
      invariant Accumulate(0, cs[..i]) == Some(sum)
    {
      assert cs[..i + 1][..i] == cs[..i];
      var s := GetSumOfDirsWithMaxSize(d.directories[i], max);
      if s.None? {
        AccumulateNone(0, cs, i);
        return None;
      }
      if sum + s.value > USIZE_MAX {
        AccumulatePrefixNone(0, cs, i + 1);
        return None;
      }
      sum := sum + s.value;
    }
    assert cs[..|cs|] == cs;
    var ownSize := GetSize(d);
    if ownSize.None? {
      return None;
    }
    if ownSize.value <= max {
      if sum + ownSize.value > USIZE_MAX {
        return None;
      }
      sum := sum + ownSize.value;
    }
    return Some(sum);
  }

  // ---------------------------------------------------------------------
  // The directories of a subtree
  // ---------------------------------------------------------------------

  /** Every directory of the subtree: the children's subtrees in order,
    * then the directory itself. */
  function Subtree(d: Tree): (ts: seq<Tree>)
    decreases d, 1
    ensures |ts| > 0 && ts[|ts| - 1] == d
  {
    Flatten(ChildSubtrees(d)) + [d]
  }

  /** `Subtree` of every child directory, in order. */
  function ChildSubtrees(d: Tree): (tss: seq<seq<Tree>>)
    decreases d, 0
    ensures |tss| == |d.directories|
  {
    seq(|d.directories|, i requires 0 <= i < |d.directories| => Subtree(d.directories[i]))
  }

  function Flatten<T>(tss: seq<seq<T>>): seq<T>
  {
    if tss == [] then [] else Flatten(tss[..|tss| - 1]) + tss[|tss| - 1]
  }

  /** The counted sizes of a list of directories. */
  function CountedSizes(ts: seq<Tree>, max: nat): (ns: seq<nat>)
    ensures |ns| == |ts|
    ensures forall i :: 0 <= i < |ts| ==> ns[i] == Counted(Total(ts[i]), max)
  {
    seq(|ts|, i requires 0 <= i < |ts| => Counted(Total(ts[i]), max))
  }

  /** The counted sum of each list, in order. */
  function PartSums(tss: seq<seq<Tree>>, max: nat): (ns: seq<nat>)
    ensures |ns| == |tss|
    ensures forall i :: 0 <= i < |tss| ==> ns[i] == Sum(CountedSizes(tss[i], max))
  {
    seq(|tss|, i requires 0 <= i < |tss| => Sum(CountedSizes(tss[i], max)))
  }

  /** Counting over two lists one after the other. */
  lemma CountedConcat(a: seq<Tree>, b: seq<Tree>, max: nat)
    ensures Sum(CountedSizes(a + b, max)) == Sum(CountedSizes(a, max)) + Sum(CountedSizes(b, max))
  {
    assert CountedSizes(a + b, max) == CountedSizes(a, max) + CountedSizes(b, max);
    SumConcat(CountedSizes(a, max), CountedSizes(b, max));
  }

  /** Counting over a flattened list is counting over each part. */
  lemma {:induction false} CountedFlatten(tss: seq<seq<Tree>>, max: nat)
    ensures Sum(CountedSizes(Flatten(tss), max)) == Sum(PartSums(tss, max))
  {
    if tss != [] {
      var n := |tss| - 1;
      CountedFlatten(tss[..n], max);
      assert PartSums(tss[..n], max) == PartSums(tss, max)[..n];
      CountedConcat(Flatten(tss[..n]), tss[n], max);
    }
  }

  /** `get_sum_of_dirs_with_max_size` reads, unbounded: the sum of the sizes
    * of exactly those directories of the subtree whose size is at most
    * `max`. */
  lemma {:induction false} BelowIsSubtreeSum(d: Tree, max: nat)
    decreases d
    ensures Below(d, max) == Sum(CountedSizes(Subtree(d), max))
  {
    var tss := ChildSubtrees(d);
    forall i | 0 <= i < |tss|
      ensures PartSums(tss, max)[i] == ChildBelows(d, max)[i]
    {
      BelowIsSubtreeSum(d.directories[i], max);
    }
    assert PartSums(tss, max) == ChildBelows(d, max);
    CountedFlatten(tss, max);
    CountedSnoc(Flatten(tss), d, max);
  }

  /** Counting one more directory at the end. */
  lemma CountedSnoc(f: seq<Tree>, d: Tree, max: nat)
    ensures Sum(CountedSizes(f + [d], max)) == Sum(CountedSizes(f, max)) + Counted(Total(d), max)
  {
    assert CountedSizes(f + [d], max) == CountedSizes(f, max) + [Counted(Total(d), max)];
    SumSnoc(CountedSizes(f, max), Counted(Total(d), max));
  }

  // ---------------------------------------------------------------------
  // Looking up a child
  // ---------------------------------------------------------------------

  /** The first of `ds` named `name`. */
  function FirstNamed(ds: seq<Tree>, name: string): (r: Option<Tree>)
    ensures r.None? <==> forall i :: 0 <= i < |ds| ==> ds[i].name != name
    ensures r.Some? ==>
      exists i :: 0 <= i < |ds| && ds[i] == r.value && r.value.name == name &&
        forall j :: 0 <= j < i ==> ds[j].name != name
  {
    if ds == [] then None
    else if ds[0].name == name then Some(ds[0])
    else
      var r := FirstNamed(ds[1..], name);
      assert forall i :: 1 <= i < |ds| ==> ds[i] == ds[1..][i - 1];
      if r.Some? then
        var i :| 0 <= i < |ds| - 1 && ds[1..][i] == r.value && r.value.name == name &&
          forall j :: 0 <= j < i ==> ds[1..][j].name != name;
        assert ds[i + 1] == r.value;
        r
      else r
  }

  /** `get_child_by_name`: the first child directory with that name. */
  function ChildByName(d: Tree, name: string): (r: Option<Tree>)
    ensures r.None? <==> forall i :: 0 <= i < |d.directories| ==> d.directories[i].name != name
    ensures r.Some? ==>
      exists i :: 0 <= i < |d.directories| && d.directories[i] == r.value && r.value.name == name &&
        forall j :: 0 <= j < i ==> d.directories[j].name != name
  {
    FirstNamed(d.directories, name)
  }

  // ---------------------------------------------------------------------
  // The directory being built
  // ---------------------------------------------------------------------

  /** `Directory`, the directory whose lists `add_*` and `clear_*` change. */
  class Directory {
    var name: string
    var files: seq<File>
    var directories: seq<Tree>

    /** `Directory::new`: a directory with no files and no children. */
    constructor (name: string)
      ensures this.name == name && files == [] && directories == []
    {
      this.name := name;
      files := [];
      directories := [];
    }

    /** The directory as a value. */
    function Value(): Tree
      reads this
    {
      Tree(name, files, directories)
    }

    /** `add_dir`: `dir` is moved in as the last child; its true size adds
      * to this directory's. */
    method AddDir(dir: Directory)
      requires dir != this
      modifies this
      ensures directories == old(directories) + [old(dir.Value())]
      ensures name == old(name) && files == old(files)
      ensures Total(Value()) == old(Total(Value())) + Total(old(dir.Value()))
    {
      ghost var before := Value();
      directories := directories + [dir.Value()];
      assert ChildTotals(Value()) == ChildTotals(before) + [Total(dir.Value())];
      SumSnoc(ChildTotals(before), Total(dir.Value()));
    }

    /** `clear_dirs`: no children are left; the files stay. */
    method ClearDirs()
      modifies this
      ensures directories == []
      ensures name == old(name) && files == old(files)
      ensures Total(Value()) == Sum(FileSizes(files))
    {
      directories := [];
    }

    /** `add_file`: `file` becomes the last file; its size adds to the true
      * size. */
    method AddFile(file: File)
      modifies this
      ensures files == old(files) + [file]
      ensures name == old(name) && directories == old(directories)
      ensures Total(Value()) == old(Total(Value())) + file.size
    {
      ghost var before := Value();
      files := files + [file];
      assert FileSizes(files) == FileSizes(before.files) + [file.size as nat];
      SumSnoc(FileSizes(before.files), file.size);
      assert ChildTotals(Value()) == ChildTotals(before);
    }

    /** `clear_files`: no files are left; the children stay. */
    method ClearFiles()
      modifies this
      ensures files == []
      ensures name == old(name) && directories == old(directories)
      ensures Total(Value()) == Sum(ChildTotals(Value()))
    {
      files := [];
    }
  }

  // ---------------------------------------------------------------------
  // The answer
  // ---------------------------------------------------------------------

  /** `parse_file_structure`, as written: the loop over the lines does
    * nothing, so the directory stack stays empty and the root directory is
    * always missing. */
  method ParseFileStructure(input: string) returns (r: Result<Tree, FileStructureError>)
    ensures r == Err(MissingRootDirectory)
  {
    var directoryStack: seq<Tree> := [];
    var lines := RustText.Lines(input);
    for i := 0 to |lines| {
    }
    match First(directoryStack) {
      case Some(dir) => r := Ok(dir);
      case None => r := Err(MissingRootDirectory);
    }
  }

  /** `first()` of a list. */
  function First<T>(s: seq<T>): (r: Option<T>)
    ensures r.None? <==> s == []
    ensures r.Some? ==> r.value == s[0]
  {
    if s == [] then None else Some(s[0])
  }

  /** The second half of `retrieve_deletable_dir_size`: the sum of the
    * directories of at most 100 000, or `Overflow`. */
  method DeletableDirSize(root: Tree) returns (r: Result<nat, FileStructureError>)
    ensures r == if Total(root) <= USIZE_MAX && Below(root, MAX_SIZE) <= USIZE_MAX
                 then Ok(Below(root, MAX_SIZE)) else Err(Overflow)
  {
    var s := GetSumOfDirsWithMaxSize(root, MAX_SIZE);
    SumBelowMeaning(root, MAX_SIZE);
    match s {
      case Some(x) => r := Ok(x);
      case None => r := Err(Overflow);
    }
  }

  /** `retrieve_deletable_dir_size`: as written, always the missing root. */
  method RetrieveDeletableDirSize(input: string) returns (r: Result<nat, FileStructureError>)
    ensures r == Err(MissingRootDirectory)
  {
    var root := ParseFileStructure(input);
    match root {
      case Err(e) => r := Err(e);
      case Ok(t) => r := DeletableDirSize(t);
    }
  }

  // ---------------------------------------------------------------------
  // The test cases
  // ---------------------------------------------------------------------

  /** A directory built from nothing has true size 0. */
  lemma NewTotal(name: string)
    ensures Total(Tree(name, [], [])) == 0
  {
  }

  /** The `get_size` test, first half: one file of `usize::MAX` fits, a
    * second one overflows, and no files give 0. */
  method GetSizeScenario() returns (sizes: seq<Option<nat>>)
    ensures sizes == [Some(USIZE_MAX), None, Some(0), Some(389), Some(1128), Some(1517), Some(1517)]
  {
    var root := new Directory("root");
    NewTotal("root");
    var f := File(USIZE_MAX);
    root.AddFile(f);
    assert Total(root.Value()) == USIZE_MAX;
    var s0 := Measure(root);
    root.AddFile(f);
    assert Total(root.Value()) == 2 * USIZE_MAX;
    var s1 := Measure(root);
    root.ClearFiles();
    assert root.Value() == Tree("root", [], []);
    var s2 := Measure(root);
    var nested := NestedScenario(root);
    sizes := [s0, s1, s2] + nested;
  }

  /** The `get_size` test, second half: two directories of two files each,
    * then one inside the other, then both inside the empty root. */
  method NestedScenario(root: Directory) returns (sizes: seq<Option<nat>>)
    requires root.Value() == Tree("root", [], [])
    modifies root
    ensures sizes == [Some(389), Some(1128), Some(1517), Some(1517)]
  {
    var dir1 := new Directory("1");
    NewTotal("1");
    dir1.AddFile(File(297));
    dir1.AddFile(File(92));
    assert Total(dir1.Value()) == 389;
    var dir2 := new Directory("2");
    NewTotal("2");
    var s3 := Measure(dir1);
    dir2.AddFile(File(201));
    dir2.AddFile(File(927));
    assert Total(dir2.Value()) == 1128;
    var s4 := Measure(dir2);
    dir1.AddDir(dir2);
    assert Total(dir1.Value()) == 1517;
    var s5 := Measure(dir1);
    NewTotal("root");
    root.AddDir(dir1);
    assert Total(root.Value()) == 1517;
    var s6 := Measure(root);
    sizes := [s3, s4, s5, s6];
  }

  /** `get_size` of a directory being built. */
  method Measure(dir: Directory) returns (r: Option<nat>)
    ensures r == if Total(dir.Value()) <= USIZE_MAX then Some(Total(dir.Value())) else None
  {
    r := GetSize(dir.Value());
    SizeMeaning(dir.Value());
  }

  /** The tree of the puzzle's example. */
  function ExampleE(): Tree { Tree("e", [File(584)], []) }
  function ExampleA(): Tree { Tree("a", [File(29116), File(2557), File(62596)], [ExampleE()]) }
  function ExampleD(): Tree
  {
    Tree("d", [File(4060174), File(8033020), File(5626152), File(7214296)], [])
  }
  function ExampleRoot(): Tree
  {
    Tree("/", [File(14848514), File(8504156)], [ExampleA(), ExampleD()])
  }

  /** `get_parsed_test_input`: the example tree, built bottom up. */
  method GetParsedTestInput() returns (root: Tree)
    ensures root == ExampleRoot()
  {
    var a := BuildA();
    var d := BuildD();
    var r := new Directory("/");
    r.AddDir(a);
    r.AddDir(d);
    r.AddFile(File(14848514));
    r.AddFile(File(8504156));
    root := r.Value();
  }

  /** Directory `a` of the example, with `e` inside. */
  method BuildA() returns (a: Directory)
    ensures fresh(a) && a.Value() == ExampleA()
  {
    var e := new Directory("e");
    e.AddFile(File(584));
    assert e.Value() == ExampleE();
    a := new Directory("a");
    a.AddDir(e);
    assert a.directories == [ExampleE()];
    a.AddFile(File(29116));
    a.AddFile(File(2557));
    a.AddFile(File(62596));
  }

  /** Directory `d` of the example. */
  method BuildD() returns (d: Directory)
    ensures fresh(d) && d.Value() == ExampleD()
  {
    d := new Directory("d");
    d.AddFile(File(4060174));
    d.AddFile(File(8033020));
    d.AddFile(File(5626152));
    d.AddFile(File(7214296));
  }

  /** Sums of short lists. */
  lemma SumShort(a: nat, b: nat, c: nat, d: nat)
    ensures Sum([a]) == a && Sum([a, b]) == a + b && Sum([a, b, c]) == a + b + c
    ensures Sum([a, b, c, d]) == a + b + c + d
  {
    assert [a, b][..1] == [a];
    assert [a, b, c][..2] == [a, b];
    assert [a, b, c, d][..3] == [a, b, c];
  }

  /** The true sizes in the example. */
  lemma ExampleTotals()
    ensures Total(ExampleE()) == 584 && Total(ExampleA()) == 94853
    ensures Total(ExampleD()) == 24933642 && Total(ExampleRoot()) == 48381165
  {
    SumShort(584, 0, 0, 0);
    assert FileSizes(ExampleE().files) == [584];
    assert ChildTotals(ExampleE()) == [];
    SumShort(29116, 2557, 62596, 0);
    assert FileSizes(ExampleA().files) == [29116, 2557, 62596];
    assert ChildTotals(ExampleA()) == [584];
    SumShort(4060174, 8033020, 5626152, 7214296);
    assert FileSizes(ExampleD().files) == [4060174, 8033020, 5626152, 7214296];
    assert ChildTotals(ExampleD()) == [];
    SumShort(14848514, 8504156, 0, 0);
    SumShort(94853, 24933642, 0, 0);
    assert FileSizes(ExampleRoot().files) == [14848514, 8504156];
    assert ChildTotals(ExampleRoot()) == [94853, 24933642];
  }

  /** The small-directory sums in the example. */
  lemma ExampleBelows()
    ensures Below(ExampleE(), MAX_SIZE) == 584 && Below(ExampleA(), MAX_SIZE) == 95437
    ensures Below(ExampleD(), MAX_SIZE) == 0 && Below(ExampleRoot(), MAX_SIZE) == 95437
  {
    ExampleTotals();
    assert ChildBelows(ExampleE(), MAX_SIZE) == [];
    assert ChildBelows(ExampleD(), MAX_SIZE) == [];
    SumShort(584, 0, 0, 0);
    assert ChildBelows(ExampleA(), MAX_SIZE) == [584];
    SumShort(95437, 0, 0, 0);
    assert ChildBelows(ExampleRoot(), MAX_SIZE) == [95437, 0];
  }

  /** The `get_size_maxsum` test: directories `e`, `a`, `d` and the root
    * give 584, 95437, 0 and 95437. */
  method MaxSumScenario() returns (sums: seq<Option<nat>>)
    ensures sums == [Some(584), Some(95437), Some(0), Some(95437)]
  {
    var root := GetParsedTestInput();
    var a := ChildByName(root, "a");
    assert root.directories[0] == ExampleA();
    assert a == Some(ExampleA());
    var e := ChildByName(a.value, "e");
    assert a.value.directories[0] == ExampleE();
    var d := ChildByName(root, "d");
    assert root.directories[1] == ExampleD();
    assert root.directories[0].name != "d";
    ExampleTotals();
    ExampleBelows();
    var se := Bounded(e.value);
    var sa := Bounded(a.value);
    var sd := Bounded(d.value);
    var sr := Bounded(root);
    sums := [se, sa, sd, sr];
  }

  /** `get_sum_of_dirs_with_max_size(100_000)`, read through its meaning. */
  method Bounded(dir: Tree) returns (r: Option<nat>)
    ensures r == if Total(dir) <= USIZE_MAX && Below(dir, MAX_SIZE) <= USIZE_MAX
                 then Some(Below(dir, MAX_SIZE)) else None
  {
    r := GetSumOfDirsWithMaxSize(dir, MAX_SIZE);
    SumBelowMeaning(dir, MAX_SIZE);
  }
}
