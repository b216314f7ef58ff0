/**
 * The topographic map of 2024, day 10 (`year_2024/day10/map.rs`): a grid of
 * digit heights with the list of its height-0 cells (trail heads), and the
 * iterator that climbs from a trail head one height at a time.
 */
module Year2024Day10Map {
  import opened Wrappers
  import opened RustText
  import opened UtilPosition
  import opened UtilMatrix
  import MachineInt

  datatype Error = ParsingFailed | IntegerConversionFailed | IntegerOverflow

  /** Each character is parsed on its own as a `u32`. */
  function LineHeights(line: string): (r: Option<seq<nat>>)
    ensures r.Some? <==> AllDigits(line)
    ensures r.Some? ==> |r.value| == |line| && forall i :: 0 <= i < |line| ==> r.value[i] == DigitValue(line[i])
  {
    if line == "" then Some([])
    else
      ParseOneChar(line[|line| - 1], MachineInt.U32_MAX);
      match (LineHeights(line[..|line| - 1]), ParseUnsigned([line[|line| - 1]], MachineInt.U32_MAX))
      case (Some(hs), Ok(h)) => Some(hs + [h])
      case _ => None
  }

  /** The heights of all lines, concatenated; `None` at the first non-digit. */
  function Heights(lines: seq<string>): (r: Option<seq<nat>>)
    ensures r.Some? <==> forall k :: 0 <= k < |lines| ==> AllDigits(lines[k])
  {
    if lines == [] then Some([])
    else
      match (Heights(lines[..|lines| - 1]), LineHeights(lines[|lines| - 1]))
      case (Some(hs), Some(h)) => Some(hs + h)
      case _ => None
  }

  function TotalLength(lines: seq<string>): nat
  {
    if lines == [] then 0 else TotalLength(lines[..|lines| - 1]) + |lines[|lines| - 1]|
  }

  lemma {:induction false} HeightsLength(lines: seq<string>)
    requires Heights(lines).Some?
    ensures |Heights(lines).value| == TotalLength(lines)
    ensures forall i :: 0 <= i < |Heights(lines).value| ==> Heights(lines).value[i] < 10
  {
    if lines != [] {
      HeightsLength(lines[..|lines| - 1]);
    }
  }

  /** What `from_str` builds, as values: the heights with the row count and
    * the width of the first line, or `None` where it fails. */
  function ParseSpec(text: string): Option<(seq<nat>, nat, nat)>
  {
    var lines := Lines(text);
    if lines == [] then None
    else match Heights(lines)
      case None => None
      case Some(hs) =>
        if |hs| != |lines| * |lines[0]| then None else Some((hs, |lines|, |lines[0]|))
  }

  /** Parsing fails exactly on an empty text, a non-digit character, or a
    * digit count other than the line count times the first line's width. */
  lemma ParseFails(text: string)
    ensures ParseSpec(text).None? <==>
      text == "" ||
      (exists k :: 0 <= k < |Lines(text)| && !AllDigits(Lines(text)[k])) ||
      TotalLength(Lines(text)) != |Lines(text)| * |Lines(text)[0]|
  {
    var lines := Lines(text);
    if lines != [] && Heights(lines).Some? {
      HeightsLength(lines);
    }
  }

  /** `Index<Position> for Matrix`: the position's `y` selects the row and
    * its `x` the column. */
  function HeightAt(m: Matrix<nat>, p: Position): (h: nat)
    requires m.Valid() && p.y < m.rows && p.x < m.columns
    reads m, m.data
    ensures h == m.Row(p.y)[p.x]
  {
    m.Get(p.y, p.x)
  }

  /** `matrix.size()`: the columns are the width, the rows the height. */
  function SizeOf(m: Matrix<nat>): Size
    reads m
  {
    Size(m.columns, m.rows)
  }

  predicate Inside(m: Matrix<nat>, p: Position)
    reads m
  {
    IsWithinSize(p, SizeOf(m))
  }

  /** The height-0 cells among the first `n` cells of row `y`, left to right. */
  function ZerosInRow(row: seq<nat>, y: nat, n: nat): (r: seq<Position>)
    requires n <= |row|
    ensures forall p :: p in r <==> p.y == y && p.x < n && row[p.x] == 0
    ensures forall i, j :: 0 <= i < j < |r| ==> r[i].y == r[j].y == y && r[i].x < r[j].x
    ensures forall i :: 0 <= i < |r| ==> r[i].x < n
  {
    if n == 0 then []
    else ZerosInRow(row, y, n - 1) + if row[n - 1] == 0 then [Position(n - 1, y)] else []
  }

  /** The height-0 cells of the first `k` rows, in row-major order. */
  function ZerosInRows(m: Matrix<nat>, k: nat): seq<Position>
    requires m.Valid() && k <= m.rows
    reads m, m.data
  {
    if k == 0 then [] else ZerosInRows(m, k - 1) + ZerosInRow(m.Row(k - 1), k - 1, m.columns)
  }

  /** The trail heads are exactly the height-0 cells, listed in row-major
    * order without repetition. */
  lemma {:induction false} ZerosInRowsFacts(m: Matrix<nat>, k: nat)
    requires m.Valid() && k <= m.rows
    ensures forall p :: p in ZerosInRows(m, k) <==> p.y < k && p.x < m.columns && m.Get(p.y, p.x) == 0
    ensures forall i, j :: 0 <= i < j < |ZerosInRows(m, k)| ==> Before(ZerosInRows(m, k)[i], ZerosInRows(m, k)[j])
    ensures forall i :: 0 <= i < |ZerosInRows(m, k)| ==> ZerosInRows(m, k)[i].y < k
  {
    if k > 0 {
      ZerosInRowsFacts(m, k - 1);
      var a, b := ZerosInRows(m, k - 1), ZerosInRow(m.Row(k - 1), k - 1, m.columns);
      assert ZerosInRows(m, k) == a + b;
      forall i, j | 0 <= i < j < |a + b|
        ensures Before((a + b)[i], (a + b)[j])
      {
        if j < |a| {
        } else if i < |a| {
          assert (a + b)[i] == a[i] && (a + b)[j] == b[j - |a|];
        }
      }
    }
  }

  /** The parsed map: the height matrix and its trail heads. */
  class Map {
    const matrix: Matrix<nat>
    const trailHeads: seq<Position>

    ghost predicate Valid()
      reads this, matrix, matrix.data
    {
      matrix.Valid() && trailHeads == ZerosInRows(matrix, matrix.rows) &&
      forall i :: 0 <= i < matrix.data.Length ==> matrix.data[i] < 10
    }

    constructor (matrix: Matrix<nat>, trailHeads: seq<Position>)
      ensures this.matrix == matrix && this.trailHeads == trailHeads
    {
      this.matrix := matrix;
      this.trailHeads := trailHeads;
    }

    /** `get_trail_heads`: every height-0 cell, in row-major order. */
    function GetTrailHeads(): (r: seq<Position>)
      requires Valid()
      reads this, matrix, matrix.data
      ensures forall p :: p in r <==> Inside(matrix, p) && HeightAt(matrix, p) == 0
      ensures forall i, j :: 0 <= i < j < |r| ==> Before(r[i], r[j])
    {
      ZerosInRowsFacts(matrix, matrix.rows);
      trailHeads
    }
  }

  /** `from_str`. The heights are collected as values; the trail heads are
    * gathered row by row, indexing each row of the matrix. */
  method FromStr(text: string) returns (r: Result<Map, Error>)
    requires Lines(text) != [] ==> |Lines(text)| * |Lines(text)[0]| <= MachineInt.USIZE_MAX
    ensures r.Err? <==> ParseSpec(text).None?
    ensures r.Err? ==> r.error == ParsingFailed
    ensures r.Ok? ==> (fresh(r.value) && fresh(r.value.matrix) && fresh(r.value.matrix.data) &&
      r.value.Valid() &&
      (r.value.matrix.data[..], r.value.matrix.rows, r.value.matrix.columns) == ParseSpec(text).value)
  {
    var lines := Lines(text);
    if lines == [] {
      return Err(ParsingFailed);
    }
    var rows, columns := |lines|, |lines[0]|;
    var heights := Heights(lines);
    if heights.None? {
      return Err(ParsingFailed);
    }
    HeightsLength(lines);
    var built := FromVec(heights.value, rows, columns);
    if built.Err? {
      return Err(ParsingFailed);
    }
    var matrix := built.value;
    var trailHeads := CollectTrailHeads(matrix);
    var topo := new Map(matrix, trailHeads);
    return Ok(topo);
  }

  /** The nested loop of `from_str` over the rows of the matrix and the
    * cells of each row, pushing every height-0 position. */
  method CollectTrailHeads(matrix: Matrix<nat>) returns (trailHeads: seq<Position>)
    requires matrix.Valid()
    ensures trailHeads == ZerosInRows(matrix, matrix.rows)
  {
    trailHeads := [];
    for y := 0 to matrix.rows
      invariant trailHeads == ZerosInRows(matrix, y)
    {
      trailHeads := PushRowZeros(matrix, trailHeads, matrix.Row(y), y);
    }
  }

  /** One pass of the outer loop of `from_str`: the zeros of row `y` join
    * those of the rows above. */
  method PushRowZeros(matrix: Matrix<nat>, trailHeads: seq<Position>, row: seq<nat>, y: nat)
    returns (r: seq<Position>)
    requires matrix.Valid() && y < matrix.rows && row == matrix.Row(y)
    requires trailHeads == ZerosInRows(matrix, y)
    ensures r == ZerosInRows(matrix, y + 1)
  {
    var zeros := RowZeros(row, y);
    r := trailHeads + zeros;
  }

  /** The inner loop of `from_str`: the height-0 cells of one row. */
  method RowZeros(row: seq<nat>, y: nat) returns (zeros: seq<Position>)
    ensures zeros == ZerosInRow(row, y, |row|)
  {
    zeros := [];
    for x := 0 to |row|
      invariant zeros == ZerosInRow(row, y, x)
    {
      if row[x] == 0 {
        zeros := zeros + [Position(x, y)];
      }
    }
  }

  /** `sourounding_positions`, as a value: left, right, up and down, each
    * only when the coordinate does not leave the range of `usize`. */
  function Neighbours(p: Position): seq<Position>
  {
    (if p.x >= 1 then [Position(p.x - 1, p.y)] else []) +
    (if p.x + 1 <= MachineInt.USIZE_MAX then [Position(p.x + 1, p.y)] else []) +
    (if p.y >= 1 then [Position(p.x, p.y - 1)] else []) +
    (if p.y + 1 <= MachineInt.USIZE_MAX then [Position(p.x, p.y + 1)] else [])
  }

  /** One coordinate differs by exactly one, the other is equal. */
  predicate Adjacent(p: Position, q: Position)
  {
    (p.y == q.y && (q.x == p.x + 1 || p.x == q.x + 1)) ||
    (p.x == q.x && (q.y == p.y + 1 || p.y == q.y + 1))
  }

  /** The neighbours are exactly the adjacent positions inside the range of
    * `usize`, each listed once. */
  lemma NeighboursAreAdjacent(p: Position, q: Position)
    requires p.x <= MachineInt.USIZE_MAX && p.y <= MachineInt.USIZE_MAX
    ensures q in Neighbours(p) <==> Adjacent(p, q) && q.x <= MachineInt.USIZE_MAX && q.y <= MachineInt.USIZE_MAX
    ensures forall i, j :: 0 <= i < j < |Neighbours(p)| ==> Neighbours(p)[i] != Neighbours(p)[j]
  {
  }

  /** `sourounding_positions`: pushes each neighbour that exists. */
  method SurroundingPositions(p: Position) returns (positions: seq<Position>)
    ensures positions == Neighbours(p)
  {
    positions := [];
    if p.x >= 1 {
      positions := positions + [Position(p.x - 1, p.y)];
    }
    if p.x + 1 <= MachineInt.USIZE_MAX {
      positions := positions + [Position(p.x + 1, p.y)];
    }
    if p.y >= 1 {
      positions := positions + [Position(p.x, p.y - 1)];
    }
    if p.y + 1 <= MachineInt.USIZE_MAX {
      positions := positions + [Position(p.x, p.y + 1)];
    }
  }

  /** The heights of a matrix as a value, so that the climbing steps below
    * are stated without reference to the heap. */
  datatype Grid = Grid(rows: nat, columns: nat, cells: seq<nat>)
  {
    predicate WellFormed()
    {
      |cells| == rows * columns <= MachineInt.USIZE_MAX
    }

    predicate Contains(p: Position)
    {
      IsWithinSize(p, Size(columns, rows))
    }

    function Height(p: Position): nat
      requires WellFormed() && Contains(p)
    {
      CellInRange(p.y, p.x, rows, columns);
      cells[p.y * columns + p.x]
    }
  }

  function Snapshot(m: Matrix<nat>): (g: Grid)
    requires m.Valid()
    reads m, m.data
    ensures g.WellFormed()
    ensures forall p :: g.Contains(p) <==> Inside(m, p)
  {
    Grid(m.rows, m.columns, m.data[..])
  }

  lemma SnapshotHeight(m: Matrix<nat>, p: Position)
    requires m.Valid() && Inside(m, p)
    ensures Snapshot(m).Height(p) == HeightAt(m, p)
  {
    CellInRange(p.y, p.x, m.rows, m.columns);
  }

  /** The cells one climb step above `p`: neighbours inside the grid whose
    * height is one more. */
  function ClimbFrom(g: Grid, p: Position): set<Position>
    requires g.WellFormed() && g.Contains(p)
  {
    set q | q in Neighbours(p) && g.Contains(q) && g.Height(q) == g.Height(p) + 1
  }

  predicate AllInside(g: Grid, s: set<Position>)
  {
    forall p :: p in s ==> g.Contains(p)
  }

  /** The frontier after one `next`. */
  function Climb(g: Grid, s: set<Position>): (r: set<Position>)
    requires g.WellFormed() && AllInside(g, s)
    ensures AllInside(g, r)
  {
    set p, q | p in s && q in ClimbFrom(g, p) :: q
  }

  /** The frontier after `n` calls of `next`. */
  function ClimbN(g: Grid, s: set<Position>, n: nat): (r: set<Position>)
    requires g.WellFormed() && AllInside(g, s)
    ensures AllInside(g, r)
  {
    if n == 0 then s else Climb(g, ClimbN(g, s, n - 1))
  }

  predicate AtHeight(g: Grid, s: set<Position>, h: nat)
    requires g.WellFormed()
  {
    forall p :: p in s ==> g.Contains(p) && g.Height(p) == h
  }

  /** A frontier of height-`h` cells climbs to height-`h + 1` cells, each
    * adjacent to a cell of the frontier. */
  lemma ClimbRaises(g: Grid, s: set<Position>, h: nat)
    requires g.WellFormed() && AtHeight(g, s, h)
    ensures AtHeight(g, Climb(g, s), h + 1)
    ensures forall q :: q in Climb(g, s) ==> exists p :: p in s && Adjacent(p, q)
  {
    forall q | q in Climb(g, s)
      ensures exists p :: p in s && Adjacent(p, q)
    {
      var p :| p in s && q in ClimbFrom(g, p);
      ContainedFits(g, p);
      NeighboursAreAdjacent(p, q);
    }
  }

  /** The coordinates of a cell fit in `usize`. */
  lemma ContainedFits(g: Grid, p: Position)
    requires g.WellFormed() && g.Contains(p)
    ensures p.x <= MachineInt.USIZE_MAX && p.y <= MachineInt.USIZE_MAX
  {
    MachineInt.MulAtLeastSelf(g.rows, g.columns);
    MachineInt.MulAtLeastSelf(g.columns, g.rows);
  }

  /** The frontier after `n` steps holds only cells `n` above the start. */
  lemma {:induction false} ClimbNHeights(g: Grid, s: set<Position>, h: nat, n: nat)
    requires g.WellFormed() && AtHeight(g, s, h)
    ensures AtHeight(g, ClimbN(g, s, n), h + n)
  {
    if n > 0 {
      ClimbNHeights(g, s, h, n - 1);
      ClimbRaises(g, ClimbN(g, s, n - 1), h + n - 1);
    }
  }

  /** An empty frontier stays empty. */
  lemma {:induction false} ClimbNEmpty(g: Grid, s: set<Position>, n: nat, k: nat)
    requires g.WellFormed() && AllInside(g, s) && k <= n && ClimbN(g, s, k) == {}
    ensures ClimbN(g, s, n) == {}
    decreases n - k
  {
    if n > k {
      ClimbNEmpty(g, s, n - 1, k);
    }
  }

  /** `TrailIterator`: the frontier of cells reached from a trail head. */
  class TrailIterator {
    const matrix: Matrix<nat>
    var current: set<Position>
    ghost const grid: Grid

    ghost predicate Valid()
      reads this, matrix, matrix.data
    {
      matrix.Valid() && grid == Snapshot(matrix) && AllInside(grid, current)
    }

    /** `new` panics unless the start is a trail head. */
    constructor (topo: Map, trailHead: Position)
      requires topo.Valid() && Inside(topo.matrix, trailHead) && HeightAt(topo.matrix, trailHead) == 0
      ensures Valid() && matrix == topo.matrix && current == {trailHead}
    {
      matrix := topo.matrix;
      current := {trailHead};
      grid := Snapshot(topo.matrix);
    }

    /** `next`: replaces the frontier by the climbed one, which it returns
      * unless it is empty. */
    method Next() returns (r: Option<set<Position>>)
      requires Valid()
      modifies this`current
      ensures Valid()
      ensures current == Climb(grid, old(current))
      ensures r == if current == {} then None else Some(current)
    {
      var next := ClimbAll(matrix, current);
      current := next;
      if current != {} {
        r := Some(current);
      } else {
        r := None;
      }
    }
  }

  /** The outer loop of `next`: every cell of the frontier contributes its
    * climbing neighbours; the order of the set does not matter. */
  method ClimbAll(matrix: Matrix<nat>, current: set<Position>) returns (next: set<Position>)
    requires matrix.Valid() && AllInside(Snapshot(matrix), current)
    ensures next == Climb(Snapshot(matrix), current)
  {
    ghost var g := Snapshot(matrix);
    next := {};
    var remaining := current;
    while remaining != {}
      invariant remaining <= current
      invariant next == Climb(g, current - remaining)
      decreases |remaining|
    {
      var p :| p in remaining;
      var found := ClimbOne(matrix, p);
      ClimbAdd(g, current - remaining, p);
      assert current - (remaining - {p}) == (current - remaining) + {p};
      next := next + found;
      remaining := remaining - {p};
    }
    assert current - remaining == current;
  }

  lemma ClimbAdd(g: Grid, s: set<Position>, p: Position)
    requires g.WellFormed() && AllInside(g, s) && g.Contains(p)
    ensures Climb(g, s + {p}) == Climb(g, s) + ClimbFrom(g, p)
  {
  }

  /** The inner loop of `next`: the neighbours of `p` that pass the filter. */
  method ClimbOne(matrix: Matrix<nat>, p: Position) returns (found: set<Position>)
    requires matrix.Valid() && Inside(matrix, p)
    ensures found == ClimbFrom(Snapshot(matrix), p)
  {
    ghost var g := Snapshot(matrix);
    var value := HeightAt(matrix, p);
    SnapshotHeight(matrix, p);
    var around := SurroundingPositions(p);
    var k := 0;
    found := {};
    while k < |around|
      invariant k <= |around|
      invariant found == set q | q in around[..k] && g.Contains(q) && g.Height(q) == value + 1
    {
      var q := around[k];
      if Inside(matrix, q) {
        SnapshotHeight(matrix, q);
      }
      if Inside(matrix, q) && value + 1 == HeightAt(matrix, q) {
        found := found + {q};
      }
      assert around[..k + 1] == around[..k] + [q];
      k := k + 1;
    }
    assert around[..k] == around;
  }

  /** `get_trail_ends`: the ninth frontier, or the empty set when the trail
    * dies out earlier (`nth(8)`); its cells all have height 9. */
  method GetTrailEnds(topo: Map, trailHead: Position) returns (ends: set<Position>)
    requires topo.Valid() && Inside(topo.matrix, trailHead) && HeightAt(topo.matrix, trailHead) == 0
    ensures ends == ClimbN(Snapshot(topo.matrix), {trailHead}, 9)
    ensures AtHeight(Snapshot(topo.matrix), ends, 9)
  {
    ghost var g := Snapshot(topo.matrix);
    SnapshotHeight(topo.matrix, trailHead);
    assert AtHeight(g, {trailHead}, 0);
    ClimbNHeights(g, {trailHead}, 0, 9);
    var iter := new TrailIterator(topo, trailHead);
    var n := 0;
    ends := {};
    while n < 9
      invariant n <= 9 && iter.Valid() && iter.matrix == topo.matrix && iter.grid == g
      invariant iter.current == ClimbN(g, {trailHead}, n)
      invariant n > 0 ==> ends == iter.current
      invariant iter.current != {}
      decreases 9 - n
    {
      var r := iter.Next();
      if r.None? {
        ClimbNEmpty(g, {trailHead}, 9, n + 1);
        return {};
      }
      ends := r.value;
      n := n + 1;
    }
  }
}
