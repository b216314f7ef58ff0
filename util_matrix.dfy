/**
 * A fixed-size, row-major matrix (`util/matrix.rs`). The cells live in one
 * array of `rows * columns` elements; cell (row, column) is element
 * `row * columns + column`, and row `i` is the slice of the `columns`
 * elements starting at `i * columns`.
 */
module UtilMatrix {
  import opened Wrappers
  import MachineInt

  datatype Error = IncompatibleMatrixSize

  lemma {:induction false} MulMonotone(a: nat, b: nat, c: nat)
    requires a <= b
    ensures a * c <= b * c
    decreases b - a
  {
    if a < b {
      MulMonotone(a, b - 1, c);
      assert b * c == (b - 1) * c + c;
    }
  }

  /** Row `i` of a `rows` by `columns` buffer ends inside it. */
  lemma RowInRange(i: nat, rows: nat, columns: nat)
    requires i < rows
    ensures i * columns + columns == (i + 1) * columns <= rows * columns
  {
    MulMonotone(i + 1, rows, columns);
  }

  /** The row-major position of a cell lies inside the buffer. */
  lemma CellInRange(row: nat, column: nat, rows: nat, columns: nat)
    requires row < rows && column < columns
    ensures row * columns + column < rows * columns
    ensures (row + 1) * columns <= rows * columns
  {
    RowInRange(row, rows, columns);
  }

  /** `rows` copies of a row of `columns` copies of `value`, flattened. */
  function Filled<T>(value: T, n: nat): (s: seq<T>)
    ensures |s| == n && forall i :: 0 <= i < n ==> s[i] == value
  {
    seq(n, _ => value)
  }

  class Matrix<T> {
    const rows: nat
    const columns: nat
    const data: array<T>

    ghost predicate Valid()
      reads this
    {
      data.Length == rows * columns && rows * columns <= MachineInt.USIZE_MAX
    }

    /** `init`: every cell holds `initial`. */
    constructor Init(initial: T, rows: nat, columns: nat)
      requires rows * columns <= MachineInt.USIZE_MAX
      ensures Valid() && fresh(data)
      ensures this.rows == rows && this.columns == columns
      ensures data[..] == Filled(initial, rows * columns)
    {
      this.rows := rows;
      this.columns := columns;
      data := new T[rows * columns](_ => initial);
    }

    /** The buffer handed over by `from_vec`, used as it is. */
    constructor FromSeq(vector: seq<T>, rows: nat, columns: nat)
      requires |vector| == rows * columns && rows * columns <= MachineInt.USIZE_MAX
      ensures Valid() && fresh(data)
      ensures this.rows == rows && this.columns == columns && data[..] == vector
    {
      this.rows := rows;
      this.columns := columns;
      data := new T[|vector|](i requires 0 <= i < |vector| => vector[i]);
    }

    /** `row_count`: the number of rows given at construction. */
    function RowCount(): (r: nat)
      ensures r == rows
    {
      rows
    }

    /** `col_count`: the number of columns given at construction. */
    function ColCount(): (r: nat)
      ensures r == columns
    {
      columns
    }

    /** `m[(row, column)]`: cell `row * columns + column` of the buffer;
      * out-of-range indices panic. */
    function Get(row: nat, column: nat): (r: T)
      requires Valid() && row < rows && column < columns
      reads this, data
    {
      CellInRange(row, column, rows, columns);
      data[row * columns + column]
    }

    /** `m[i]`: row `i` as a slice of the buffer, whose entry `j` is the
      * cell `(i, j)`; out-of-range rows panic. */
    function Row(i: nat): (r: seq<T>)
      requires Valid() && i < rows
      reads this, data
      ensures |r| == columns
      ensures forall j :: 0 <= j < columns ==> r[j] == Get(i, j)
    {
      RowInRange(i, rows, columns);
      var start := i * columns;
      data[start..start + columns]
    }

    /** A write through `m[(row, column)]`: the addressed cell changes and
      * no other cell does. */
    method Set(row: nat, column: nat, value: T)
      requires Valid() && row < rows && column < columns
      modifies data
      ensures Valid()
      ensures Get(row, column) == value
      ensures forall r, c :: 0 <= r < rows && 0 <= c < columns && (r, c) != (row, column) ==>
        Get(r, c) == old(Get(r, c))
    {
      CellInRange(row, column, rows, columns);
      data[row * columns + column] := value;
      forall r, c | 0 <= r < rows && 0 <= c < columns && (r, c) != (row, column)
        ensures r * columns + c != row * columns + column
      {
        CellInRange(r, c, rows, columns);
        RowMajorInjective(r, c, row, column, columns);
      }
    }

    /** Writing a whole row through the mutable slice `m[i]`: that row
      * becomes `values`, every other row keeps its cells. */
    method SetRow(i: nat, values: seq<T>)
      requires Valid() && i < rows && |values| == columns
      modifies data
      ensures Valid()
      ensures forall c :: 0 <= c < columns ==> Get(i, c) == values[c]
      ensures forall r, c :: 0 <= r < rows && r != i && 0 <= c < columns ==> Get(r, c) == old(Get(r, c))
    {
      for j := 0 to columns
        invariant Valid()
        invariant forall c :: 0 <= c < j ==> Get(i, c) == values[c]
        invariant forall r, c :: 0 <= r < rows && r != i && 0 <= c < columns ==> Get(r, c) == old(Get(r, c))
      {
        Set(i, j, values[j]);
      }
    }
  }

  lemma RowMajorInjective(r: nat, c: nat, row: nat, column: nat, columns: nat)
    requires c < columns && column < columns && (r, c) != (row, column)
    ensures r * columns + c != row * columns + column
  {
    if r < row {
      RowInRange(r, row, columns);
    } else if r > row {
      RowInRange(row, r, columns);
    }
  }

  /** `new`: every cell holds the default value of the element type, which
    * is passed in since Dafny has no `Default` trait. */
  method New<T>(default: T, rows: nat, columns: nat) returns (m: Matrix<T>)
    requires rows * columns <= MachineInt.USIZE_MAX
    ensures fresh(m) && fresh(m.data) && m.Valid()
    ensures m.rows == rows && m.columns == columns
    ensures forall r, c :: 0 <= r < rows && 0 <= c < columns ==> m.Get(r, c) == default
  {
    m := new Matrix.Init(default, rows, columns);
    forall r, c | 0 <= r < rows && 0 <= c < columns
      ensures m.Get(r, c) == default
    {
      CellInRange(r, c, rows, columns);
    }
  }

  /** `from_vec`: a matrix over `vector` exactly when its length is
    * `rows * columns`, and `IncompatibleMatrixSize` otherwise. */
  method FromVec<T>(vector: seq<T>, rows: nat, columns: nat) returns (r: Result<Matrix<T>, Error>)
    requires rows * columns <= MachineInt.USIZE_MAX
    ensures r.Err? <==> |vector| != rows * columns
    ensures r.Err? ==> r.error == IncompatibleMatrixSize
    ensures r.Ok? ==> (fresh(r.value) && fresh(r.value.data) && r.value.Valid() &&
      r.value.rows == rows && r.value.columns == columns && r.value.data[..] == vector)
  {
    if |vector| != rows * columns {
      return Err(IncompatibleMatrixSize);
    }
    var m := new Matrix.FromSeq(vector, rows, columns);
    return Ok(m);
  }

  /** The rows of a matrix, concatenated in order, are its buffer. */
  lemma {:induction false} RowsFlatten<T>(m: Matrix<T>, k: nat)
    requires m.Valid() && k <= m.rows
    ensures k * m.columns <= m.data.Length
    ensures Concat(seq(k, i requires 0 <= i < k reads m, m.data => m.Row(i))) == m.data[..k * m.columns]
  {
    var rows := seq(k, i requires 0 <= i < k reads m, m.data => m.Row(i));
    if k == 0 {
      assert rows == [];
    } else {
      MulMonotone(k, m.rows, m.columns);
      RowsFlatten(m, k - 1);
      var prefix := seq(k - 1, i requires 0 <= i < k - 1 reads m, m.data => m.Row(i));
      assert rows == prefix + [m.Row(k - 1)];
      ConcatSnoc(prefix, m.Row(k - 1));
      PrefixSnocRow(m, k);
    }
  }

  lemma PrefixSnocRow<T>(m: Matrix<T>, k: nat)
    requires m.Valid() && 0 < k <= m.rows
    ensures (k - 1) * m.columns <= k * m.columns <= m.data.Length
    ensures m.data[..k * m.columns] == m.data[..(k - 1) * m.columns] + m.Row(k - 1)
  {
    MulMonotone(k, m.rows, m.columns);
    var lo, hi := (k - 1) * m.columns, k * m.columns;
    assert hi == lo + m.columns by {
      assert k * m.columns == (k - 1) * m.columns + m.columns;
    }
    assert m.data[..hi] == m.data[..lo] + m.data[lo..hi];
    assert m.Row(k - 1) == m.data[lo..hi];
  }

  function Concat<T>(rows: seq<seq<T>>): seq<T>
  {
    if rows == [] then [] else Concat(rows[..|rows| - 1]) + rows[|rows| - 1]
  }

  lemma ConcatSnoc<T>(rows: seq<seq<T>>, row: seq<T>)
    ensures Concat(rows + [row]) == Concat(rows) + row
  {
    assert (rows + [row])[..|rows|] == rows;
  }

  /** `RowIterator`: hands out the rows of `matrix` one by one. */
  class RowIterator<T> {
    var row: nat
    const matrix: Matrix<T>

    ghost predicate Valid()
      reads this, matrix
    {
      matrix.Valid() && row <= matrix.rows
    }

    constructor (matrix: Matrix<T>)
      requires matrix.Valid()
      ensures Valid() && this.matrix == matrix && row == 0
    {
      this.matrix := matrix;
      row := 0;
    }

    /** Row `row` while there is one, then `None` for good. */
    method Next() returns (r: Option<seq<T>>)
      requires Valid()
      modifies this`row
      ensures Valid()
      ensures old(row) < matrix.rows ==> r == Some(matrix.Row(old(row))) && row == old(row) + 1
      ensures old(row) == matrix.rows ==> r.None? && row == old(row)
    {
      if row < matrix.rows {
        r := Some(matrix.Row(row));
        row := row + 1;
      } else {
        r := None;
      }
    }
  }

  /** `RowIteratorMut`: hands out the rows one by one for writing. The
    * mutable slice becomes the index of the row, which the caller writes
    * with `Matrix.SetRow` or `Matrix.Set`. */
  class RowIteratorMut<T> {
    var row: nat
    const matrix: Matrix<T>

    ghost predicate Valid()
      reads this, matrix
    {
      matrix.Valid() && row <= matrix.rows
    }

    constructor (matrix: Matrix<T>)
      requires matrix.Valid()
      ensures Valid() && this.matrix == matrix && row == 0
    {
      this.matrix := matrix;
      row := 0;
    }

    method Next() returns (r: Option<nat>)
      requires Valid()
      modifies this`row
      ensures Valid()
      ensures old(row) < matrix.rows ==> r == Some(old(row)) && row == old(row) + 1
      ensures old(row) == matrix.rows ==> r.None? && row == old(row)
    {
      if row < matrix.rows {
        r := Some(row);
        row := row + 1;
      } else {
        r := None;
      }
    }
  }

  /** Visits every row and writes `10 * i + j` into column `j` of row `i`. */
  method NumberCells(m: Matrix<int>)
    requires m.Valid()
    modifies m.data
    ensures m.Valid()
    ensures forall r, c :: 0 <= r < m.rows && 0 <= c < m.columns ==> m.Get(r, c) == 10 * r + c
  {
    var iter := new RowIteratorMut(m);
    var next := iter.Next();
    while next.Some?
      invariant iter.Valid() && iter.matrix == m && m.Valid()
      invariant next.Some? ==> next.value + 1 == iter.row
      invariant next.None? ==> iter.row == m.rows
      invariant forall r, c :: 0 <= r < iter.row - (if next.Some? then 1 else 0) && 0 <= c < m.columns ==>
        m.Get(r, c) == 10 * r + c
      decreases m.rows - iter.row + (if next.Some? then 1 else 0)
    {
      var i := next.value;
      var values := seq(m.columns, j => 10 * i + j);
      m.SetRow(i, values);
      next := iter.Next();
    }
  }
}
