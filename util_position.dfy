/**
 * Grid positions and the bounds check of `util/position.rs`. A `Size` is a
 * width and a height; a position is inside when both coordinates are below
 * them.
 */
module UtilPosition {
  datatype Position = Position(x: nat, y: nat)

  /** `util/size.rs` is not part of this model; `Size` is the pair of
    * dimensions the bounds check reads. */
  datatype Size = Size(width: nat, height: nat)

  /** `is_within_size`. */
  predicate IsWithinSize(p: Position, size: Size)
  {
    p.x < size.width && p.y < size.height
  }

  /** The `bounds_check` cases: inside, too far right, too far down, on the
    * corner just outside, and an empty size. */
  lemma BoundsCheckCases()
    ensures IsWithinSize(Position(3, 8), Size(10, 10))
    ensures !IsWithinSize(Position(12, 8), Size(10, 10))
    ensures !IsWithinSize(Position(3, 20), Size(10, 10))
    ensures !IsWithinSize(Position(10, 10), Size(10, 10))
    ensures !IsWithinSize(Position(0, 0), Size(0, 0))
  {
  }

  /** Row-major order, in which the puzzle grids are read: by row, then by
    * column. */
  predicate Before(p: Position, q: Position)
  {
    p.y < q.y || (p.y == q.y && p.x < q.x)
  }

  /** Every cell of a `width` by `height` grid. */
  function Cells(size: Size): (s: set<Position>)
    ensures forall p :: p in s <==> IsWithinSize(p, size)
  {
    set x: nat, y: nat | x < size.width && y < size.height :: Position(x, y)
  }

  /** The cells of row `y`, from column 0 up to `width`. */
  function RowCells(width: nat, y: nat): (s: set<Position>)
    ensures forall p :: p in s <==> p.x < width && p.y == y
  {
    set x: nat | x < width :: Position(x, y)
  }

  lemma {:induction false} RowCellsCount(width: nat, y: nat)
    ensures |RowCells(width, y)| == width
  {
    if width > 0 {
      RowCellsCount(width - 1, y);
      assert RowCells(width, y) == RowCells(width - 1, y) + {Position(width - 1, y)};
    }
  }

  /** A `width` by `height` size holds exactly `width * height` positions,
    * so a side of length 0 leaves nothing inside. */
  lemma {:induction false} CellsCount(size: Size)
    ensures |Cells(size)| == size.width * size.height
    decreases size.height
  {
    if size.height > 0 {
      var smaller := Size(size.width, size.height - 1);
      var above, last := Cells(smaller), RowCells(size.width, size.height - 1);
      CellsCount(smaller);
      RowCellsCount(size.width, size.height - 1);
      assert Cells(size) == above + last;
      assert above !! last;
      assert |above + last| == |above| + |last|;
      assert size.width * size.height == size.width * (size.height - 1) + size.width by {
        MulPred(size.width, size.height);
      }
    }
  }

  /** A subset is no larger than its superset. */
  lemma {:induction false} SubsetCardinality<T>(a: set<T>, b: set<T>)
    requires a <= b
    ensures |a| <= |b|
    decreases |a|
  {
    if a != {} {
      var x :| x in a;
      SubsetCardinality(a - {x}, b - {x});
    }
  }

  lemma MulPred(a: nat, b: nat)
    requires b > 0
    ensures a * b == a * (b - 1) + a
  {
  }

  /** The border cases: a coordinate equal to its dimension is outside. */
  lemma BorderIsOutside(p: Position, size: Size)
    requires p.x == size.width || p.y == size.height
    ensures !IsWithinSize(p, size)
  {
  }
}
