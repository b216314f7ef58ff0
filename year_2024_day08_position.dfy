/**
 * The position arithmetic of `year_2024/day08/position.rs`: the signed
 * difference between two grid positions, adding or subtracting such a
 * difference with every overflow giving nothing, and the x-then-y order.
 * Coordinates are `usize`, differences `isize`.
 */
module Year2024Day08Position {
  import opened Wrappers
  import opened MachineInt
  import opened Ordering
  import opened UtilPosition
  import SD = Year2024Day08SignedDiff

  /** A signed step between two positions, one `isize` per axis. */
  datatype PositionDifference = PositionDifference(xDiff: int, yDiff: int)

  predicate IsUsize(p: Position)
  {
    p.x <= USIZE_MAX && p.y <= USIZE_MAX
  }

  predicate IsIsize(d: PositionDifference)
  {
    ISIZE_MIN <= d.xDiff <= ISIZE_MAX && ISIZE_MIN <= d.yDiff <= ISIZE_MAX
  }

  /** `usize::checked_add_signed`. */
  function CheckedAddSigned(a: nat, d: int): Option<nat>
  {
    if 0 <= a + d <= USIZE_MAX then Some(a + d) else None
  }

  /** `isize::checked_neg`. */
  function CheckedNegIsize(d: int): Option<int>
  {
    if d == ISIZE_MIN then None else Some(-d)
  }

  /** `p.get_diff(q)`: the step from `p` to `q`, present exactly when both
    * coordinate differences fit in an `isize`. */
  function GetDiff(p: Position, q: Position): (r: Option<PositionDifference>)
    requires IsUsize(p) && IsUsize(q)
    ensures r.Some? <==> -ISIZE_MAX <= q.x - p.x <= ISIZE_MAX && -ISIZE_MAX <= q.y - p.y <= ISIZE_MAX
    ensures r.Some? ==> r.value == PositionDifference(q.x - p.x, q.y - p.y) && IsIsize(r.value)
  {
    match SD.SignedDiff(SD.Usize, q.x, p.x)
    case None => None
    case Some(xDiff) =>
      match SD.SignedDiff(SD.Usize, q.y, p.y)
      case None => None
      case Some(yDiff) => Some(PositionDifference(xDiff, yDiff))
  }

  /** `p.add_diff(d)`: `p + d`, unless a coordinate leaves the `usize`
    * range. */
  function AddDiff(p: Position, d: PositionDifference): (r: Option<Position>)
    ensures r.Some? <==> 0 <= p.x + d.xDiff <= USIZE_MAX && 0 <= p.y + d.yDiff <= USIZE_MAX
    ensures r.Some? ==> r.value.x == p.x + d.xDiff && r.value.y == p.y + d.yDiff && IsUsize(r.value)
  {
    match CheckedAddSigned(p.x, d.xDiff)
    case None => None
    case Some(x) =>
      match CheckedAddSigned(p.y, d.yDiff)
      case None => None
      case Some(y) => Some(Position(x, y))
  }

  /** `p.sub_diff(d)`: `p - d`, unless a component of `d` has no `isize`
    * negation or a coordinate leaves the `usize` range. */
  function SubDiff(p: Position, d: PositionDifference): (r: Option<Position>)
    ensures r.Some? <==> (d.xDiff != ISIZE_MIN && d.yDiff != ISIZE_MIN &&
      0 <= p.x - d.xDiff <= USIZE_MAX && 0 <= p.y - d.yDiff <= USIZE_MAX)
    ensures r.Some? ==> r.value.x == p.x - d.xDiff && r.value.y == p.y - d.yDiff && IsUsize(r.value)
  {
    match CheckedNegIsize(d.xDiff)
    case None => None
    case Some(negX) =>
      match CheckedAddSigned(p.x, negX)
      case None => None
      case Some(x) =>
        match CheckedNegIsize(d.yDiff)
        case None => None
        case Some(negY) =>
          match CheckedAddSigned(p.y, negY)
          case None => None
          case Some(y) => Some(Position(x, y))
  }

  /** Adding the step from `p` to `q` onto `p` lands on `q`. */
  lemma AddGetDiff(p: Position, q: Position)
    requires IsUsize(p) && IsUsize(q) && GetDiff(p, q).Some?
    ensures AddDiff(p, GetDiff(p, q).value) == Some(q)
  {
  }

  /** Subtracting the step from `p` to `q` off `q` lands on `p`. */
  lemma SubGetDiff(p: Position, q: Position)
    requires IsUsize(p) && IsUsize(q) && GetDiff(p, q).Some?
    ensures SubDiff(q, GetDiff(p, q).value) == Some(p)
  {
  }

  /** Subtraction undoes addition whenever the step has a negation. */
  lemma SubAfterAdd(p: Position, d: PositionDifference)
    requires IsUsize(p) && AddDiff(p, d).Some? && d.xDiff != ISIZE_MIN && d.yDiff != ISIZE_MIN
    ensures SubDiff(AddDiff(p, d).value, d) == Some(p)
  {
  }

  /** `Ord for Position`: by x, and by y when the x coordinates agree. */
  function Cmp(p: Position, q: Position): (r: Ordering)
    ensures r == Less <==> p.x < q.x || (p.x == q.x && p.y < q.y)
    ensures r == Equal <==> p == q
    ensures r == Greater <==> p.x > q.x || (p.x == q.x && p.y > q.y)
  {
    match CmpInt(p.x, q.x)
    case Equal => CmpInt(p.y, q.y)
    case o => o
  }

  /** The order is antisymmetric and transitive, hence a total order. */
  lemma CmpTotalOrder(p: Position, q: Position, s: Position)
    ensures Cmp(q, p) == Reverse(Cmp(p, q))
    ensures Cmp(p, q) == Less && Cmp(q, s) == Less ==> Cmp(p, s) == Less
  {
  }

  /** The worked examples of the position arithmetic. */
  lemma DiffExamples()
    ensures GetDiff(Position(1, 2), Position(0, 1)) == Some(PositionDifference(-1, -1))
    ensures AddDiff(Position(12, 3), GetDiff(Position(12, 3), Position(38, 99)).value) == Some(Position(38, 99))
    ensures SubDiff(Position(890, 11), GetDiff(Position(88, 10), Position(890, 11)).value) == Some(Position(88, 10))
  {
  }
}
