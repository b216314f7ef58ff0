/**
 * The antenna map of `year_2024/day08/map.rs`. Parsing records the map's
 * size and every alphanumeric cell as an antenna. Two antennas of one
 * frequency define a step `d = second - first`; an antinode iterator walks
 * from `second` by `+d`, or from `first` by `-d`, until it leaves the map.
 * The double-distance collector keeps the point one step beyond each
 * antenna, the harmonics collector every point on the way.
 */
module Year2024Day08Map {
  import opened Wrappers
  import opened RustText
  import opened MachineInt
  import opened UtilPosition
  import opened Year2024Day08Position
  import opened Year2024Day08Antinode

  datatype Error = ParsingFailed

  /** `antenna.rs`: a position and the character found there. */
  datatype Antenna = Antenna(position: Position, frequency: char)

  // ---------------------------------------------------------------------
  // Parsing

  /** The antennas among the first `n` characters of row `y`, left to right. */
  function RowAntennas(line: string, y: nat, n: nat): (r: seq<Antenna>)
    requires n <= |line|
    ensures forall a :: a in r <==> (a.position.y == y && a.position.x < n &&
      line[a.position.x] == a.frequency && IsAlphanumeric(a.frequency))
    ensures forall i, j :: 0 <= i < j < |r| ==> Before(r[i].position, r[j].position)
    ensures forall i :: 0 <= i < |r| ==> r[i].position.y == y && r[i].position.x < n
  {
    if n == 0 then []
    else
      var c := line[n - 1];
      RowAntennas(line, y, n - 1) + if IsAlphanumeric(c) then [Antenna(Position(n - 1, y), c)] else []
  }

  /** The antennas of the first `k` rows, in row-major order. */
  function GridAntennas(lines: seq<string>, k: nat): seq<Antenna>
    requires k <= |lines|
  {
    if k == 0 then [] else GridAntennas(lines, k - 1) + RowAntennas(lines[k - 1], k - 1, |lines[k - 1]|)
  }

  /** An antenna is listed exactly when its cell holds an alphanumeric
    * character, and the list is in strict row-major order. */
  lemma {:induction false} GridAntennasFacts(lines: seq<string>, k: nat)
    requires k <= |lines|
    ensures forall a :: a in GridAntennas(lines, k) <==> (a.position.y < k &&
      a.position.x < |lines[a.position.y]| && lines[a.position.y][a.position.x] == a.frequency &&
      IsAlphanumeric(a.frequency))
    ensures forall i, j :: 0 <= i < j < |GridAntennas(lines, k)| ==>
      Before(GridAntennas(lines, k)[i].position, GridAntennas(lines, k)[j].position)
    ensures forall i :: 0 <= i < |GridAntennas(lines, k)| ==> GridAntennas(lines, k)[i].position.y < k
  {
    if k > 0 {
      GridAntennasFacts(lines, k - 1);
      var a: seq<Antenna> := GridAntennas(lines, k - 1);
      var b: seq<Antenna> := RowAntennas(lines[k - 1], k - 1, |lines[k - 1]|);
      assert GridAntennas(lines, k) == a + b;
      forall i, j | 0 <= i < j < |a + b|
        ensures Before((a + b)[i].position, (a + b)[j].position)
      {
        if j < |a| {
          assert (a + b)[i] == a[i] && (a + b)[j] == a[j];
        } else if i < |a| {
          assert (a + b)[i] == a[i] && (a + b)[j] == b[j - |a|];
        } else {
          assert (a + b)[i] == b[i - |a|] && (a + b)[j] == b[j - |a|];
        }
      }
    }
  }

  /** What `from_str` produces: no lines, or a line whose length differs
    * from the first one's, fail; otherwise the size is the first line's
    * length by the number of lines, with the antennas in row-major order. */
  function ParseSpec(text: string): Option<(Size, seq<Antenna>)>
  {
    var lines := Lines(text);
    if lines == [] then None
    else if exists i :: 0 <= i < |lines| && |lines[i]| != |lines[0]| then None
    else Some((Size(|lines[0]|, |lines|), GridAntennas(lines, |lines|)))
  }

  /** Parsing fails exactly on empty or ragged input; on success every
    * antenna lies inside the map and is the character of its cell. */
  lemma ParseSpecFacts(text: string)
    ensures ParseSpec(text).None? <==> (text == "" ||
      exists i :: 0 <= i < |Lines(text)| && |Lines(text)[i]| != |Lines(text)[0]|)
    ensures ParseSpec(text).Some? ==>
      var (size, antennas) := ParseSpec(text).value;
      var lines := Lines(text);
      (forall a :: a in antennas <==> (IsWithinSize(a.position, size) &&
        lines[a.position.y][a.position.x] == a.frequency && IsAlphanumeric(a.frequency))) &&
      RowMajor(antennas)
  {
    var lines := Lines(text);
    assert lines == [] <==> text == "";
    if ParseSpec(text).Some? {
      GridAntennasFacts(lines, |lines|);
    }
  }

  /** Strictly increasing positions in row-major order. */
  predicate RowMajor(antennas: seq<Antenna>)
  {
    forall i, j :: 0 <= i < j < |antennas| ==> Before(antennas[i].position, antennas[j].position)
  }

  /** A well-formed map: a grid whose sides fit in an `isize` and whose
    * antennas lie inside it, in row-major order (so no two share a
    * position). */
  predicate WellFormed(size: Size, antennas: seq<Antenna>)
  {
    size.width <= ISIZE_MAX && size.height <= ISIZE_MAX &&
    (forall i :: 0 <= i < |antennas| ==> IsWithinSize(antennas[i].position, size)) &&
    RowMajor(antennas)
  }

  /** A parsed map is well formed. */
  lemma ParsedWellFormed(text: string)
    requires ParseSpec(text).Some?
    requires |Lines(text)| <= ISIZE_MAX && |Lines(text)[0]| <= ISIZE_MAX
    ensures WellFormed(ParseSpec(text).value.0, ParseSpec(text).value.1)
  {
    var lines := Lines(text);
    GridAntennasFacts(lines, |lines|);
    var (size, antennas) := ParseSpec(text).value;
    forall i | 0 <= i < |antennas|
      ensures IsWithinSize(antennas[i].position, size)
    {
      assert antennas[i] in antennas;
    }
  }

  /** `Map::from_str`, reading the lines row by row and cell by cell. The
    * grid's sides fit in an `isize`, as those of every Rust string do. */
  method FromStr(text: string) returns (r: Result<Map, Error>)
    requires Lines(text) != [] ==> |Lines(text)| <= ISIZE_MAX && |Lines(text)[0]| <= ISIZE_MAX
    ensures r.Err? <==> ParseSpec(text).None?
    ensures r.Err? ==> r.error == ParsingFailed
    ensures r.Ok? ==> (fresh(r.value) && r.value.Valid() &&
      (r.value.size, r.value.antennas) == ParseSpec(text).value)
  {
    var lines := Lines(text);
    if |lines| == 0 {
      return Err(ParsingFailed);
    }
    var size := Size(|lines[0]|, |lines|);
    if exists i :: 0 <= i < |lines| && |lines[i]| != size.width {
      return Err(ParsingFailed);
    }
    var antennas: seq<Antenna> := [];
    for y := 0 to |lines|
      invariant antennas == GridAntennas(lines, y)
    {
      var row := ScanRow(lines[y], y);
      antennas := antennas + row;
    }
    assert ParseSpec(text) == Some((size, antennas));
    ParsedWellFormed(text);
    var m := new Map(size, antennas);
    return Ok(m);
  }

  /** The inner parse loop: the antennas of one row, left to right. */
  method ScanRow(line: string, y: nat) returns (row: seq<Antenna>)
    ensures row == RowAntennas(line, y, |line|)
  {
    row := [];
    for x := 0 to |line|
      invariant row == RowAntennas(line, y, x)
    {
      var c := line[x];
      if IsAlphanumeric(c) {
        row := row + [Antenna(Position(x, y), c)];
      }
    }
  }

  // ---------------------------------------------------------------------
  // Antenna pairs

  /** No antenna is listed twice. */
  predicate Distinct(antennas: seq<Antenna>)
  {
    forall i, j :: 0 <= i < |antennas| && 0 <= j < |antennas| && i != j ==> antennas[i] != antennas[j]
  }

  lemma RowMajorDistinct(antennas: seq<Antenna>)
    requires RowMajor(antennas)
    ensures Distinct(antennas)
  {
    forall i, j | 0 <= i < |antennas| && 0 <= j < |antennas| && i != j
      ensures antennas[i] != antennas[j]
    {
      if i < j {
        assert Before(antennas[i].position, antennas[j].position);
      } else {
        assert Before(antennas[j].position, antennas[i].position);
      }
    }
  }

  /** The set of frequencies present, `frequencies` in `get_antenna_pairs`. */
  function Frequencies(antennas: seq<Antenna>): set<char>
  {
    set a | a in antennas :: a.frequency
  }

  /** For the frequencies in `fs`: every two antennas of one frequency, in
    * the order they are listed. */
  ghost function PairsOf(antennas: seq<Antenna>, fs: set<char>): set<(Antenna, Antenna)>
  {
    set i, j | 0 <= i < j < |antennas| && antennas[i].frequency == antennas[j].frequency &&
      antennas[i].frequency in fs :: (antennas[i], antennas[j])
  }

  /** What `get_antenna_pairs` yields: each unordered pair of distinct
    * antennas sharing a frequency, in the orientation met first. */
  ghost function AntennaPairs(antennas: seq<Antenna>): set<(Antenna, Antenna)>
  {
    PairsOf(antennas, Frequencies(antennas))
  }

  /** The pairs are of equal frequency and distinct antennas, no pair occurs
    * in both orientations, and every two distinct antennas of one frequency
    * occur in one of them. */
  lemma AntennaPairsFacts(antennas: seq<Antenna>)
    requires Distinct(antennas)
    ensures forall pr :: pr in AntennaPairs(antennas) ==>
      pr.0 in antennas && pr.1 in antennas && pr.0.frequency == pr.1.frequency && pr.0 != pr.1
    ensures forall pr :: pr in AntennaPairs(antennas) ==> (pr.1, pr.0) !in AntennaPairs(antennas)
    ensures forall i, j :: (0 <= i < |antennas| && 0 <= j < |antennas| && i != j &&
      antennas[i].frequency == antennas[j].frequency) ==>
      (antennas[i], antennas[j]) in AntennaPairs(antennas) || (antennas[j], antennas[i]) in AntennaPairs(antennas)
  {
    var all := AntennaPairs(antennas);
    forall pr | pr in all
      ensures pr.0 in antennas && pr.1 in antennas && pr.0.frequency == pr.1.frequency && pr.0 != pr.1
      ensures (pr.1, pr.0) !in all
    {
      var i, j :| 0 <= i < j < |antennas| && antennas[i].frequency == antennas[j].frequency &&
        pr == (antennas[i], antennas[j]);
    }
    forall i, j | 0 <= i < |antennas| && 0 <= j < |antennas| && i != j &&
      antennas[i].frequency == antennas[j].frequency
      ensures (antennas[i], antennas[j]) in all || (antennas[j], antennas[i]) in all
    {
      assert antennas[i] in antennas;
      if i < j {
        assert (antennas[i], antennas[j]) in all;
      } else {
        assert (antennas[j], antennas[i]) in all;
      }
    }
  }

  /** The pairs of frequency `f` whose first antenna is listed before index
    * `i`. */
  ghost function PairsBelow(antennas: seq<Antenna>, f: char, i: nat): set<(Antenna, Antenna)>
  {
    set k, l | 0 <= k < l < |antennas| && k < i && antennas[k].frequency == f && antennas[l].frequency == f ::
      (antennas[k], antennas[l])
  }

  /** The pairs of frequency `f` that start at antenna `i` and end before
    * index `j`. */
  ghost function PairsAt(antennas: seq<Antenna>, f: char, i: nat, j: nat): set<(Antenna, Antenna)>
    requires i < |antennas|
  {
    set l | i < l < j && l < |antennas| && antennas[l].frequency == f :: (antennas[i], antennas[l])
  }

  /** Before pair `(i, j)` with `i < j` is looked at, neither orientation of
    * it has been inserted. */
  lemma NotYetPaired(antennas: seq<Antenna>, f: char, done: set<char>, i: nat, j: nat)
    requires Distinct(antennas) && f !in done && i < j < |antennas|
    requires antennas[i].frequency == f
    ensures (antennas[i], antennas[j]) !in PairsOf(antennas, done) + PairsBelow(antennas, f, i) + PairsAt(antennas, f, i, j)
    ensures (antennas[j], antennas[i]) !in PairsOf(antennas, done) + PairsBelow(antennas, f, i) + PairsAt(antennas, f, i, j)
  {
  }

  /** One pass of the inner loop of `get_antenna_pairs`: antenna `i` of
    * frequency `f` paired with every antenna of that frequency. */
  method PairFirst(antennas: seq<Antenna>, f: char, ghost done: set<char>, i: nat, pairs0: set<(Antenna, Antenna)>)
    returns (pairs: set<(Antenna, Antenna)>)
    requires Distinct(antennas) && f !in done && i < |antennas| && antennas[i].frequency == f
    requires pairs0 == PairsOf(antennas, done) + PairsBelow(antennas, f, i)
    ensures pairs == pairs0 + PairsAt(antennas, f, i, |antennas|)
  {
    pairs := pairs0;
    for j := 0 to |antennas|
      invariant pairs == pairs0 + PairsAt(antennas, f, i, j)
    {
      var first, second := antennas[i], antennas[j];
      if second.frequency == f {
        if i < j {
          NotYetPaired(antennas, f, done, i, j);
        } else if j < i {
          assert (second, first) in PairsBelow(antennas, f, i);
        }
        if first != second && (first, second) !in pairs && (second, first) !in pairs {
          pairs := pairs + {(first, second)};
        }
      }
      assert PairsAt(antennas, f, i, j + 1) ==
        PairsAt(antennas, f, i, j) + if i < j && second.frequency == f then {(first, second)} else {};
    }
  }

  /** The middle loop of `get_antenna_pairs`: every antenna of frequency
    * `f` as the first of a pair. */
  method PairFrequency(antennas: seq<Antenna>, f: char, ghost done: set<char>, pairs0: set<(Antenna, Antenna)>)
    returns (pairs: set<(Antenna, Antenna)>)
    requires Distinct(antennas) && f !in done && pairs0 == PairsOf(antennas, done)
    ensures pairs == PairsOf(antennas, done + {f})
  {
    pairs := pairs0;
    for i := 0 to |antennas|
      invariant pairs == pairs0 + PairsBelow(antennas, f, i)
    {
      if antennas[i].frequency == f {
        pairs := PairFirst(antennas, f, done, i, pairs);
      }
      assert PairsBelow(antennas, f, i + 1) ==
        PairsBelow(antennas, f, i) + if antennas[i].frequency == f then PairsAt(antennas, f, i, |antennas|) else {};
    }
    assert PairsOf(antennas, done + {f}) == PairsOf(antennas, done) + PairsBelow(antennas, f, |antennas|);
  }

  // ---------------------------------------------------------------------
  // Antinode iterators

  /** The `iteration_function` of an iterator: `add_diff` or `sub_diff`. */
  datatype Direction = Addition | Subtraction

  function Advance(direction: Direction, p: Position, d: PositionDifference): Option<Position>
  {
    match direction
    case Addition => AddDiff(p, d)
    case Subtraction => SubDiff(p, d)
  }

  /** The position after `p`: the advanced one, kept only while it is on
    * the map. */
  function Following(direction: Direction, p: Position, d: PositionDifference, size: Size): Option<Position>
  {
    match Advance(direction, p, d)
    case Some(q) => if IsWithinSize(q, size) then Some(q) else None
    case None => None
  }

  /** The step actually taken: `d` when adding, `-d` when subtracting. */
  function Step(direction: Direction, d: PositionDifference): PositionDifference
  {
    match direction
    case Addition => d
    case Subtraction => PositionDifference(-d.xDiff, -d.yDiff)
  }

  predicate Moves(d: PositionDifference)
  {
    d.xDiff != 0 || d.yDiff != 0
  }

  /** Room left along the step's leading axis; it shrinks with each step
    * that stays on the map. */
  function Room(p: Position, e: PositionDifference, size: Size): nat
  {
    if e.xDiff > 0 then (if p.x < size.width then size.width - p.x else 0)
    else if e.xDiff < 0 then p.x
    else if e.yDiff > 0 then (if p.y < size.height then size.height - p.y else 0)
    else p.y
  }

  /** A step that stays on the map moves by `Step(direction, d)` and uses
    * up room. */
  lemma FollowingStep(direction: Direction, p: Position, d: PositionDifference, size: Size)
    ensures Following(direction, p, d, size).Some? ==>
      var q, e := Following(direction, p, d, size).value, Step(direction, d);
      IsWithinSize(q, size) && q.x == p.x + e.xDiff && q.y == p.y + e.yDiff &&
      (Moves(d) ==> Room(q, e, size) < Room(p, e, size))
  {
  }

  /** The positions an iterator yields from `start` on: the start itself,
    * then one per step until a step leaves the map or overflows. */
  function Ray(start: Option<Position>, direction: Direction, d: PositionDifference, size: Size): seq<Position>
    requires start.None? || Moves(d)
    decreases if start.None? then 0 else 1 + Room(start.value, Step(direction, d), size)
  {
    match start
    case None => []
    case Some(p) =>
      FollowingStep(direction, p, d, size);
      [p] + Ray(Following(direction, p, d, size), direction, d, size)
  }

  /** Point `k` of the line through `s` with step `e`. */
  predicate OnLine(s: Position, e: PositionDifference, k: nat, q: Position)
  {
    q.x == s.x + k * e.xDiff && q.y == s.y + k * e.yDiff
  }

  lemma MulStep(k: nat, e: int)
    ensures k * e + e == (k + 1) * e
  {
  }

  /** A coordinate between two on-map coordinates of a line is on the map. */
  lemma {:induction false} Between(a: int, e: int, k: nat, w: int)
    requires 0 <= a < w && 0 <= a + k * e < w && k >= 1
    ensures 0 <= a + e < w
    decreases k
  {
    if k > 1 {
      MulStep(k - 1, e);
      if e >= 0 {
        assert (k - 1) * e >= 0 by { MulNonNegative(k - 1, e); }
      } else {
        assert (k - 1) * e <= 0 by { MulNonNegative(k - 1, -e); }
      }
    }
  }

  lemma MulNonNegative(k: nat, e: int)
    requires e >= 0
    ensures k * e >= 0 && k * (-e) <= 0
  {
  }

  /** The harmonics property of one iterator: from an on-map start, the
    * positions yielded are exactly the on-map points `s + k * e`, `k >= 0`,
    * of the line through `s`. */
  lemma {:induction false} RayMembers(s: Position, direction: Direction, d: PositionDifference, size: Size)
    requires Moves(d) && IsWithinSize(s, size) && size.width <= USIZE_MAX && size.height <= USIZE_MAX
    requires d.xDiff != ISIZE_MIN && d.yDiff != ISIZE_MIN
    ensures forall q :: q in Ray(Some(s), direction, d, size) <==>
      (IsWithinSize(q, size) && exists k: nat :: OnLine(s, Step(direction, d), k, q))
    decreases Room(s, Step(direction, d), size)
  {
    var e := Step(direction, d);
    var next := Following(direction, s, d, size);
    FollowingStep(direction, s, d, size);
    assert Ray(Some(s), direction, d, size) == [s] + Ray(next, direction, d, size);
    if next.Some? {
      RayMembers(next.value, direction, d, size);
    }
    forall q | q in Ray(Some(s), direction, d, size)
      ensures IsWithinSize(q, size) && exists k: nat :: OnLine(s, e, k, q)
    {
      if q == s {
        assert OnLine(s, e, 0, q);
      } else {
        assert q in Ray(next, direction, d, size);
        var k: nat :| OnLine(next.value, e, k, q);
        MulStep(k, e.xDiff);
        MulStep(k, e.yDiff);
        assert OnLine(s, e, k + 1, q);
      }
    }
    forall q, k: nat | IsWithinSize(q, size) && OnLine(s, e, k, q)
      ensures q in Ray(Some(s), direction, d, size)
    {
      if k > 0 {
        Between(s.x, e.xDiff, k, size.width);
        Between(s.y, e.yDiff, k, size.height);
        assert next.Some?;
        MulStep(k - 1, e.xDiff);
        MulStep(k - 1, e.yDiff);
        assert OnLine(next.value, e, k - 1, q);
      }
    }
  }

  /** `AntinodeIterator`: the position it will yield next, and how it
    * advances. */
  class AntinodeIterator {
    var currentPosition: Option<Position>
    const difference: PositionDifference
    const frequency: char
    const mapSize: Size
    const direction: Direction

    constructor (start: Option<Position>, difference: PositionDifference, frequency: char, mapSize: Size,
                 direction: Direction)
      ensures currentPosition == start && this.difference == difference && this.frequency == frequency
      ensures this.mapSize == mapSize && this.direction == direction
    {
      currentPosition := start;
      this.difference := difference;
      this.frequency := frequency;
      this.mapSize := mapSize;
      this.direction := direction;
    }

    /** The iterator terminates: it is exhausted or its step moves. */
    ghost predicate Valid()
      reads this
    {
      currentPosition.None? || Moves(difference)
    }

    /** The positions still to come. */
    ghost function Remaining(): seq<Position>
      requires Valid()
      reads this
    {
      Ray(currentPosition, direction, difference, mapSize)
    }

    /** `nth(n)`: the item `n` places on, after `n + 1` calls of `next`. */
    method Nth(n: nat) returns (r: Option<Antinode>)
      requires Valid()
      modifies this`currentPosition
      ensures Valid()
      ensures r.Some? <==> n < |old(Remaining())|
      ensures r.Some? ==> r.value == Antinode(old(Remaining())[n], frequency)
    {
      ghost var all := Remaining();
      for i := 0 to n
        invariant Valid()
        invariant i <= |all| ==> Remaining() == all[i..]
        invariant i > |all| ==> Remaining() == []
      {
        var skipped := Next();
      }
      r := Next();
    }

    /** `next`: the current position as an antinode, after which the
      * iterator moves on, or stops at the first step off the map. */
    method Next() returns (r: Option<Antinode>)
      modifies this`currentPosition
      ensures old(currentPosition).None? ==> r.None? && currentPosition.None?
      ensures old(currentPosition).Some? ==> (
        r == Some(Antinode(old(currentPosition).value, frequency)) &&
        currentPosition == Following(direction, old(currentPosition).value, difference, mapSize))
      ensures old(Valid()) ==> (Valid() &&
        old(Remaining()) == (if r.Some? then [r.value.position] else []) + Remaining())
    {
      match currentPosition
      case Some(position) =>
        currentPosition := match Advance(direction, position, difference)
          case Some(p) => if IsWithinSize(p, mapSize) then Some(p) else None
          case None => None;
        r := Some(Antinode(position, frequency));
      case None =>
        r := None;
    }
  }

  /** The two positions `nth(1)` can return are thus exactly the on-map
    * points one step beyond each antenna. */
  lemma {:induction false} RaySecond(s: Position, direction: Direction, d: PositionDifference, size: Size)
    requires Moves(d)
    ensures |Ray(Some(s), direction, d, size)| > 1 <==> Following(direction, s, d, size).Some?
    ensures |Ray(Some(s), direction, d, size)| > 1 ==>
      Ray(Some(s), direction, d, size)[1] == Following(direction, s, d, size).value
  {
    var next := Following(direction, s, d, size);
    assert Ray(Some(s), direction, d, size) == [s] + Ray(next, direction, d, size);
    if next.Some? {
      assert Ray(next, direction, d, size) == [next.value] + Ray(Following(direction, next.value, d, size), direction, d, size);
    }
  }

  /** The antinodes of frequency `f` at the given positions, in order. */
  function Marked(ps: seq<Position>, f: char): (r: seq<Antinode>)
    ensures |r| == |ps| && forall i :: 0 <= i < |ps| ==> r[i] == Antinode(ps[i], f)
  {
    if ps == [] then [] else [Antinode(ps[0], f)] + Marked(ps[1..], f)
  }

  function Elements<T>(s: seq<T>): set<T>
  {
    set x | x in s
  }

  // ---------------------------------------------------------------------
  // Collecting antinodes

  /** A pair the collectors may be handed: two distinct positions on a map
    * whose sides fit in an `isize`, as those of any Rust string do. */
  predicate PairOnMap(pr: (Antenna, Antenna), size: Size)
  {
    size.width <= ISIZE_MAX && size.height <= ISIZE_MAX &&
    IsWithinSize(pr.0.position, size) && IsWithinSize(pr.1.position, size) && pr.0.position != pr.1.position
  }

  /** The step of a pair's iterators, when they yield anything: the
    * frequencies agree and `get_diff` succeeds. */
  function PairStep(pr: (Antenna, Antenna)): Option<PositionDifference>
    requires IsUsize(pr.0.position) && IsUsize(pr.1.position)
  {
    if pr.0.frequency == pr.1.frequency then GetDiff(pr.0.position, pr.1.position) else None
  }

  function AntinodeAt(p: Option<Position>, f: char): set<Antinode>
  {
    if p.Some? then {Antinode(p.value, f)} else {}
  }

  /** What the double-distance collector keeps of one pair: the second
    * item of each iterator. */
  ghost function PairDoubleDistance(pr: (Antenna, Antenna), size: Size): set<Antinode>
    requires PairOnMap(pr, size)
  {
    match PairStep(pr)
    case None => {}
    case Some(d) =>
      AntinodeAt(Following(Addition, pr.1.position, d, size), pr.0.frequency) +
      AntinodeAt(Following(Subtraction, pr.0.position, d, size), pr.0.frequency)
  }

  /** What the harmonics collector keeps of one pair: every item of both
    * iterators. */
  ghost function PairHarmonics(pr: (Antenna, Antenna), size: Size): set<Antinode>
    requires PairOnMap(pr, size)
  {
    match PairStep(pr)
    case None => {}
    case Some(d) =>
      Elements(Marked(Ray(Some(pr.1.position), Addition, d, size), pr.0.frequency)) +
      Elements(Marked(Ray(Some(pr.0.position), Subtraction, d, size), pr.0.frequency))
  }

  /** The double-distance antinodes of the given pairs (all of them
    * acceptable when they come from a well-formed map). */
  ghost function DoubleDistanceOver(pairs: set<(Antenna, Antenna)>, size: Size): set<Antinode>
  {
    set pr, a | pr in pairs && PairOnMap(pr, size) && a in PairDoubleDistance(pr, size) :: a
  }

  /** The harmonic antinodes of the given pairs. */
  ghost function HarmonicsOver(pairs: set<(Antenna, Antenna)>, size: Size): set<Antinode>
  {
    set pr, a | pr in pairs && PairOnMap(pr, size) && a in PairHarmonics(pr, size) :: a
  }

  /** Every pair of a well-formed map is one the collectors accept. */
  lemma PairsOnMap(size: Size, antennas: seq<Antenna>)
    requires WellFormed(size, antennas)
    ensures Distinct(antennas)
    ensures forall pr :: pr in AntennaPairs(antennas) ==> PairOnMap(pr, size) && pr.0.frequency == pr.1.frequency
  {
    RowMajorDistinct(antennas);
    AntennaPairsFacts(antennas);
  }

  /** The double-distance antinodes of a pair `(a, b)` of one frequency:
    * exactly `2b - a` and `2a - b`, each when it lies on the map. */
  lemma PairDoubleDistanceMeaning(a: Antenna, b: Antenna, size: Size)
    requires PairOnMap((a, b), size) && a.frequency == b.frequency
    ensures forall n :: n in PairDoubleDistance((a, b), size) <==>
      (n.frequency == a.frequency && IsWithinSize(n.position, size) &&
       ((n.position.x == 2 * b.position.x - a.position.x && n.position.y == 2 * b.position.y - a.position.y) ||
        (n.position.x == 2 * a.position.x - b.position.x && n.position.y == 2 * a.position.y - b.position.y)))
  {
  }

  /** The harmonic antinodes of a pair `(a, b)` of one frequency: exactly
    * the on-map points `b + k * (b - a)` and `a - k * (b - a)`, `k >= 0`,
    * both antennas included. */
  lemma PairHarmonicsMeaning(a: Antenna, b: Antenna, size: Size)
    requires PairOnMap((a, b), size) && a.frequency == b.frequency
    ensures PairStep((a, b)).Some?
    ensures var d := PairStep((a, b)).value;
      forall n :: n in PairHarmonics((a, b), size) <==>
        (n.frequency == a.frequency && IsWithinSize(n.position, size) &&
         ((exists k: nat :: OnLine(b.position, d, k, n.position)) ||
          (exists k: nat :: OnLine(a.position, Step(Subtraction, d), k, n.position))))
  {
    var d := PairStep((a, b)).value;
    RayMembers(b.position, Addition, d, size);
    RayMembers(a.position, Subtraction, d, size);
    var forward := Marked(Ray(Some(b.position), Addition, d, size), a.frequency);
    var backward := Marked(Ray(Some(a.position), Subtraction, d, size), a.frequency);
    forall n
      ensures n in Elements(forward) <==> n.frequency == a.frequency && n.position in Ray(Some(b.position), Addition, d, size)
      ensures n in Elements(backward) <==> n.frequency == a.frequency && n.position in Ray(Some(a.position), Subtraction, d, size)
    {
      MarkedMembers(Ray(Some(b.position), Addition, d, size), a.frequency, n);
      MarkedMembers(Ray(Some(a.position), Subtraction, d, size), a.frequency, n);
    }
  }

  /** Every double-distance antinode lies on the map. */
  lemma DoubleDistanceInside(pairs: set<(Antenna, Antenna)>, size: Size)
    ensures forall a :: a in DoubleDistanceOver(pairs, size) ==> IsWithinSize(a.position, size)
  {
  }

  /** Every harmonic antinode lies on the map. */
  lemma HarmonicsInside(pairs: set<(Antenna, Antenna)>, size: Size)
    ensures forall a :: a in HarmonicsOver(pairs, size) ==> IsWithinSize(a.position, size)
  {
    forall a | a in HarmonicsOver(pairs, size)
      ensures IsWithinSize(a.position, size)
    {
      var pr :| pr in pairs && PairOnMap(pr, size) && a in PairHarmonics(pr, size);
      if pr.0.frequency == pr.1.frequency {
        PairHarmonicsMeaning(pr.0, pr.1, size);
      }
    }
  }

  lemma MarkedMembers(ps: seq<Position>, f: char, n: Antinode)
    ensures n in Elements(Marked(ps, f)) <==> n.frequency == f && n.position in ps
  {
    var r := Marked(ps, f);
    if n.frequency == f && n.position in ps {
      var i :| 0 <= i < |ps| && ps[i] == n.position;
      assert r[i] == n;
    }
  }

  /** The outer loop of `get_antenna_pairs`, over the frequencies present
    * in an unspecified order. */
  method CollectPairs(antennas: seq<Antenna>) returns (pairs: set<(Antenna, Antenna)>)
    requires Distinct(antennas)
    ensures pairs == AntennaPairs(antennas)
  {
    var frequencies := Frequencies(antennas);
    pairs := {};
    var remaining := frequencies;
    while remaining != {}
      invariant remaining <= frequencies
      invariant pairs == PairsOf(antennas, frequencies - remaining)
      decreases |remaining|
    {
      var f :| f in remaining;
      ghost var done := frequencies - remaining;
      pairs := PairFrequency(antennas, f, done, pairs);
      remaining := remaining - {f};
      assert frequencies - remaining == done + {f};
    }
  }

  /** `get_antinode_iterators`: with `d = second - first`, an adding
    * iterator from `second` and a subtracting one from `first`; when the
    * frequencies differ or `d` does not fit, two exhausted iterators. */
  method GetAntinodeIterators(size: Size, first: Antenna, second: Antenna) returns (addIter: AntinodeIterator, subIter: AntinodeIterator)
    requires IsUsize(first.position) && IsUsize(second.position)
    ensures fresh(addIter) && fresh(subIter) && addIter != subIter
    ensures first.position != second.position ==> addIter.Valid() && subIter.Valid()
    ensures PairStep((first, second)).Some? ==> (
      var d := PairStep((first, second)).value;
      addIter.currentPosition == Some(second.position) && subIter.currentPosition == Some(first.position) &&
      addIter.difference == d == subIter.difference &&
      addIter.frequency == first.frequency == subIter.frequency &&
      addIter.mapSize == size == subIter.mapSize &&
      addIter.direction == Addition && subIter.direction == Subtraction)
    ensures PairStep((first, second)).None? ==> (
      addIter.currentPosition == None == subIter.currentPosition &&
      addIter.difference == PositionDifference(0, 0) == subIter.difference &&
      addIter.frequency == 'a' == subIter.frequency &&
      addIter.mapSize == Size(0, 0) == subIter.mapSize &&
      addIter.direction == Addition == subIter.direction)
  {
    var diff := GetDiff(first.position, second.position);
    if diff.Some? && first.frequency == second.frequency {
      addIter := new AntinodeIterator(Some(second.position), diff.value, first.frequency, size, Addition);
      subIter := new AntinodeIterator(Some(first.position), diff.value, first.frequency, size, Subtraction);
    } else {
      addIter := new AntinodeIterator(None, PositionDifference(0, 0), 'a', Size(0, 0), Addition);
      subIter := new AntinodeIterator(None, PositionDifference(0, 0), 'a', Size(0, 0), Addition);
    }
  }

  class Map {
    const size: Size
    const antennas: seq<Antenna>

    ghost predicate Valid()
      reads this
    {
      WellFormed(size, antennas)
    }

    constructor (size: Size, antennas: seq<Antenna>)
      requires WellFormed(size, antennas)
      ensures Valid() && this.size == size && this.antennas == antennas
    {
      this.size := size;
      this.antennas := antennas;
    }

    /** `get_antenna_pairs`, visiting the frequencies in an unspecified
      * order. */
    method GetAntennaPairs() returns (pairs: set<(Antenna, Antenna)>)
      requires Valid()
      ensures pairs == AntennaPairs(antennas)
    {
      RowMajorDistinct(antennas);
      pairs := CollectPairs(antennas);
    }

    /** `get_antinodes_double_distance`: for each pair, the second item of
      * each of its iterators. The pairs are visited in an unspecified order,
      * so the result is stated as a set. */
    method GetAntinodesDoubleDistance() returns (antinodes: seq<Antinode>)
      requires Valid()
      ensures Elements(antinodes) == DoubleDistanceOver(AntennaPairs(antennas), size)
    {
      var antennaPairs := GetAntennaPairs();
      PairsOnMap(size, antennas);
      antinodes := CollectDoubleDistance(antennaPairs, size);
    }

    /** `get_antinodes_resonant_harmonics`: for each pair, every item of
      * each of its iterators, in an unspecified order of pairs. */
    method GetAntinodesResonantHarmonics() returns (antinodes: seq<Antinode>)
      requires Valid()
      ensures Elements(antinodes) == HarmonicsOver(AntennaPairs(antennas), size)
    {
      var antennaPairs := GetAntennaPairs();
      PairsOnMap(size, antennas);
      antinodes := CollectHarmonics(antennaPairs, size);
    }
  }

  /** The loop of `get_antinodes_double_distance`. */
  method CollectDoubleDistance(antennaPairs: set<(Antenna, Antenna)>, size: Size) returns (antinodes: seq<Antinode>)
    requires forall pr :: pr in antennaPairs ==> PairOnMap(pr, size)
    ensures Elements(antinodes) == DoubleDistanceOver(antennaPairs, size)
  {
    antinodes := [];
    var remaining := antennaPairs;
    while remaining != {}
      invariant remaining <= antennaPairs
      invariant Elements(antinodes) == DoubleDistanceOver(antennaPairs - remaining, size)
      decreases |remaining|
    {
      var pr :| pr in remaining;
      ghost var done := antennaPairs - remaining;
      var added := DoubleDistanceOfPair(pr, size);
      ElementsAppend(antinodes, added);
      antinodes := antinodes + added;
      DoubleDistanceOverAdd(done, pr, size);
      remaining := remaining - {pr};
      assert antennaPairs - remaining == done + {pr};
    }
  }

  /** The loop of `get_antinodes_resonant_harmonics`. */
  method CollectHarmonics(antennaPairs: set<(Antenna, Antenna)>, size: Size) returns (antinodes: seq<Antinode>)
    requires forall pr :: pr in antennaPairs ==> PairOnMap(pr, size)
    ensures Elements(antinodes) == HarmonicsOver(antennaPairs, size)
  {
    antinodes := [];
    var remaining := antennaPairs;
    while remaining != {}
      invariant remaining <= antennaPairs
      invariant Elements(antinodes) == HarmonicsOver(antennaPairs - remaining, size)
      decreases |remaining|
    {
      var pr :| pr in remaining;
      ghost var done := antennaPairs - remaining;
      var added := HarmonicsOfPair(pr, size);
      ElementsAppend(antinodes, added);
      antinodes := antinodes + added;
      HarmonicsOverAdd(done, pr, size);
      remaining := remaining - {pr};
      assert antennaPairs - remaining == done + {pr};
    }
  }

  /** One round of the double-distance loop: `nth(1)` of both iterators. */
  method DoubleDistanceOfPair(pr: (Antenna, Antenna), size: Size) returns (added: seq<Antinode>)
    requires PairOnMap(pr, size)
    ensures Elements(added) == PairDoubleDistance(pr, size)
  {
    var (first, second) := pr;
    var addIter, subIter := GetAntinodeIterators(size, first, second);
    added := [];
    var a := addIter.Nth(1);
    if a.Some? {
      added := added + [a.value];
    }
    var b := subIter.Nth(1);
    if b.Some? {
      added := added + [b.value];
    }
    if PairStep(pr).Some? {
      RaySecond(second.position, Addition, PairStep(pr).value, size);
      RaySecond(first.position, Subtraction, PairStep(pr).value, size);
    }
  }

  /** One round of the harmonics loop: both iterators drained. */
  method HarmonicsOfPair(pr: (Antenna, Antenna), size: Size) returns (added: seq<Antinode>)
    requires PairOnMap(pr, size)
    ensures Elements(added) == PairHarmonics(pr, size)
  {
    var (first, second) := pr;
    var addIter, subIter := GetAntinodeIterators(size, first, second);
    ghost var forward, backward := addIter.Remaining(), subIter.Remaining();
    added := Drain(addIter, []);
    added := Drain(subIter, added);
    ElementsAppend(Marked(forward, first.frequency), Marked(backward, first.frequency));
  }

  lemma ElementsAppend<T>(a: seq<T>, b: seq<T>)
    ensures Elements(a + b) == Elements(a) + Elements(b)
  {
  }

  lemma DoubleDistanceOverAdd(done: set<(Antenna, Antenna)>, pr: (Antenna, Antenna), size: Size)
    requires PairOnMap(pr, size)
    ensures DoubleDistanceOver(done + {pr}, size) == DoubleDistanceOver(done, size) + PairDoubleDistance(pr, size)
  {
  }

  lemma HarmonicsOverAdd(done: set<(Antenna, Antenna)>, pr: (Antenna, Antenna), size: Size)
    requires PairOnMap(pr, size)
    ensures HarmonicsOver(done + {pr}, size) == HarmonicsOver(done, size) + PairHarmonics(pr, size)
  {
  }

  /** `for antinode in iter { antinodes.push(antinode) }`. */
  method Drain(iter: AntinodeIterator, antinodes0: seq<Antinode>) returns (antinodes: seq<Antinode>)
    requires iter.Valid()
    modifies iter
    ensures antinodes == antinodes0 + Marked(old(iter.Remaining()), iter.frequency)
  {
    antinodes := antinodes0;
    ghost var all := iter.Remaining();
    while true
      invariant iter.Valid()
      invariant antinodes0 + Marked(all, iter.frequency) == antinodes + Marked(iter.Remaining(), iter.frequency)
      decreases |iter.Remaining()|
    {
      ghost var before := iter.Remaining();
      var next := iter.Next();
      if next.None? {
        break;
      }
      assert before == [next.value.position] + iter.Remaining();
      assert Marked(before, iter.frequency) == [next.value] + Marked(iter.Remaining(), iter.frequency);
      antinodes := antinodes + [next.value];
    }
  }
}
