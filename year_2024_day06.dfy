/**
 * Guard patrol (2024, day 6). A map of `#` obstacles holds one guard drawn as
 * `^`, `>`, `v` or `<`. The guard walks straight ahead, turns right in place
 * in front of an obstacle, and disappears when the next cell is off the map.
 * `Map` is the iterator over the guard's states.
 */
module Year2024Day06 {
  import opened Wrappers
  import opened RustText
  import MachineInt

  datatype Error = MapParsingFailed

  datatype Orientation = Up | Right | Down | Left

  /** The orientation after one right turn. */
  function Rotated(o: Orientation): Orientation
  {
    match o
    case Up => Right
    case Right => Down
    case Down => Left
    case Left => Up
  }

  /** The unit step of each orientation, with y growing downwards. */
  function Dx(o: Orientation): int
  {
    match o
    case Right => 1
    case Left => -1
    case _ => 0
  }

  function Dy(o: Orientation): int
  {
    match o
    case Down => 1
    case Up => -1
    case _ => 0
  }

  /** `Guard` is a `Copy` value, so its `&mut self` methods become functions
    * returning the updated guard. */
  datatype Guard = Guard(orientation: Orientation, position: (nat, nat))
  {
    /** The cell in front of the guard, or `None` when a coordinate would
      * leave the range of `usize`. */
    function Peek(): (r: Option<(nat, nat)>)
      requires position.0 <= MachineInt.USIZE_MAX && position.1 <= MachineInt.USIZE_MAX
      ensures r.None? <==>
        (orientation == Up && position.1 == 0) || (orientation == Left && position.0 == 0) ||
        (orientation == Right && position.0 == MachineInt.USIZE_MAX) ||
        (orientation == Down && position.1 == MachineInt.USIZE_MAX)
      ensures r.Some? ==>
        r.value.0 == position.0 + Dx(orientation) && r.value.1 == position.1 + Dy(orientation) &&
        r.value.0 <= MachineInt.USIZE_MAX && r.value.1 <= MachineInt.USIZE_MAX
    {
      var (x, y) := position;
      match orientation
      case Up => if y >= 1 then Some((x, y - 1)) else None
      case Right => if x + 1 <= MachineInt.USIZE_MAX then Some((x + 1, y)) else None
      case Down => if y + 1 <= MachineInt.USIZE_MAX then Some((x, y + 1)) else None
      case Left => if x >= 1 then Some((x - 1, y)) else None
    }

    function Rotate(): (g: Guard)
      ensures g.position == position && g.orientation == Rotated(orientation)
    {
      this.(orientation := Rotated(orientation))
    }

    /** `step` panics when there is no cell in front; that is a precondition. */
    function Step(): (g: Guard)
      requires position.0 <= MachineInt.USIZE_MAX && position.1 <= MachineInt.USIZE_MAX
      requires Peek().Some?
      ensures g.orientation == orientation
      ensures g.position.0 == position.0 + Dx(orientation) && g.position.1 == position.1 + Dy(orientation)
    {
      this.(position := Peek().value)
    }
  }

  lemma RotateCycle(o: Orientation)
    ensures Rotated(o) != o
    ensures Rotated(Rotated(o)) != o
    ensures Rotated(Rotated(Rotated(Rotated(o)))) == o
  {
  }

  /** A right turn turns the unit step by a quarter: (dx, dy) becomes (-dy, dx). */
  lemma RotateTurnsRight(o: Orientation)
    ensures Dx(Rotated(o)) == -Dy(o) && Dy(Rotated(o)) == Dx(o)
  {
  }

  // ---------------------------------------------------------------- parsing

  /** What a successful parse produces: the fields of `Map`. */
  datatype Parsed = Parsed(guard: Option<Guard>, size: (nat, nat), obstacles: set<(nat, nat)>, iterations: nat)

  /** One of the four marker checks of a line: the first `marker` becomes the
    * guard if none was recorded yet; a marker after a recorded guard fails. */
  function CheckMarker(guard: Option<Guard>, line: string, y: nat, marker: char, o: Orientation)
    : Result<Option<Guard>, Error>
  {
    match (guard, Find(line, [marker]))
    case (None, Some(x)) => Ok(Some(Guard(o, (x, y))))
    case (Some(_), Some(_)) => Err(MapParsingFailed)
    case _ => Ok(guard)
  }

  /** The marker checks of one line in the order `^`, `>`, `v`, `<`. */
  function ScanLineGuard(guard: Option<Guard>, line: string, y: nat): Result<Option<Guard>, Error>
  {
    match CheckMarker(guard, line, y, '^', Up)
    case Err(e) => Err(e)
    case Ok(g1) =>
      match CheckMarker(g1, line, y, '>', Right)
      case Err(e) => Err(e)
      case Ok(g2) =>
        match CheckMarker(g2, line, y, 'v', Down)
        case Err(e) => Err(e)
        case Ok(g3) => CheckMarker(g3, line, y, '<', Left)
  }

  /** The `#` cells of line `y`. */
  function LineObstacles(line: string, y: nat): set<(nat, nat)>
  {
    set x: nat | x < |line| && line[x] == '#' :: (x, y)
  }

  /** The parse loop over a prefix of the lines: the guard so far and the obstacles met. */
  function ScanRows(rows: seq<string>): Result<(Option<Guard>, set<(nat, nat)>), Error>
  {
    if rows == [] then Ok((None, {}))
    else
      var y := |rows| - 1;
      match ScanRows(rows[..y])
      case Err(e) => Err(e)
      case Ok((g, obstacles)) =>
        match ScanLineGuard(g, rows[y], y)
        case Err(e) => Err(e)
        case Ok(g') => Ok((g', obstacles + LineObstacles(rows[y], y)))
  }

  predicate Rectangular(rows: seq<string>)
  {
    forall y :: 0 <= y < |rows| ==> |rows[y]| == |rows[0]|
  }

  /** `Map::try_from`. */
  function ParseMap(text: string): Result<Parsed, Error>
  {
    var rows := Lines(text);
    if rows == [] || !Rectangular(rows) then Err(MapParsingFailed)
    else
      match ScanRows(rows)
      case Err(e) => Err(e)
      case Ok((g, obstacles)) =>
        if g.None? then Err(MapParsingFailed)
        else Ok(Parsed(g, (|rows[0]|, |rows|), obstacles, 0))
  }

  /** The characters that draw the guard, with the orientation each stands for. */
  function MarkerOf(o: Orientation): char
  {
    match o
    case Up => '^'
    case Right => '>'
    case Down => 'v'
    case Left => '<'
  }

  /** How many of the four marker characters occur in a line. */
  function LineMarkers(line: string): nat
  {
    (if '^' in line then 1 else 0) + (if '>' in line then 1 else 0) +
    (if 'v' in line then 1 else 0) + (if '<' in line then 1 else 0)
  }

  /** Summed over the lines: the number of (line, marker) pairs that occur. */
  function MarkerCount(rows: seq<string>): nat
  {
    if rows == [] then 0 else MarkerCount(rows[..|rows| - 1]) + LineMarkers(rows[|rows| - 1])
  }

  /** Every `#` cell of the grid. */
  function GridObstacles(rows: seq<string>): set<(nat, nat)>
  {
    set y: nat, x: nat | y < |rows| && x < |rows[y]| && rows[y][x] == '#' :: (x, y)
  }

  /** `g` stands on the first marker of its kind in its line. */
  predicate GuardDrawn(rows: seq<string>, g: Guard)
  {
    var (x, y) := g.position;
    y < |rows| && x < |rows[y]| && rows[y][x] == MarkerOf(g.orientation) &&
    forall j :: 0 <= j < x ==> rows[y][j] != MarkerOf(g.orientation)
  }

  lemma CheckMarkerFacts(guard: Option<Guard>, line: string, y: nat, o: Orientation)
    ensures var r := CheckMarker(guard, line, y, MarkerOf(o), o);
      (MarkerOf(o) !in line ==> r == Ok(guard)) &&
      (MarkerOf(o) in line && guard.Some? ==> r.Err?) &&
      (MarkerOf(o) in line && guard.None? ==>
         r.Ok? && r.value.Some? && r.value.value.orientation == o && r.value.value.position.1 == y &&
         GuardDrawn([line], Guard(o, (r.value.value.position.0, 0))))
  {
    FindChar(line, MarkerOf(o));
  }

  /** The marker checks of one line fail exactly when a second marker turns up;
    * a single marker in a guard-free line becomes the guard. */
  lemma ScanLineGuardFacts(guard: Option<Guard>, line: string, y: nat)
    ensures var r := ScanLineGuard(guard, line, y);
      (r.Ok? <==> (if guard.None? then LineMarkers(line) <= 1 else LineMarkers(line) == 0)) &&
      (r.Ok? && guard.Some? ==> r.value == guard) &&
      (r.Ok? && guard.None? ==> (r.value.None? <==> LineMarkers(line) == 0)) &&
      (r.Ok? && guard.None? && r.value.Some? ==>
         r.value.value.position.1 == y && GuardDrawn([line], Guard(r.value.value.orientation, (r.value.value.position.0, 0))))
  {
    CheckMarkerFacts(guard, line, y, Up);
    var g1 := CheckMarker(guard, line, y, '^', Up);
    if g1.Ok? {
      CheckMarkerFacts(g1.value, line, y, Right);
      var g2 := CheckMarker(g1.value, line, y, '>', Right);
      if g2.Ok? {
        CheckMarkerFacts(g2.value, line, y, Down);
        var g3 := CheckMarker(g2.value, line, y, 'v', Down);
        if g3.Ok? {
          CheckMarkerFacts(g3.value, line, y, Left);
        }
      }
    }
  }

  lemma LineObstaclesOfPrefix(rows: seq<string>)
    requires rows != []
    ensures GridObstacles(rows) == GridObstacles(rows[..|rows| - 1]) + LineObstacles(rows[|rows| - 1], |rows| - 1)
  {
    var y := |rows| - 1;
    forall p | p in GridObstacles(rows)
      ensures p in GridObstacles(rows[..y]) + LineObstacles(rows[y], y)
    {
      if p.1 < y {
        assert rows[..y][p.1] == rows[p.1];
      }
    }
  }

  /** The parse loop fails exactly when the lines hold more than one marker;
    * otherwise it has collected every `#` cell, and a guard exactly when there
    * was a marker, standing where that marker is drawn. */
  lemma {:induction false} ScanRowsFacts(rows: seq<string>)
    ensures ScanRows(rows).Ok? <==> MarkerCount(rows) <= 1
    ensures ScanRows(rows).Ok? ==>
      var (g, obstacles) := ScanRows(rows).value;
      obstacles == GridObstacles(rows) && (g.None? <==> MarkerCount(rows) == 0) &&
      (g.Some? ==> GuardDrawn(rows, g.value))
  {
    if rows != [] {
      var y := |rows| - 1;
      var init := rows[..y];
      ScanRowsFacts(init);
      LineObstaclesOfPrefix(rows);
      assert rows == init + [rows[y]];
      if ScanRows(init).Ok? {
        var (g, obstacles) := ScanRows(init).value;
        ScanLineGuardFacts(g, rows[y], y);
        if g.Some? {
          assert GuardDrawn(init, g.value);
          var (x, gy) := g.value.position;
          assert init[gy] == rows[gy];
        }
        var r := ScanLineGuard(g, rows[y], y);
        if r.Ok? && r.value.Some? && g.None? {
          var x := r.value.value.position.0;
          assert [rows[y]][0] == rows[y];
        }
      }
    }
  }

  /** `try_from` succeeds exactly on a non-empty rectangular grid with exactly
    * one guard marker; a repeat of that marker later in the same line goes
    * unnoticed, because only the first occurrence is looked for. */
  lemma ParseMapSucceeds(text: string)
    ensures var rows := Lines(text);
      ParseMap(text).Ok? <==> rows != [] && Rectangular(rows) && MarkerCount(rows) == 1
  {
    ScanRowsFacts(Lines(text));
  }

  /** A successful parse: the size is (width of the first line, number of
    * lines), the obstacles are exactly the `#` cells, the guard stands where
    * its marker is drawn, and `iterations` is 0. */
  lemma ParseMapResult(text: string)
    requires ParseMap(text).Ok?
    ensures var rows, p := Lines(text), ParseMap(text).value;
      rows != [] && p.size == (|rows[0]|, |rows|) && p.obstacles == GridObstacles(rows) &&
      p.guard.Some? && GuardDrawn(rows, p.guard.value) && p.iterations == 0
  {
    ScanRowsFacts(Lines(text));
  }

  lemma ParseEmptyFails()
    ensures ParseMap("") == Err(MapParsingFailed)
  {
  }

  /** Rows of unequal length are rejected. */
  lemma ParseRaggedFails(text: string, y: nat)
    requires y < |Lines(text)| && |Lines(text)[y]| != |Lines(text)[0]|
    ensures ParseMap(text) == Err(MapParsingFailed)
  {
  }

  /** A grid without a marker, or with a second one, is rejected. */
  lemma ParseMarkerCountFails(text: string)
    requires MarkerCount(Lines(text)) != 1
    ensures ParseMap(text) == Err(MapParsingFailed)
  {
    var rows := Lines(text);
    ScanRowsFacts(rows);
    if rows != [] && Rectangular(rows) {
      var scanned := ScanRows(rows);
      if scanned.Ok? {
        var (g, obstacles) := scanned.value;
        assert g.None?;
      } else {
        var e := scanned.error;
        assert e == MapParsingFailed;
      }
    }
  }

  /** Once a prefix of the lines fails, the whole scan fails. */
  lemma {:induction false} ScanRowsErrPersists(rows: seq<string>, n: nat)
    requires n <= |rows| && ScanRows(rows[..n]).Err?
    ensures ScanRows(rows).Err?
    decreases |rows| - n
  {
    if n < |rows| {
      assert rows[..n + 1][..n] == rows[..n];
      ScanRowsErrPersists(rows, n + 1);
    } else {
      assert rows[..n] == rows;
    }
  }

  /** The parse loop as `day06.rs` writes it: a loop over the lines that
    * applies the four marker checks and collects the `#` cells. */
  method Scan(rows: seq<string>) returns (r: Result<(Option<Guard>, set<(nat, nat)>), Error>)
    ensures r == ScanRows(rows)
  {
    var obstacles: set<(nat, nat)> := {};
    var guard: Option<Guard> := None;
    var y := 0;
    while y < |rows|
      invariant 0 <= y <= |rows|
      invariant ScanRows(rows[..y]) == Ok((guard, obstacles))
    {
      assert rows[..y + 1][..y] == rows[..y];
      var line := rows[y];
      var markers := [('^', Up), ('>', Right), ('v', Down), ('<', Left)];
      var k := 0;
      var g := guard;
      while k < 4
        invariant 0 <= k <= 4
        invariant k == 0 ==> g == guard
        invariant k == 1 ==> CheckMarker(guard, line, y, '^', Up) == Ok(g)
        invariant k == 2 ==> (CheckMarker(guard, line, y, '^', Up).Ok? &&
          CheckMarker(CheckMarker(guard, line, y, '^', Up).value, line, y, '>', Right) == Ok(g))
        invariant k == 3 ==> (CheckMarker(guard, line, y, '^', Up).Ok? &&
          CheckMarker(CheckMarker(guard, line, y, '^', Up).value, line, y, '>', Right).Ok? &&
          CheckMarker(CheckMarker(CheckMarker(guard, line, y, '^', Up).value, line, y, '>', Right).value,
            line, y, 'v', Down) == Ok(g))
        invariant k == 4 ==> ScanLineGuard(guard, line, y) == Ok(g)
      {
        var (marker, o) := markers[k];
        var found := Find(line, [marker]);
        if g.None? && found.Some? {
          g := Some(Guard(o, (found.value, y)));
        } else if g.Some? && found.Some? {
          assert ScanLineGuard(guard, line, y).Err?;
          assert ScanRows(rows[..y + 1]).Err?;
          ScanRowsErrPersists(rows, y + 1);
          assert ScanRows(rows).Err?;
          var e := ScanRows(rows).error;
          assert e == MapParsingFailed;
          return Err(MapParsingFailed);
        }
        k := k + 1;
      }
      guard := g;
      var found: set<(nat, nat)> := {};
      var x := 0;
      while x < |line|
        invariant 0 <= x <= |line|
        invariant found == set j: nat | j < x && line[j] == '#' :: (j, y)
      {
        if line[x] == '#' {
          found := found + {(x, y)};
        }
        x := x + 1;
      }
      obstacles := obstacles + found;
      y := y + 1;
    }
    assert rows[..y] == rows;
    r := Ok((guard, obstacles));
  }

  // ---------------------------------------------------------------- walking

  /** One item of the iterator: the guard's cell and orientation. */
  type Item = (nat, nat, Orientation)

  predicate InSize(p: (nat, nat), size: (nat, nat))
  {
    p.0 < size.0 && p.1 < size.1
  }

  /** The guard after one call of `next`: it turns in front of an obstacle,
    * steps onto a free cell, and is gone once the cell ahead is off the map. */
  function NextGuard(guard: Option<Guard>, size: (nat, nat), obstacles: set<(nat, nat)>): Option<Guard>
    requires size.0 <= MachineInt.USIZE_MAX && size.1 <= MachineInt.USIZE_MAX
    requires guard.Some? ==> InSize(guard.value.position, size)
  {
    match guard
    case None => None
    case Some(g) =>
      match g.Peek()
      case Some(p) =>
        if InSize(p, size) then
          if p in obstacles then Some(g.Rotate()) else Some(g.Step())
        else None
      case None => None
  }

  /** The guard is either gone or on a free cell of the map. */
  predicate GuardInvariant(guard: Option<Guard>, size: (nat, nat), obstacles: set<(nat, nat)>)
  {
    guard.Some? ==> InSize(guard.value.position, size) && guard.value.position !in obstacles
  }

  predicate SizeFits(size: (nat, nat))
  {
    size.0 <= MachineInt.USIZE_MAX && size.1 <= MachineInt.USIZE_MAX
  }

  /** `next` keeps the guard on a free cell of the map. */
  lemma NextGuardKeepsInvariant(guard: Option<Guard>, size: (nat, nat), obstacles: set<(nat, nat)>)
    requires SizeFits(size) && GuardInvariant(guard, size, obstacles)
    ensures GuardInvariant(NextGuard(guard, size, obstacles), size, obstacles)
  {
  }

  /** The three outcomes of `next` for a present guard, and that a missing
    * guard stays missing. */
  lemma NextGuardCases(guard: Option<Guard>, size: (nat, nat), obstacles: set<(nat, nat)>)
    requires SizeFits(size) && GuardInvariant(guard, size, obstacles)
    ensures guard.None? ==> NextGuard(guard, size, obstacles).None?
    ensures guard.Some? ==>
      var g, next := guard.value, NextGuard(guard, size, obstacles);
      var ahead := (g.position.0 + Dx(g.orientation), g.position.1 + Dy(g.orientation));
      (ahead.0 < 0 || ahead.1 < 0 || !InSize((ahead.0, ahead.1), size) ==> next.None?) &&
      (0 <= ahead.0 && 0 <= ahead.1 && InSize((ahead.0, ahead.1), size) && (ahead.0, ahead.1) in obstacles ==>
         next == Some(Guard(Rotated(g.orientation), g.position))) &&
      (0 <= ahead.0 && 0 <= ahead.1 && InSize((ahead.0, ahead.1), size) && (ahead.0, ahead.1) !in obstacles ==>
         next == Some(Guard(g.orientation, (ahead.0, ahead.1))))
  {
  }

  /** The first `fuel` items of the iterator started from `guard`. */
  function Trace(guard: Option<Guard>, size: (nat, nat), obstacles: set<(nat, nat)>, fuel: nat): seq<Item>
    requires SizeFits(size) && GuardInvariant(guard, size, obstacles)
    decreases fuel
  {
    if fuel == 0 || guard.None? then []
    else
      NextGuardKeepsInvariant(guard, size, obstacles);
      var g := guard.value;
      [(g.position.0, g.position.1, g.orientation)] + Trace(NextGuard(guard, size, obstacles), size, obstacles, fuel - 1)
  }

  /** The guard after `n` calls of `next`. */
  function GuardAfter(guard: Option<Guard>, size: (nat, nat), obstacles: set<(nat, nat)>, n: nat): (r: Option<Guard>)
    requires SizeFits(size) && GuardInvariant(guard, size, obstacles)
    ensures GuardInvariant(r, size, obstacles)
    decreases n
  {
    if n == 0 then guard
    else
      NextGuardKeepsInvariant(guard, size, obstacles);
      GuardAfter(NextGuard(guard, size, obstacles), size, obstacles, n - 1)
  }

  lemma {:induction false} GuardAfterSnoc(guard: Option<Guard>, size: (nat, nat), obstacles: set<(nat, nat)>, n: nat)
    requires SizeFits(size) && GuardInvariant(guard, size, obstacles)
    ensures GuardAfter(guard, size, obstacles, n + 1) ==
      NextGuard(GuardAfter(guard, size, obstacles, n), size, obstacles)
    decreases n
  {
    if n > 0 {
      NextGuardKeepsInvariant(guard, size, obstacles);
      GuardAfterSnoc(NextGuard(guard, size, obstacles), size, obstacles, n - 1);
    }
  }

  lemma {:induction false} GuardAfterGone(size: (nat, nat), obstacles: set<(nat, nat)>, n: nat)
    requires SizeFits(size)
    ensures GuardAfter(None, size, obstacles, n).None?
    decreases n
  {
    if n > 0 {
      GuardAfterGone(size, obstacles, n - 1);
    }
  }

  /** Extending the trace by one call appends the item of the guard at that point. */
  lemma {:induction false} TraceSnoc(guard: Option<Guard>, size: (nat, nat), obstacles: set<(nat, nat)>, n: nat)
    requires SizeFits(size) && GuardInvariant(guard, size, obstacles)
    ensures var g := GuardAfter(guard, size, obstacles, n);
      Trace(guard, size, obstacles, n + 1) ==
        Trace(guard, size, obstacles, n) +
        (if g.Some? then [(g.value.position.0, g.value.position.1, g.value.orientation)] else [])
    decreases n
  {
    if guard.None? {
      GuardAfterGone(size, obstacles, n);
    } else if n > 0 {
      NextGuardKeepsInvariant(guard, size, obstacles);
      TraceSnoc(NextGuard(guard, size, obstacles), size, obstacles, n - 1);
    }
  }

  /** The item `next` emits for a present guard. */
  function ItemOf(g: Guard): Item
  {
    (g.position.0, g.position.1, g.orientation)
  }

  /** The i-th item of the trace is the guard after i calls. */
  lemma {:induction false} TraceAt(guard: Option<Guard>, size: (nat, nat), obstacles: set<(nat, nat)>, n: nat, i: nat)
    requires SizeFits(size) && GuardInvariant(guard, size, obstacles)
    requires i < |Trace(guard, size, obstacles, n)|
    ensures GuardAfter(guard, size, obstacles, i).Some?
    ensures Trace(guard, size, obstacles, n)[i] == ItemOf(GuardAfter(guard, size, obstacles, i).value)
    decreases n
  {
    NextGuardKeepsInvariant(guard, size, obstacles);
    if i > 0 {
      TraceAt(NextGuard(guard, size, obstacles), size, obstacles, n - 1, i - 1);
    }
  }

  /** The trace has one item per call as long as the guard is still there. */
  lemma {:induction false} TraceLength(guard: Option<Guard>, size: (nat, nat), obstacles: set<(nat, nat)>, n: nat)
    requires SizeFits(size) && GuardInvariant(guard, size, obstacles)
    requires n > 0 ==> GuardAfter(guard, size, obstacles, n - 1).Some?
    ensures |Trace(guard, size, obstacles, n)| == n
    decreases n
  {
    if n > 0 {
      if guard.None? {
        GuardAfterGone(size, obstacles, n - 1);
      }
      NextGuardKeepsInvariant(guard, size, obstacles);
      TraceLength(NextGuard(guard, size, obstacles), size, obstacles, n - 1);
    }
  }

  /** Every emitted position lies on a free cell of the map. */
  lemma {:induction false} TraceInside(guard: Option<Guard>, size: (nat, nat), obstacles: set<(nat, nat)>, fuel: nat)
    requires SizeFits(size) && GuardInvariant(guard, size, obstacles)
    ensures forall item :: item in Trace(guard, size, obstacles, fuel) ==>
      item.0 < size.0 && item.1 < size.1 && (item.0, item.1) !in obstacles
    decreases fuel
  {
    if fuel > 0 && guard.Some? {
      NextGuardKeepsInvariant(guard, size, obstacles);
      TraceInside(NextGuard(guard, size, obstacles), size, obstacles, fuel - 1);
    }
  }

  /** Once the guard is gone, the iterator yields nothing more. */
  lemma {:induction false} GoneStaysGone(guard: Option<Guard>, size: (nat, nat), obstacles: set<(nat, nat)>, n: nat, m: nat)
    requires SizeFits(size) && GuardInvariant(guard, size, obstacles)
    requires n <= m && GuardAfter(guard, size, obstacles, n).None?
    ensures GuardAfter(guard, size, obstacles, m).None?
    ensures Trace(guard, size, obstacles, m) == Trace(guard, size, obstacles, n)
    decreases m
  {
    if n < m {
      GoneStaysGone(guard, size, obstacles, n, m - 1);
      GuardAfterSnoc(guard, size, obstacles, m - 1);
      TraceSnoc(guard, size, obstacles, m - 1);
    }
  }

  /** The iterator of `day06.rs`: the map with a guard that `next` replaces. */
  class Map {
    var guard: Option<Guard>
    const size: (nat, nat)
    const obstacles: set<(nat, nat)>
    const iterations: nat

    ghost predicate Valid()
      reads this
    {
      SizeFits(size) && GuardInvariant(guard, size, obstacles)
    }

    constructor (p: Parsed)
      requires SizeFits(p.size) && GuardInvariant(p.guard, p.size, p.obstacles)
      ensures Valid()
      ensures guard == p.guard && size == p.size && obstacles == p.obstacles && iterations == p.iterations
    {
      guard := p.guard;
      size := p.size;
      obstacles := p.obstacles;
      iterations := p.iterations;
    }

    /** `next`: the current cell and orientation, then one move of the guard. */
    method Next() returns (item: Option<Item>)
      requires Valid()
      modifies this`guard
      ensures Valid()
      ensures item == if old(guard).None? then None
        else Some((old(guard).value.position.0, old(guard).value.position.1, old(guard).value.orientation))
      ensures guard == NextGuard(old(guard), size, obstacles)
    {
      if guard.None? {
        return None;
      }
      var g := guard.value;
      var (x, y) := g.position;
      var orientation := g.orientation;
      var ahead := g.Peek();
      if ahead.Some? && ahead.value.0 < size.0 && ahead.value.1 < size.1 {
        if ahead.value in obstacles {
          g := g.Rotate();
        } else {
          g := g.Step();
        }
        guard := Some(g);
      } else {
        guard := None;
      }
      item := Some((x, y, orientation));
    }
  }

  /** A parsed map fits the guard invariant: its guard stands on its marker,
    * which is inside the grid and not an obstacle. */
  lemma ParsedIsValid(text: string)
    requires ParseMap(text).Ok?
    ensures var p := ParseMap(text).value; GuardInvariant(p.guard, p.size, p.obstacles)
  {
    ParseMapResult(text);
    var rows, p := Lines(text), ParseMap(text).value;
    var (x, y) := p.guard.value.position;
    assert rows[y][x] != '#';
    assert Rectangular(rows);
  }

  /** `try_from` building the iterator. */
  method TryFrom(text: string) returns (r: Result<Map, Error>)
    requires forall line :: line in Lines(text) ==> |line| <= MachineInt.USIZE_MAX
    requires |Lines(text)| <= MachineInt.USIZE_MAX
    ensures r.Err? <==> ParseMap(text).Err?
    ensures r.Err? ==> r.error == ParseMap(text).error
    ensures r.Ok? ==> (fresh(r.value) && r.value.Valid() &&
      var p := ParseMap(text).value;
      r.value.guard == p.guard && r.value.size == p.size && r.value.obstacles == p.obstacles && r.value.iterations == 0)
  {
    var rows := Lines(text);
    if rows == [] {
      return Err(MapParsingFailed);
    }
    var width := |rows[0]|;
    if exists y :: 0 <= y < |rows| && |rows[y]| != width {
      return Err(MapParsingFailed);
    }
    var scanned := Scan(rows);
    if scanned.Err? {
      return Err(scanned.error);
    }
    var (guard, obstacles) := scanned.value;
    if guard.None? {
      return Err(MapParsingFailed);
    }
    ParsedIsValid(text);
    assert rows[0] in rows;
    var m := new Map(Parsed(guard, (width, |rows|), obstacles, 0));
    r := Ok(m);
  }

  /** The distinct cells of a trace. */
  function Positions(items: seq<Item>): set<(nat, nat)>
  {
    set i | 0 <= i < |items| :: (items[i].0, items[i].1)
  }

  lemma PositionsSnoc(items: seq<Item>, item: Item)
    ensures Positions(items + [item]) == Positions(items) + {(item.0, item.1)}
  {
    var t := items + [item];
    forall q | q in Positions(t) ensures q in Positions(items) + {(item.0, item.1)} {
      var i :| 0 <= i < |t| && q == (t[i].0, t[i].1);
      if i < |items| { assert t[i] == items[i]; }
    }
    forall q | q in Positions(items) ensures q in Positions(t) {
      var i :| 0 <= i < |items| && q == (items[i].0, items[i].1);
      assert t[i] == items[i];
    }
    assert t[|items|] == item;
  }

  /** `count_positions` with a bound on the number of `next` calls: the size of
    * the set of visited cells once the guard has left, `None` if it is still
    * on the map after `fuel` calls. */
  function CountWithin(p: Parsed, fuel: nat): Option<nat>
    requires SizeFits(p.size) && GuardInvariant(p.guard, p.size, p.obstacles)
  {
    if GuardAfter(p.guard, p.size, p.obstacles, fuel).None? then
      Some(|Positions(Trace(p.guard, p.size, p.obstacles, fuel))|)
    else None
  }

  /** `count_positions`: parse, then drain the iterator into a set of cells. */
  method CountPositions(text: string, fuel: nat) returns (r: Result<Option<nat>, Error>)
    requires forall line :: line in Lines(text) ==> |line| <= MachineInt.USIZE_MAX
    requires |Lines(text)| <= MachineInt.USIZE_MAX
    ensures ParseMap(text).Err? ==> r == Err(ParseMap(text).error)
    ensures ParseMap(text).Ok? ==>
      var p := ParseMap(text).value;
      SizeFits(p.size) && GuardInvariant(p.guard, p.size, p.obstacles) && r == Ok(CountWithin(p, fuel))
  {
    var parsed := TryFrom(text);
    if parsed.Err? {
      return Err(parsed.error);
    }
    var m := parsed.value;
    ghost var p := ParseMap(text).value;
    var seen: set<(nat, nat)> := {};
    var calls := 0;
    while calls < fuel && m.guard.Some?
      invariant 0 <= calls <= fuel
      invariant m.Valid()
      invariant m.size == p.size && m.obstacles == p.obstacles
      invariant m.guard == GuardAfter(p.guard, p.size, p.obstacles, calls)
      invariant seen == Positions(Trace(p.guard, p.size, p.obstacles, calls))
      decreases fuel - calls
    {
      TraceSnoc(p.guard, p.size, p.obstacles, calls);
      GuardAfterSnoc(p.guard, p.size, p.obstacles, calls);
      ghost var before := Trace(p.guard, p.size, p.obstacles, calls);
      var item := m.Next();
      seen := seen + {(item.value.0, item.value.1)};
      calls := calls + 1;
      assert Trace(p.guard, p.size, p.obstacles, calls) == before + [item.value];
      PositionsSnoc(before, item.value);
    }
    if m.guard.Some? {
      return Ok(None);
    }
    GoneStaysGone(p.guard, p.size, p.obstacles, calls, fuel);
    r := Ok(Some(|seen|));
  }
}
