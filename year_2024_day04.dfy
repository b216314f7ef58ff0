/**
 * 2024 day 4 (`year_2024/day04.rs`): a word search. The input is read as a
 * list of rows; a pattern is counted along rows (`match_indices`), down
 * columns, and along both diagonals, and the X-shaped pair of diagonal
 * matches is counted on its own. Every count is a `u32` that only goes up
 * by one window at a time.
 */
module Year2024Day04 {
  import opened Wrappers
  import MachineInt
  import RustText
  import UtilPosition

  /** `IntConversion` carries a `TryFromIntError`, whose contents are not
    * modelled. */
  datatype Error =
    | IntConversion
    | IntOverflow
    | MatrixIteration
    | MalformedMatrix
    | PatternTooLarge
    | PatternLengthMissmatch
    | Threading
    | Multiple(errors: seq<Error>)

  const U32_MAX: nat := MachineInt.U32_MAX

  /** `validate_pattern_matrix_combination`: a matrix without a first row is
    * malformed; a pattern longer than the first row, or longer than the
    * number of rows, is too large. */
  function Validate(pattern: string, matrix: seq<string>): Result<(), Error>
  {
    if |matrix| == 0 then Err(MalformedMatrix)
    else if |pattern| > |matrix[0]| || |pattern| > |matrix| then Err(PatternTooLarge)
    else Ok(())
  }

  /** Every row is at least as wide as the first: the columns of the first
    * row, which the searches walk, exist in every row. */
  predicate Wide(matrix: seq<string>)
  {
    forall r :: 0 <= r < |matrix| ==> |matrix[0]| <= |matrix[r]|
  }

  // Searching along rows

  /** `row.match_indices(pattern).count()`. */
  function RowMatches(pattern: string, row: string): nat
  {
    |RustText.MatchIndices(row, pattern)|
  }

  /** The matches in rows `i..`. */
  function RowsTotal(pattern: string, matrix: seq<string>, i: nat): nat
    requires i <= |matrix|
    decreases |matrix| - i
  {
    if i == |matrix| then 0 else RowMatches(pattern, matrix[i]) + RowsTotal(pattern, matrix, i + 1)
  }

  /** The `u32` loop over rows `i..` from `count` does not panic: every
    * `+=` fits, until a row whose count does not fit `u32` ends it. */
  predicate HorizontalFits(pattern: string, matrix: seq<string>, i: nat, count: nat)
    requires i <= |matrix|
    decreases |matrix| - i
  {
    i == |matrix| ||
    (var c := RowMatches(pattern, matrix[i]);
     c > U32_MAX || (count + c <= U32_MAX && HorizontalFits(pattern, matrix, i + 1, count + c)))
  }

  /** The loop over rows `i..` from `count`: each row's count is converted
    * to `u32` (`IntConversion` when it does not fit) and added. */
  function HorizontalFrom(pattern: string, matrix: seq<string>, i: nat, count: nat): Result<nat, Error>
    requires i <= |matrix| && HorizontalFits(pattern, matrix, i, count)
    decreases |matrix| - i
  {
    if i == |matrix| then Ok(count)
    else
      var c := RowMatches(pattern, matrix[i]);
      if c > U32_MAX then Err(IntConversion) else HorizontalFrom(pattern, matrix, i + 1, count + c)
  }

  /** What `count_horizontal_matches` returns. */
  function HorizontalCount(pattern: string, matrix: seq<string>): Result<nat, Error>
    requires Validate(pattern, matrix).Ok? ==> HorizontalFits(pattern, matrix, 0, 0)
  {
    match Validate(pattern, matrix)
    case Err(e) => Err(e)
    case Ok(_) => HorizontalFrom(pattern, matrix, 0, 0)
  }

  /** Some row from `i` on has more than `u32::MAX` matches. */
  predicate TooManyFrom(pattern: string, matrix: seq<string>, i: nat)
    requires i <= |matrix|
    decreases |matrix| - i
  {
    i < |matrix| && (RowMatches(pattern, matrix[i]) > U32_MAX || TooManyFrom(pattern, matrix, i + 1))
  }

  lemma {:induction false} TooManyFromMeaning(pattern: string, matrix: seq<string>, i: nat)
    requires i <= |matrix|
    ensures TooManyFrom(pattern, matrix, i) <==> exists r :: i <= r < |matrix| && RowMatches(pattern, matrix[r]) > U32_MAX
    decreases |matrix| - i
  {
    if i < |matrix| {
      TooManyFromMeaning(pattern, matrix, i + 1);
      if RowMatches(pattern, matrix[i]) <= U32_MAX && exists r :: i <= r < |matrix| && RowMatches(pattern, matrix[r]) > U32_MAX {
        var r :| i <= r < |matrix| && RowMatches(pattern, matrix[r]) > U32_MAX;
        assert i + 1 <= r;
      }
    }
  }

  /** The row loop fails exactly on a row with more than `u32::MAX`
    * matches, and otherwise adds every row's matches to `count`. */
  lemma {:induction false} HorizontalFromMeaning(pattern: string, matrix: seq<string>, i: nat, count: nat)
    requires i <= |matrix| && HorizontalFits(pattern, matrix, i, count)
    ensures HorizontalFrom(pattern, matrix, i, count) ==
      if exists r :: i <= r < |matrix| && RowMatches(pattern, matrix[r]) > U32_MAX then Err(IntConversion)
      else Ok(count + RowsTotal(pattern, matrix, i))
  {
    HorizontalFromTooMany(pattern, matrix, i, count);
    TooManyFromMeaning(pattern, matrix, i);
  }

  lemma {:induction false} HorizontalFromTooMany(pattern: string, matrix: seq<string>, i: nat, count: nat)
    requires i <= |matrix| && HorizontalFits(pattern, matrix, i, count)
    ensures HorizontalFrom(pattern, matrix, i, count) ==
      if TooManyFrom(pattern, matrix, i) then Err(IntConversion) else Ok(count + RowsTotal(pattern, matrix, i))
    decreases |matrix| - i
  {
    if i < |matrix| && RowMatches(pattern, matrix[i]) <= U32_MAX {
      HorizontalFromTooMany(pattern, matrix, i + 1, count + RowMatches(pattern, matrix[i]));
    }
  }

  /** A total that fits `u32` keeps the row loop from panicking. */
  lemma {:induction false} HorizontalFitsWhenTotalFits(pattern: string, matrix: seq<string>, i: nat, count: nat)
    requires i <= |matrix| && count + RowsTotal(pattern, matrix, i) <= U32_MAX
    ensures HorizontalFits(pattern, matrix, i, count)
    decreases |matrix| - i
  {
    if i < |matrix| {
      HorizontalFitsWhenTotalFits(pattern, matrix, i + 1, count + RowMatches(pattern, matrix[i]));
    }
  }

  /** `count_horizontal_matches`. */
  method CountHorizontalMatches(pattern: string, matrix: seq<string>) returns (r: Result<nat, Error>)
    requires Validate(pattern, matrix).Ok? ==> HorizontalFits(pattern, matrix, 0, 0)
    ensures r == HorizontalCount(pattern, matrix)
  {
    var valid := Validate(pattern, matrix);
    if valid.Err? {
      return Err(valid.error);
    }
    var count: nat := 0;
    for i: nat := 0 to |matrix|
      invariant HorizontalFits(pattern, matrix, i, count)
      invariant HorizontalFrom(pattern, matrix, i, count) == HorizontalFrom(pattern, matrix, 0, 0)
    {
      var c := |RustText.MatchIndices(matrix[i], pattern)|;
      if c > U32_MAX {
        return Err(IntConversion);
      }
      count := count + c;
    }
    return Ok(count);
  }

  // Searching in windows

  /** The pattern reads down column `j` from row `i`. */
  predicate VerticalAt(pattern: string, matrix: seq<string>, i: nat, j: nat)
  {
    i + |pattern| <= |matrix| &&
    forall k :: 0 <= k < |pattern| ==> j < |matrix[i + k]| && pattern[k] == matrix[i + k][j]
  }

  /** The pattern reads down and to the right from `(i, j)`. */
  predicate DownwardAt(pattern: string, matrix: seq<string>, i: nat, j: nat)
  {
    i + |pattern| <= |matrix| &&
    forall k :: 0 <= k < |pattern| ==> j + k < |matrix[i + k]| && pattern[k] == matrix[i + k][j + k]
  }

  /** The pattern reads up and to the right from the bottom-left corner of
    * the window whose top-left corner is `(i, j)`. */
  predicate UpwardAt(pattern: string, matrix: seq<string>, i: nat, j: nat)
  {
    i + |pattern| <= |matrix| &&
    forall k :: 0 <= k < |pattern| ==>
      j + k < |matrix[i + |pattern| - (k + 1)]| && pattern[k] == matrix[i + |pattern| - (k + 1)][j + k]
  }

  /** The four window searches: down a column, along either diagonal, and
    * the cross of an upward and a downward diagonal in the same window. */
  datatype Search =
    | Vertical(pattern: string)
    | Downward(pattern: string)
    | Upward(pattern: string)
    | Cross(up: string, down: string)

  /** The pattern that is validated against the matrix and sizes the
    * windows. */
  function Pattern(s: Search): string
  {
    match s
    case Vertical(p) => p
    case Downward(p) => p
    case Upward(p) => p
    case Cross(up, _) => up
  }

  /** A cross of two patterns of different lengths. */
  predicate Mismatched(s: Search)
  {
    match s
    case Cross(up, down) => |up| != |down|
    case _ => false
  }

  predicate MatchesAt(s: Search, matrix: seq<string>, i: nat, j: nat)
  {
    match s
    case Vertical(p) => VerticalAt(p, matrix, i, j)
    case Downward(p) => DownwardAt(p, matrix, i, j)
    case Upward(p) => UpwardAt(p, matrix, i, j)
    case Cross(up, down) => UpwardAt(up, matrix, i, j) && DownwardAt(down, matrix, i, j)
  }

  /** The windows of row `i` in columns `0..cols` that match. */
  function CountRow(s: Search, matrix: seq<string>, i: nat, cols: nat): nat
  {
    if cols == 0 then 0
    else CountRow(s, matrix, i, cols - 1) + (if MatchesAt(s, matrix, i, cols - 1) then 1 else 0)
  }

  /** The windows in rows `0..rows` and columns `0..cols` that match. */
  function CountGrid(s: Search, matrix: seq<string>, rows: nat, cols: nat): nat
  {
    if rows == 0 then 0 else CountGrid(s, matrix, rows - 1, cols) + CountRow(s, matrix, rows - 1, cols)
  }

  /** Whether the window with top-left corner `(i, j)` matches. */
  function Hit(s: Search, matrix: seq<string>): (nat, nat) -> bool
  {
    (i: nat, j: nat) => MatchesAt(s, matrix, i, j)
  }

  /** The windows in rows `0..rows` and columns `0..cols` that `hit`
    * accepts, as a set of top-left corners. */
  function Windows(rows: nat, cols: nat, hit: (nat, nat) -> bool): set<(nat, nat)>
  {
    set i: nat, j: nat | i < rows && j < cols && hit(i, j) :: (i, j)
  }

  function RowWindows(i: nat, cols: nat, hit: (nat, nat) -> bool): set<(nat, nat)>
  {
    set j: nat | j < cols && hit(i, j) :: (i, j)
  }

  /** The matching windows, as a set of top-left corners. */
  function Found(s: Search, matrix: seq<string>, rows: nat, cols: nat): set<(nat, nat)>
  {
    Windows(rows, cols, Hit(s, matrix))
  }

  function FoundInRow(s: Search, matrix: seq<string>, i: nat, cols: nat): set<(nat, nat)>
  {
    RowWindows(i, cols, Hit(s, matrix))
  }

  lemma {:induction false} CountRowIsFound(s: Search, matrix: seq<string>, i: nat, cols: nat)
    ensures CountRow(s, matrix, i, cols) == |FoundInRow(s, matrix, i, cols)|
  {
    if cols > 0 {
      CountRowIsFound(s, matrix, i, cols - 1);
      RowWindowsSnoc(i, cols, Hit(s, matrix));
    }
  }

  /** One more column adds its window to a row's windows when it is a hit. */
  lemma RowWindowsSnoc(i: nat, cols: nat, hit: (nat, nat) -> bool)
    requires cols > 0
    ensures |RowWindows(i, cols, hit)| == |RowWindows(i, cols - 1, hit)| + if hit(i, cols - 1) then 1 else 0
  {
    var before := RowWindows(i, cols - 1, hit);
    if hit(i, cols - 1) {
      assert RowWindows(i, cols, hit) == before + {(i, cols - 1)};
      assert (i, cols - 1) !in before;
    } else {
      assert RowWindows(i, cols, hit) == before;
    }
  }

  /** The count of a search is the number of windows it matches. */
  lemma {:induction false} CountGridIsFound(s: Search, matrix: seq<string>, rows: nat, cols: nat)
    ensures CountGrid(s, matrix, rows, cols) == |Found(s, matrix, rows, cols)|
  {
    if rows > 0 {
      CountGridIsFound(s, matrix, rows - 1, cols);
      CountRowIsFound(s, matrix, rows - 1, cols);
      WindowsSplit(rows, cols, Hit(s, matrix));
    }
  }

  /** The windows of `rows` rows are those of the rows above and those of
    * the last row, which are apart. */
  lemma WindowsSplit(rows: nat, cols: nat, hit: (nat, nat) -> bool)
    requires rows > 0
    ensures |Windows(rows, cols, hit)| == |Windows(rows - 1, cols, hit)| + |RowWindows(rows - 1, cols, hit)|
  {
    var above := Windows(rows - 1, cols, hit);
    var last := RowWindows(rows - 1, cols, hit);
    assert Windows(rows, cols, hit) == above + last;
    assert above * last == {};
  }

  lemma {:induction false} CountRowMonotone(s: Search, matrix: seq<string>, i: nat, a: nat, b: nat)
    requires a <= b
    ensures CountRow(s, matrix, i, a) <= CountRow(s, matrix, i, b)
    decreases b
  {
    if a < b {
      CountRowMonotone(s, matrix, i, a, b - 1);
    }
  }

  lemma {:induction false} CountGridMonotone(s: Search, matrix: seq<string>, a: nat, b: nat, cols: nat)
    requires a <= b
    ensures CountGrid(s, matrix, a, cols) <= CountGrid(s, matrix, b, cols)
    decreases b
  {
    if a < b {
      CountGridMonotone(s, matrix, a, b - 1, cols);
    }
  }

  /** A count taken part-way through the windows is at most the full count. */
  lemma CountBelowTotal(s: Search, matrix: seq<string>, i: nat, j: nat, rows: nat, cols: nat)
    requires i < rows && j < cols
    ensures CountGrid(s, matrix, i, cols) + CountRow(s, matrix, i, j + 1) <= CountGrid(s, matrix, rows, cols)
  {
    CountRowMonotone(s, matrix, i, j + 1, cols);
    CountGridMonotone(s, matrix, i + 1, rows, cols);
  }

  /** A cross is an upward match and a downward match in the same window,
    * so there are no more crosses than either. */
  lemma {:induction false} CrossAtMost(up: string, down: string, matrix: seq<string>, rows: nat, cols: nat)
    ensures CountGrid(Cross(up, down), matrix, rows, cols) <= CountGrid(Upward(up), matrix, rows, cols)
    ensures CountGrid(Cross(up, down), matrix, rows, cols) <= CountGrid(Downward(down), matrix, rows, cols)
  {
    CountGridIsFound(Cross(up, down), matrix, rows, cols);
    CountGridIsFound(Upward(up), matrix, rows, cols);
    CountGridIsFound(Downward(down), matrix, rows, cols);
    UtilPosition.SubsetCardinality(Found(Cross(up, down), matrix, rows, cols), Found(Upward(up), matrix, rows, cols));
    UtilPosition.SubsetCardinality(Found(Cross(up, down), matrix, rows, cols), Found(Downward(down), matrix, rows, cols));
  }

  /** The rows the windows start in: every row from which the pattern fits. */
  function WindowRows(s: Search, matrix: seq<string>): nat
    requires Validate(Pattern(s), matrix).Ok?
  {
    |matrix| - |Pattern(s)| + 1
  }

  /** The columns the windows start in: every column of the first row for a
    * vertical search, the ones from which the pattern fits for the others. */
  function WindowColumns(s: Search, matrix: seq<string>): nat
    requires Validate(Pattern(s), matrix).Ok?
  {
    match s
    case Vertical(_) => |matrix[0]|
    case _ => |matrix[0]| - |Pattern(s)| + 1
  }

  /** What the window counts return: `PatternLengthMissmatch` for a cross of
    * patterns of different lengths, the validation error, or the number of
    * matching windows. */
  function SearchCount(s: Search, matrix: seq<string>): Result<nat, Error>
  {
    if Mismatched(s) then Err(PatternLengthMissmatch)
    else
      match Validate(Pattern(s), matrix)
      case Err(e) => Err(e)
      case Ok(_) => Ok(CountGrid(s, matrix, WindowRows(s, matrix), WindowColumns(s, matrix)))
  }

  /** The count does not panic: the matching windows are at most
    * `u32::MAX`. */
  predicate SearchFits(s: Search, matrix: seq<string>)
  {
    SearchCount(s, matrix).Ok? ==> SearchCount(s, matrix).value <= U32_MAX
  }

  /** A window count is the number of top-left corners, among those from
    * which the pattern fits, where the search matches; it fails only for a
    * cross of unequal patterns, an empty matrix or a pattern too large. */
  lemma SearchCountMeaning(s: Search, matrix: seq<string>)
    ensures SearchCount(s, matrix) == Err(PatternLengthMissmatch) <==> Mismatched(s)
    ensures SearchCount(s, matrix) == Err(MalformedMatrix) <==> !Mismatched(s) && |matrix| == 0
    ensures SearchCount(s, matrix).Ok? ==>
      var p := Pattern(s);
      |matrix| > 0 && |p| <= |matrix| && |p| <= |matrix[0]| &&
      SearchCount(s, matrix).value ==
        |Found(s, matrix, |matrix| - |p| + 1, if s.Vertical? then |matrix[0]| else |matrix[0]| - |p| + 1)|
  {
    if SearchCount(s, matrix).Ok? {
      CountGridIsFound(s, matrix, WindowRows(s, matrix), WindowColumns(s, matrix));
    }
  }

  /** In a wide matrix, every cell of a window that starts in the first
    * row's columns exists. */
  lemma WindowCellsExist(matrix: seq<string>, len: nat, i: nat, j: nat)
    requires Wide(matrix) && 0 < |matrix| && i + len <= |matrix| && j + len <= |matrix[0]|
    ensures forall r :: i <= r < i + len ==> j + len <= |matrix[r]|
  {
  }

  /** `diagonally_downward_match`; it panics unless every cell of the
    * diagonal exists. */
  method DiagonallyDownwardMatch(pattern: string, matrix: seq<string>, startingRow: nat, startingColumn: nat)
    returns (b: bool)
    requires startingRow + |pattern| <= |matrix|
    requires forall r :: startingRow <= r < startingRow + |pattern| ==> startingColumn + (r - startingRow) < |matrix[r]|
    ensures b == DownwardAt(pattern, matrix, startingRow, startingColumn)
  {
    for k := 0 to |pattern|
      invariant forall k' :: 0 <= k' < k ==> pattern[k'] == matrix[startingRow + k'][startingColumn + k']
    {
      if pattern[k] != matrix[startingRow + k][startingColumn + k] {
        return false;
      }
    }
    return true;
  }

  /** `diagonally_upward_match`; it panics unless every cell of the
    * diagonal exists. */
  method DiagonallyUpwardMatch(pattern: string, matrix: seq<string>, startingRow: nat, startingColumn: nat)
    returns (b: bool)
    requires startingRow + |pattern| <= |matrix|
    requires forall r :: startingRow <= r < startingRow + |pattern| ==>
      startingColumn + (startingRow + |pattern| - 1 - r) < |matrix[r]|
    ensures b == UpwardAt(pattern, matrix, startingRow, startingColumn)
  {
    for k := 0 to |pattern|
      invariant forall k' :: 0 <= k' < k ==>
        pattern[k'] == matrix[startingRow + |pattern| - (k' + 1)][startingColumn + k']
    {
      if pattern[k] != matrix[startingRow + |pattern| - (k + 1)][startingColumn + k] {
        return false;
      }
    }
    return true;
  }

  /** `count_vertical_matches`: every column of every row from which the
    * pattern fits, compared cell by cell until the first difference. */
  method CountVerticalMatches(pattern: string, matrix: seq<string>) returns (r: Result<nat, Error>)
    requires Wide(matrix)
    ensures r == SearchCount(Vertical(pattern), matrix)
  {
    var valid := Validate(pattern, matrix);
    if valid.Err? {
      return Err(valid.error);
    }
    ghost var s := Vertical(pattern);
    var rows: nat, cols: nat := |matrix| - |pattern| + 1, |matrix[0]|;
    var count: nat := 0;
    for i: nat := 0 to rows
      invariant count == CountGrid(s, matrix, i, cols)
    {
      for j: nat := 0 to cols
        invariant count == CountGrid(s, matrix, i, cols) + CountRow(s, matrix, i, j)
      {
        var notMatched := false;
        for k := 0 to |pattern|
          invariant !notMatched ==> forall k' :: 0 <= k' < k ==> pattern[k'] == matrix[i + k'][j]
          invariant notMatched ==> !VerticalAt(pattern, matrix, i, j)
        {
          if pattern[k] != matrix[i + k][j] {
            notMatched := true;
            break;
          }
        }
        if !notMatched {
          count := count + 1;
        }
      }
    }
    return Ok(count);
  }

  /** `count_diagonal_downward`. */
  method CountDiagonalDownward(pattern: string, matrix: seq<string>) returns (r: Result<nat, Error>)
    requires Wide(matrix)
    ensures r == SearchCount(Downward(pattern), matrix)
  {
    var valid := Validate(pattern, matrix);
    if valid.Err? {
      return Err(valid.error);
    }
    ghost var s := Downward(pattern);
    var rows: nat, cols: nat := |matrix| - |pattern| + 1, |matrix[0]| - |pattern| + 1;
    var count: nat := 0;
    for i: nat := 0 to rows
      invariant count == CountGrid(s, matrix, i, cols)
    {
      for j: nat := 0 to cols
        invariant count == CountGrid(s, matrix, i, cols) + CountRow(s, matrix, i, j)
      {
        WindowCellsExist(matrix, |pattern|, i, j);
        var matched := DiagonallyDownwardMatch(pattern, matrix, i, j);
        if matched {
          count := count + 1;
        }
      }
    }
    return Ok(count);
  }

  /** `count_diagonal_upward`. */
  method CountDiagonalUpward(pattern: string, matrix: seq<string>) returns (r: Result<nat, Error>)
    requires Wide(matrix)
    ensures r == SearchCount(Upward(pattern), matrix)
  {
    var valid := Validate(pattern, matrix);
    if valid.Err? {
      return Err(valid.error);
    }
    ghost var s := Upward(pattern);
    var rows: nat, cols: nat := |matrix| - |pattern| + 1, |matrix[0]| - |pattern| + 1;
    var count: nat := 0;
    for i: nat := 0 to rows
      invariant count == CountGrid(s, matrix, i, cols)
    {
      for j: nat := 0 to cols
        invariant count == CountGrid(s, matrix, i, cols) + CountRow(s, matrix, i, j)
      {
        WindowCellsExist(matrix, |pattern|, i, j);
        var matched := DiagonallyUpwardMatch(pattern, matrix, i, j);
        if matched {
          count := count + 1;
        }
      }
    }
    return Ok(count);
  }

  /** The upward pattern, and then the downward one, in the window at
    * `(i, j)`. */
  method CrossMatch(pattern1: string, pattern2: string, matrix: seq<string>, i: nat, j: nat) returns (both: bool)
    requires Wide(matrix) && 0 < |matrix| && |pattern1| == |pattern2|
    requires i + |pattern1| <= |matrix| && j + |pattern1| <= |matrix[0]|
    ensures both == MatchesAt(Cross(pattern1, pattern2), matrix, i, j)
  {
    WindowCellsExist(matrix, |pattern1|, i, j);
    var up := DiagonallyUpwardMatch(pattern1, matrix, i, j);
    both := false;
    if up {
      both := DiagonallyDownwardMatch(pattern2, matrix, i, j);
    }
  }

  /** A cross of equal patterns that fit counts the windows from which they fit. */
  lemma CrossWindows(pattern1: string, pattern2: string, matrix: seq<string>)
    requires |pattern1| == |pattern2| && Validate(pattern1, matrix).Ok?
    ensures SearchCount(Cross(pattern1, pattern2), matrix) ==
      Ok(CountGrid(Cross(pattern1, pattern2), matrix, |matrix| - |pattern1| + 1, |matrix[0]| - |pattern1| + 1))
  {
  }

  /** The inner loop of `count_cross_pattern_match`, over the windows of row
    * `i`, adding to `count`. */
  method CountCrossRow(pattern1: string, pattern2: string, matrix: seq<string>, i: nat, cols: nat, count: nat)
    returns (r: nat)
    requires Wide(matrix) && 0 < |matrix| && |pattern1| == |pattern2|
    requires i + |pattern1| <= |matrix| && cols + |pattern1| <= |matrix[0]| + 1
    ensures r == count + CountRow(Cross(pattern1, pattern2), matrix, i, cols)
  {
    r := count;
    for j: nat := 0 to cols
      invariant r == count + CountRow(Cross(pattern1, pattern2), matrix, i, j)
    {
      var both := CrossMatch(pattern1, pattern2, matrix, i, j);
      if both {
        r := r + 1;
      }
    }
  }

  /** `count_cross_pattern_match`: `pattern1` upward and `pattern2`
    * downward in the same window. */
  method CountCrossPatternMatch(pattern1: string, pattern2: string, matrix: seq<string>) returns (r: Result<nat, Error>)
    requires Wide(matrix)
    ensures r == SearchCount(Cross(pattern1, pattern2), matrix)
  {
    if |pattern1| != |pattern2| {
      return Err(PatternLengthMissmatch);
    }
    var valid := Validate(pattern1, matrix);
    if valid.Err? {
      return Err(valid.error);
    }
    var count := CountCrossWindows(pattern1, pattern2, matrix);
    CrossWindows(pattern1, pattern2, matrix);
    return Ok(count);
  }

  /** The two loops of `count_cross_pattern_match`, over the windows from
    * which the patterns fit. */
  method CountCrossWindows(pattern1: string, pattern2: string, matrix: seq<string>) returns (count: nat)
    requires Wide(matrix) && |pattern1| == |pattern2| && Validate(pattern1, matrix).Ok?
    ensures count == CountGrid(Cross(pattern1, pattern2), matrix, |matrix| - |pattern1| + 1, |matrix[0]| - |pattern1| + 1)
  {
    var rows: nat, cols: nat := |matrix| - |pattern1| + 1, |matrix[0]| - |pattern1| + 1;
    count := 0;
    for i: nat := 0 to rows
      invariant count == CountGrid(Cross(pattern1, pattern2), matrix, i, cols)
    {
      count := CountCrossRow(pattern1, pattern2, matrix, i, cols, count);
    }
  }

  // Reading the input and adding up the counts

  /** `chars().rev().collect()`. */
  function Reversed(s: string): (r: string)
    ensures |r| == |s| && forall i :: 0 <= i < |s| ==> r[i] == s[|s| - 1 - i]
  {
    if |s| == 0 then "" else Reversed(s[1..]) + [s[0]]
  }

  lemma ReversedTwice(s: string)
    ensures Reversed(Reversed(s)) == s
  {
    assert forall i :: 0 <= i < |s| ==> Reversed(Reversed(s))[i] == s[i];
  }

  /** The backward patterns: `SAMX` and `SAM`. */
  lemma ReversedPatterns()
    ensures Reversed("XMAS") == "SAMX" && Reversed("MAS") == "SAM"
  {
  }

  /** Every row is as long as the first. */
  predicate Rectangular(rows: seq<string>)
  {
    forall r :: 0 <= r < |rows| ==> |rows[r]| == |rows[0]|
  }

  /** `convert_string_into_matrix`: the lines of the input, as long as there
    * is one and all have the length of the first. */
  function ConvertStringIntoMatrix(input: string): (r: Result<seq<string>, Error>)
    ensures r.Ok? <==> input != "" && Rectangular(RustText.Lines(input))
    ensures r.Ok? ==> r.value == RustText.Lines(input) && |r.value| > 0 && Wide(r.value)
    ensures r.Err? ==> r.error == MalformedMatrix
  {
    var v := RustText.Lines(input);
    if |v| == 0 then Err(MalformedMatrix)
    else if Rectangular(v) then Ok(v)
    else Err(MalformedMatrix)
  }

  /** `checked_add` on `u32`. */
  function CheckedAdd(a: nat, b: nat): Option<nat>
  {
    if a + b <= U32_MAX then Some(a + b) else None
  }

  /** The fold over the results does not panic: no `unwrap` of an error
    * while the sum is still `Some`. */
  predicate FoldDefined(results: seq<Result<nat, Error>>, acc: Option<nat>)
  {
    |results| == 0 || acc.None? ||
    (results[0].Ok? && FoldDefined(results[1..], CheckedAdd(acc.value, results[0].value)))
  }

  /** `fold(Some(0u32), …)` over the results. */
  function SumResults(results: seq<Result<nat, Error>>, acc: Option<nat>): Option<nat>
    requires FoldDefined(results, acc)
  {
    if |results| == 0 then acc
    else match acc
      case None => SumResults(results[1..], None)
      case Some(v) => SumResults(results[1..], CheckedAdd(v, results[0].value))
  }

  predicate AllOk(results: seq<Result<nat, Error>>)
  {
    forall i :: 0 <= i < |results| ==> results[i].Ok?
  }

  function Total(results: seq<Result<nat, Error>>): nat
    requires AllOk(results)
  {
    if |results| == 0 then 0 else results[0].value + Total(results[1..])
  }

  /** Once the sum has overflowed it stays `None`. */
  lemma {:induction false} SumResultsNone(results: seq<Result<nat, Error>>)
    requires FoldDefined(results, None)
    ensures SumResults(results, None) == None
  {
    if |results| > 0 {
      SumResultsNone(results[1..]);
    }
  }

  /** The fold from `Some(a)` gives `Some` exactly when every result is a
    * count and `a` plus their total fits `u32`, and then it is that sum. */
  lemma {:induction false} SumResultsMeaning(results: seq<Result<nat, Error>>, a: nat)
    requires a <= U32_MAX && FoldDefined(results, Some(a))
    ensures SumResults(results, Some(a)).Some? <==> AllOk(results) && a + Total(results) <= U32_MAX
    ensures SumResults(results, Some(a)).Some? ==> SumResults(results, Some(a)).value == a + Total(results)
  {
    if |results| > 0 {
      var c := CheckedAdd(a, results[0].value);
      if c.Some? {
        SumResultsMeaning(results[1..], c.value);
        assert AllOk(results) <==> AllOk(results[1..]) by {
          assert forall i :: 1 <= i < |results| ==> results[i] == results[1..][i - 1];
        }
      } else {
        SumResultsNone(results[1..]);
        if AllOk(results) {
          assert AllOk(results[1..]) by {
            assert forall i :: 0 <= i < |results| - 1 ==> results[1..][i] == results[i + 1];
          }
        }
      }
    }
  }

  /** The counts a run of `get_xmas_count` adds up, in the order of its
    * results: the main thread's downward `SAMX` search, then the seven
    * threads. */
  function XmasResults(matrix: seq<string>): seq<Result<nat, Error>>
    requires Validate("XMAS", matrix).Ok? ==> HorizontalFits("XMAS", matrix, 0, 0) && HorizontalFits("SAMX", matrix, 0, 0)
  {
    [SearchCount(Downward("SAMX"), matrix),
     HorizontalCount("XMAS", matrix), HorizontalCount("SAMX", matrix),
     SearchCount(Vertical("XMAS"), matrix), SearchCount(Vertical("SAMX"), matrix),
     SearchCount(Upward("XMAS"), matrix), SearchCount(Upward("SAMX"), matrix),
     SearchCount(Downward("XMAS"), matrix)]
  }

  /** `get_xmas_count` does not panic on this matrix: no count passes
    * `u32::MAX` by one, and no failed count is unwrapped. */
  predicate XmasFits(matrix: seq<string>)
  {
    (Validate("XMAS", matrix).Ok? ==> HorizontalFits("XMAS", matrix, 0, 0) && HorizontalFits("SAMX", matrix, 0, 0)) &&
    SearchFits(Downward("SAMX"), matrix) && SearchFits(Downward("XMAS"), matrix) &&
    SearchFits(Vertical("XMAS"), matrix) && SearchFits(Vertical("SAMX"), matrix) &&
    SearchFits(Upward("XMAS"), matrix) && SearchFits(Upward("SAMX"), matrix) &&
    FoldDefined(XmasResults(matrix), Some(0))
  }

  /** What `get_xmas_count` returns. */
  function XmasCount(input: string): Result<nat, Error>
    requires var m := ConvertStringIntoMatrix(input); m.Ok? ==> XmasFits(m.value)
  {
    match ConvertStringIntoMatrix(input)
    case Err(e) => Err(e)
    case Ok(matrix) =>
      match SumResults(XmasResults(matrix), Some(0))
      case None => Err(IntOverflow)
      case Some(v) => Ok(v)
  }

  /** `get_xmas_count`: the eight searches, `XMAS` and `SAMX` in each
    * direction, run one after the other, and their sum. */
  method GetXmasCount(input: string) returns (r: Result<nat, Error>)
    requires var m := ConvertStringIntoMatrix(input); m.Ok? ==> XmasFits(m.value)
    ensures r == XmasCount(input)
  {
    var forward := "XMAS";
    var backward := Reversed(forward);
    ReversedPatterns();
    var converted := ConvertStringIntoMatrix(input);
    if converted.Err? {
      return Err(converted.error);
    }
    var matrix := converted.value;
    var result := CountDiagonalDownward(backward, matrix);
    var h1 := CountHorizontalMatches(forward, matrix);
    var h2 := CountHorizontalMatches(backward, matrix);
    var v1 := CountVerticalMatches(forward, matrix);
    var v2 := CountVerticalMatches(backward, matrix);
    var u1 := CountDiagonalUpward(forward, matrix);
    var u2 := CountDiagonalUpward(backward, matrix);
    var d1 := CountDiagonalDownward(forward, matrix);
    var results := [result, h1, h2, v1, v2, u1, u2, d1];
    assert results == XmasResults(matrix);
    var sum := SumResults(results, Some(0));
    if sum.None? {
      return Err(IntOverflow);
    }
    return Ok(sum.value);
  }

  /** The count of `XMAS` is the total of the eight searches when each is a
    * count and the total fits `u32`; otherwise it is `IntOverflow`, or
    * `MalformedMatrix` for an input that is not a rectangle of lines. */
  lemma XmasCountMeaning(input: string)
    requires var m := ConvertStringIntoMatrix(input); m.Ok? ==> XmasFits(m.value)
    ensures XmasCount(input) == Err(MalformedMatrix) <==> ConvertStringIntoMatrix(input).Err?
    ensures XmasCount(input).Ok? <==>
      var m := ConvertStringIntoMatrix(input);
      m.Ok? && AllOk(XmasResults(m.value)) && Total(XmasResults(m.value)) <= U32_MAX
    ensures XmasCount(input).Ok? ==> XmasCount(input).value == Total(XmasResults(ConvertStringIntoMatrix(input).value))
  {
    var m := ConvertStringIntoMatrix(input);
    if m.Ok? {
      SumResultsMeaning(XmasResults(m.value), 0);
    }
  }

  /** The first search is unwrapped at once, so `get_xmas_count` panics on
    * a matrix with fewer than four rows or columns. */
  lemma XmasNeedsFourByFour(matrix: seq<string>)
    requires XmasFits(matrix)
    ensures |matrix| >= 4 && |matrix[0]| >= 4
  {
    assert XmasResults(matrix)[0].Ok?;
  }

  /** The counts a run of `get_crossed_mas_count` adds up: `MAS` upward
    * with `SAM` downward in the main thread, then the three threads. */
  function CrossedResults(matrix: seq<string>): seq<Result<nat, Error>>
  {
    [SearchCount(Cross("MAS", "SAM"), matrix), SearchCount(Cross("MAS", "MAS"), matrix),
     SearchCount(Cross("SAM", "SAM"), matrix), SearchCount(Cross("SAM", "MAS"), matrix)]
  }

  /** `get_crossed_mas_count` does not panic on this matrix. */
  predicate CrossedFits(matrix: seq<string>)
  {
    SearchFits(Cross("MAS", "SAM"), matrix) && SearchFits(Cross("MAS", "MAS"), matrix) &&
    SearchFits(Cross("SAM", "SAM"), matrix) && SearchFits(Cross("SAM", "MAS"), matrix) &&
    FoldDefined(CrossedResults(matrix), Some(0))
  }

  /** What `get_crossed_mas_count` returns. */
  function CrossedMasCount(input: string): Result<nat, Error>
    requires var m := ConvertStringIntoMatrix(input); m.Ok? ==> CrossedFits(m.value)
  {
    match ConvertStringIntoMatrix(input)
    case Err(e) => Err(e)
    case Ok(matrix) =>
      match SumResults(CrossedResults(matrix), Some(0))
      case None => Err(IntOverflow)
      case Some(v) => Ok(v)
  }

  /** `get_crossed_mas_count`: the four pairings of `MAS` and `SAM` on the
    * two diagonals of a three by three window, and their sum. */
  method GetCrossedMasCount(input: string) returns (r: Result<nat, Error>)
    requires var m := ConvertStringIntoMatrix(input); m.Ok? ==> CrossedFits(m.value)
    ensures r == CrossedMasCount(input)
  {
    var forward := "MAS";
    var backward := Reversed(forward);
    ReversedPatterns();
    var converted := ConvertStringIntoMatrix(input);
    if converted.Err? {
      return Err(converted.error);
    }
    var matrix := converted.value;
    var result := CountCrossPatternMatch(forward, backward, matrix);
    var c1 := CountCrossPatternMatch(forward, forward, matrix);
    var c2 := CountCrossPatternMatch(backward, backward, matrix);
    var c3 := CountCrossPatternMatch(backward, forward, matrix);
    var results := [result, c1, c2, c3];
    assert results == CrossedResults(matrix);
    var sum := SumResults(results, Some(0));
    if sum.None? {
      return Err(IntOverflow);
    }
    return Ok(sum.value);
  }

  /** The first pairing is unwrapped at once, so `get_crossed_mas_count`
    * panics on a matrix with fewer than three rows or columns; on a larger
    * one every pairing is a count. */
  lemma CrossedNeedsThreeByThree(matrix: seq<string>)
    requires CrossedFits(matrix)
    ensures |matrix| >= 3 && |matrix[0]| >= 3 && AllOk(CrossedResults(matrix))
  {
    assert CrossedResults(matrix)[0].Ok?;
  }

  /** The count of crossed `MAS` is the total of the four pairings when it
    * fits `u32`, `IntOverflow` when it does not, and `MalformedMatrix` for
    * an input that is not a rectangle of lines. */
  lemma CrossedMasCountMeaning(input: string)
    requires var m := ConvertStringIntoMatrix(input); m.Ok? ==> CrossedFits(m.value)
    ensures CrossedMasCount(input) == Err(MalformedMatrix) <==> ConvertStringIntoMatrix(input).Err?
    ensures CrossedMasCount(input).Ok? <==>
      var m := ConvertStringIntoMatrix(input);
      m.Ok? && AllOk(CrossedResults(m.value)) && Total(CrossedResults(m.value)) <= U32_MAX
    ensures CrossedMasCount(input).Ok? ==> CrossedMasCount(input).value == Total(CrossedResults(ConvertStringIntoMatrix(input).value))
  {
    var m := ConvertStringIntoMatrix(input);
    if m.Ok? {
      SumResultsMeaning(CrossedResults(m.value), 0);
    }
  }

  /** Two results combined as in the fold left commented out after
    * `get_xmas_count`: counts are added with `checked_add`, and errors are
    * passed on, gathered into `Multiple` when there are several. */
  function Combine(acc: Result<nat, Error>, res: Result<nat, Error>): Result<nat, Error>
  {
    match (acc, res)
    case (Ok(x), Ok(y)) => if x + y <= U32_MAX then Ok(x + y) else Err(IntOverflow)
    case (Err(x), Ok(_)) => Err(x)
    case (Ok(_), Err(y)) => Err(y)
    case (Err(x), Err(y)) =>
      if x.Multiple? && y.Multiple? then Err(Multiple(x.errors + y.errors))
      else if x.Multiple? then Err(Multiple(x.errors + [y]))
      else if y.Multiple? then Err(Multiple([x] + y.errors))
      else Err(Multiple([x, y]))
  }

  /** That fold over the results, from `acc`. */
  function CombineAll(results: seq<Result<nat, Error>>, acc: Result<nat, Error>): Result<nat, Error>
  {
    if |results| == 0 then acc else CombineAll(results[1..], Combine(acc, results[0]))
  }

  /** Once the fold holds an error it never returns a count. */
  lemma {:induction false} CombineAllErr(results: seq<Result<nat, Error>>, e: Error)
    ensures CombineAll(results, Err(e)).Err?
  {
    if |results| > 0 {
      var c := Combine(Err(e), results[0]);
      CombineAllErr(results[1..], c.error);
    }
  }

  /** The fold from `Ok(a)` returns a count exactly when every result is a
    * count and `a` plus their total fits `u32`, and then it is that sum. */
  lemma {:induction false} CombineAllMeaning(results: seq<Result<nat, Error>>, a: nat)
    requires a <= U32_MAX
    ensures CombineAll(results, Ok(a)).Ok? <==> AllOk(results) && a + Total(results) <= U32_MAX
    ensures CombineAll(results, Ok(a)).Ok? ==> CombineAll(results, Ok(a)).value == a + Total(results)
  {
    if |results| > 0 {
      var c := Combine(Ok(a), results[0]);
      assert AllOk(results) <==> results[0].Ok? && AllOk(results[1..]) by {
        assert forall i :: 1 <= i < |results| ==> results[i] == results[1..][i - 1];
      }
      if c.Ok? {
        CombineAllMeaning(results[1..], c.value);
      } else {
        CombineAllErr(results[1..], c.error);
      }
    }
  }

  /** `get_xmas_count` with that fold, as its authors evidently intend:
    * a failed search is returned as an error instead of unwrapped. */
  function IntendedXmasCount(input: string): Result<nat, Error>
    requires var m := ConvertStringIntoMatrix(input);
      m.Ok? ==> (Validate("XMAS", m.value).Ok? ==> HorizontalFits("XMAS", m.value, 0, 0) && HorizontalFits("SAMX", m.value, 0, 0))
  {
    match ConvertStringIntoMatrix(input)
    case Err(e) => Err(e)
    case Ok(matrix) => CombineAll(XmasResults(matrix), Ok(0))
  }

  /** The intended count is the total of the eight searches when each is a
    * count and the total fits `u32`; a matrix smaller than four by four
    * gives an error instead of a panic; and wherever `get_xmas_count`
    * returns a count the two agree. */
  lemma IntendedXmasCountMeaning(input: string)
    requires var m := ConvertStringIntoMatrix(input);
      m.Ok? ==> (Validate("XMAS", m.value).Ok? ==> HorizontalFits("XMAS", m.value, 0, 0) && HorizontalFits("SAMX", m.value, 0, 0))
    ensures IntendedXmasCount(input).Ok? <==>
      var m := ConvertStringIntoMatrix(input);
      m.Ok? && AllOk(XmasResults(m.value)) && Total(XmasResults(m.value)) <= U32_MAX
    ensures IntendedXmasCount(input).Ok? ==> IntendedXmasCount(input).value == Total(XmasResults(ConvertStringIntoMatrix(input).value))
    ensures var m := ConvertStringIntoMatrix(input);
      m.Ok? && (|m.value| < 4 || |m.value[0]| < 4) ==> IntendedXmasCount(input).Err?
    ensures var m := ConvertStringIntoMatrix(input);
      (m.Ok? ==> XmasFits(m.value)) && XmasCount(input).Ok? ==> IntendedXmasCount(input) == XmasCount(input)
  {
    var m := ConvertStringIntoMatrix(input);
    if m.Ok? {
      CombineAllMeaning(XmasResults(m.value), 0);
      if XmasFits(m.value) {
        XmasCountMeaning(input);
      }
    }
  }

  /** `get_crossed_mas_count` with the same fold. */
  function IntendedCrossedMasCount(input: string): Result<nat, Error>
  {
    match ConvertStringIntoMatrix(input)
    case Err(e) => Err(e)
    case Ok(matrix) => CombineAll(CrossedResults(matrix), Ok(0))
  }

  /** The intended count of crossed `MAS` is the total of the four pairings
    * when it fits `u32`; a matrix smaller than three by three gives an
    * error instead of a panic; and wherever `get_crossed_mas_count`
    * returns a count the two agree. */
  lemma IntendedCrossedMasCountMeaning(input: string)
    ensures IntendedCrossedMasCount(input).Ok? <==>
      var m := ConvertStringIntoMatrix(input);
      m.Ok? && AllOk(CrossedResults(m.value)) && Total(CrossedResults(m.value)) <= U32_MAX
    ensures IntendedCrossedMasCount(input).Ok? ==> IntendedCrossedMasCount(input).value == Total(CrossedResults(ConvertStringIntoMatrix(input).value))
    ensures var m := ConvertStringIntoMatrix(input);
      m.Ok? && (|m.value| < 3 || |m.value[0]| < 3) ==> IntendedCrossedMasCount(input).Err?
    ensures var m := ConvertStringIntoMatrix(input);
      (m.Ok? ==> CrossedFits(m.value)) && CrossedMasCount(input).Ok? ==> IntendedCrossedMasCount(input) == CrossedMasCount(input)
  {
    var m := ConvertStringIntoMatrix(input);
    if m.Ok? {
      CombineAllMeaning(CrossedResults(m.value), 0);
      if CrossedFits(m.value) {
        CrossedMasCountMeaning(input);
      }
    }
  }
}
