# Advent of Code solutions in Rust, modelled in Dafny

The modelled repository holds solutions to Advent of Code puzzles. Each
puzzle file parses a puzzle text and computes an answer from it: sums and
maxima over integers, strings, lists, grids or a directory tree. This
project models, in Dafny, the puzzle logic of these files together with
the two utility types they share:

- 2022, days 1 to 7: calorie groups, rock-paper-scissors scores, rucksack
  priorities, section ranges, crate stacks, the start-of-packet marker and
  directory sizes;
- 2023, day 1: calibration values;
- 2024, days 1 to 10: list distance and similarity, safe reports,
  `mul(X,Y)` instructions, the word search, page ordering, the guard
  patrol, calibration equations, antennas and antinodes, the disk map and
  the trail map;
- `util/matrix.rs`, a row-major matrix, and `util/position.rs`, a
  position in a grid.

There is one Dafny module per Rust file, named after its path
(`Year2024Day06` for `src/year_2024/day06.rs`, `UtilMatrix` for
`src/util/matrix.rs`). Three shared modules hold what Rust's standard
library provides:

- `Wrappers` holds `Option` and `Result`;
- `MachineInt` holds the integer widths;
- `RustText` holds the `str` operations the puzzles use: `lines`, `split`,
  `trim`, `split_whitespace`, `find` and integer parsing with its error
  kinds.

Code that computes a value is modelled as functions. Code that changes
state step by step is modelled as methods: loops over lines, the matrix's
writes and row iterators, the guard's `Map` iterator, the trail iterator,
the antinode iterators and the directory tree. Each method is proved
against a specification function, and the puzzles' unit tests appear as
lemmas about those functions. A panic in the Rust code becomes a
precondition of the member that models it. An integer overflow the code
checks becomes an error result, as it does in Rust.

## Model

| member | source | states |
|---|---|---|
| Wrappers.Collect | src/year_2024/day07/mod.rs:12-15 | `collect::<Result<Vec<_>, _>>()` is `Ok` exactly when every item is `Ok`, and then holds every item's value in order |
| Wrappers.CollectError | src/year_2024/day07/mod.rs:12-15 | a failed collect reports the error of the first `Err` item, every item before it being `Ok` |
| MachineInt.AsI32 | src/year_2022/day06.rs:9 | `n as i32` lies in the `i32` range, is `n` itself when `n` fits, and differs from `n` by a multiple of 2^32 |
| RustText.FindIsFirst | src/year_2024/day03.rs:43 | `str::find` reports an occurrence with no earlier occurrence, and `None` only when the pattern occurs nowhere |
| RustText.FindChar | src/year_2024/day03.rs:43 | finding a one-character pattern succeeds exactly when the character is in the text, at its first index |
| RustText.MatchIndicesMeaning | src/year_2024/day04.rs:42 | `match_indices` gives occurrences only, never overlapping, and every occurrence it skips starts inside a reported one |
| RustText.SplitJoin | src/year_2024/day05.rs:83 | joining the pieces of `split(sep)` with `sep` gives the text back |
| RustText.JoinSplit | src/year_2024/day05.rs:83 | splitting pieces joined by a one-character separator none of them contains gives the pieces back |
| RustText.SplitAroundOne | src/year_2024/day01.rs:8 | a text with exactly one separator splits into the two pieces around it |
| RustText.Lines | src/year_2024/day05.rs:99 | `lines()` of a text is empty exactly when the text is empty |
| RustText.LinesJoin | src/year_2024/day05.rs:99 | `lines()` undoes joining lines that hold no newline and end in no `\r` |
| RustText.LinesOfLine | src/year_2024/day05.rs:99 | a single line is its own only line, with or without a final newline |
| RustText.LinesCons | src/year_2024/day05.rs:99 | `lines()` of a line followed by a newline and more text is that line, then the lines of the rest |
| RustText.TrimStart | src/year_2022/day04.rs:26 | `trim_start` gives a suffix that is empty or starts with non-whitespace |
| RustText.TrimEnd | src/year_2022/day04.rs:26 | `trim_end` gives a prefix that is empty or ends with non-whitespace |
| RustText.TrimKeeps | src/year_2022/day04.rs:26 | `trim` leaves text unchanged when it neither starts nor ends with whitespace |
| RustText.SplitWhitespace | src/year_2022/day02.rs:62 | `split_whitespace` yields no empty word |
| RustText.SplitWhitespaceWord | src/year_2022/day02.rs:62 | leading whitespace, a word and whitespace-led rest split into that word followed by the words of the rest |
| RustText.SplitBlank | src/year_2022/day02.rs:62 | text of whitespace only has no words |
| RustText.ParseUnsignedBound | src/year_2024/day07/equation.rs:33 | `parse::<uN>()` never yields a value above the type's maximum |
| RustText.ParseOneChar | src/year_2024/day10/map.rs:29 | a one-character text parses exactly when it is a digit, to that digit's value |
| RustText.ParseUnsignedDigits | src/year_2024/day07/equation.rs:33 | a digit string parses to its decimal value when that fits the type, and fails with `PosOverflow` otherwise |
| RustText.ParseSignedNegative | src/year_2024/day01.rs:8 | a minus sign before digits parses to minus their value when that reaches no lower than the minimum, and fails with `NegOverflow` otherwise |
| RustText.ParseSignedDigits | src/year_2024/day01.rs:8 | a digit string parses as a signed number as it does as an unsigned one |
| RustText.ParseDecimal | src/year_2024/day07/checked_op.rs:23-25 | `n.to_string().parse()` gives `n` back whenever `n` fits |
| RustText.ParseSignedDecimal | src/year_2024/day07/checked_op.rs:23-25 | a plain decimal parses back to its value as a signed number too |
| RustText.Decimal | src/year_2024/day07/checked_op.rs:23 | `to_string()` of a non-negative number is a non-empty run of digits |
| RustText.DecimalValueOfDecimal | src/year_2024/day07/checked_op.rs:23 | the digits `to_string()` writes have the number's own value |
| RustText.DecimalValueAppend | src/year_2024/day07/checked_op.rs:23-25 | the value of two digit runs written one after the other is the first scaled by ten to the length of the second, plus the second |
| RustText.DigitChar | src/year_2024/day07/checked_op.rs:23 | the digit written for a value below ten is a digit of that value |
| UtilMatrix.Filled | src/util/matrix.rs:34-36 | `vec![initial_value; size]` holds `size` copies of the initial value |
| UtilMatrix.Matrix.Init | src/util/matrix.rs:34-42 | `Matrix::init` gives a matrix with the given shape and every cell set to the initial value |
| UtilMatrix.Matrix.FromSeq | src/util/matrix.rs:26-30 | a matrix built from a vector of the right length has that shape and keeps the vector as its row-major buffer |
| UtilMatrix.Matrix.RowCount | src/util/matrix.rs:52-54 | `row_count` is the number of rows |
| UtilMatrix.Matrix.ColCount | src/util/matrix.rs:56-58 | `col_count` is the number of columns |
| UtilMatrix.Matrix.Row | src/util/matrix.rs:86-92 | `m[i]` is a row of `columns` cells whose entry `j` is the cell `(i, j)` |
| UtilMatrix.Matrix.Set | src/util/matrix.rs:74-81 | a write through `m[(row, column)]` changes that cell to the value and no other cell |
| UtilMatrix.Matrix.SetRow | src/util/matrix.rs:96-102 | writing through `m[i]` changes row `i` to the values and leaves every other row alone |
| UtilMatrix.RowMajorInjective | src/util/matrix.rs:63-70 | distinct in-range cells have distinct row-major offsets |
| UtilMatrix.New | src/util/matrix.rs:18-20 | `Matrix::new` gives a matrix of the given shape holding the default value in every cell |
| UtilMatrix.FromVec | src/util/matrix.rs:22-32 | `from_vec` fails with `IncompatibleMatrixSize` exactly when the vector's length is not rows times columns, and otherwise keeps the vector as the buffer |
| UtilMatrix.RowsFlatten | src/util/matrix.rs:86-92 | the first `k` rows, laid end to end, are the first `k * columns` cells of the buffer |
| UtilMatrix.PrefixSnocRow | src/util/matrix.rs:86-92 | the buffer prefix of `k` rows is that of `k - 1` rows followed by row `k - 1` |
| UtilMatrix.RowIterator.constructor | src/util/matrix.rs:114-119 | `RowIterator::new` starts at row 0 of the matrix |
| UtilMatrix.RowIterator.Next | src/util/matrix.rs:124-132 | `next` yields the current row and moves on while rows remain, and `None` without moving after the last |
| UtilMatrix.RowIteratorMut.constructor | src/util/matrix.rs:141-146 | `RowIteratorMut::new` starts at row 0 of the matrix |
| UtilMatrix.RowIteratorMut.Next | src/util/matrix.rs:151-159 | `next` hands out the current row for writing and moves on while rows remain, and `None` after the last |
| UtilMatrix.NumberCells | src/util/matrix.rs:181-208 | writing `10 * i + j` through the mutable row iterator leaves cell `(i, j)` holding `10 * i + j` |
| UtilPosition.Cells | src/util/position.rs:10-12 | the cells of a size are exactly the positions `is_within_size` accepts |
| UtilPosition.RowCells | src/util/position.rs:10-12 | one row of a size holds exactly the positions with that `y` and an `x` below the width |
| UtilPosition.RowCellsCount | src/util/position.rs:10-12 | a row of a size holds `width` positions |
| UtilPosition.CellsCount | src/util/position.rs:10-12 | a size holds `width * height` positions |
| UtilPosition.BorderIsOutside | src/util/position.rs:10-12 | a position on the width or height line is not within the size |
| UtilPosition.BoundsCheckCases | src/util/position.rs:22-30 | the five `bounds_check` cases: only (3, 8) is within a 10 by 10 size, and nothing is within a 0 by 0 one |
| Year2022Day01.FirstBad | src/year_2022/day01.rs:17-25 | the index of the first line that is neither empty nor an `i32`; every line before it is readable |
| Year2022Day01.Groups | src/year_2022/day01.rs:17-24 | the item values of the lines, grouped between empty lines; there is always at least the open group |
| Year2022Day01.Sums | src/year_2022/day01.rs:25 | each group's total, group by group |
| Year2022Day01.MaxFrom0 | src/year_2022/day01.rs:15-21 | the largest total or 0: no total exceeds it, and it is 0 or one of the totals |
| Year2022Day01.StepEmpty | src/year_2022/day01.rs:18-23 | an empty line closes the open group, which replaces the best total when larger, and restarts the count at 0 |
| Year2022Day01.StepItem | src/year_2022/day01.rs:25 | an item line adds its value to the open group and leaves the best total alone |
| Year2022Day01.GetHighestCaloriesFromText | src/year_2022/day01.rs:14-28 | `get_highest_calories_from_text` returns `Highest`: the first parse error, or the best closed total, which is never negative |
| Year2022Day01.LoopEmpty | src/year_2022/day01.rs:18-23 | the loop's empty-line step moves its state to that of one more line |
| Year2022Day01.LoopItem | src/year_2022/day01.rs:25 | the loop's item step moves its state to that of one more line, and its `+=` stays within `i32` |
| Year2022Day01.LoopError | src/year_2022/day01.rs:25 | a line that is neither empty nor an `i32` makes the answer that line's parse error (the `?`) |
| Year2022Day01.FirstBadAt | src/year_2022/day01.rs:25 | an unreadable line no later than the first unreadable one is it |
| Year2022Day01.HighestOk | src/year_2022/day01.rs:27 | with every line readable, the answer is `Ok` of the best closed total |
| Year2022Day01.BestMeaning | src/year_2022/day01.rs:15-27 | the best total is the largest total of a group closed by an empty line, or 0 |
| Year2022Day01.HighestMeaning | src/year_2022/day01.rs:14-28 | a successful answer is the largest closed group total, or 0 when there is none or all are negative |
| Year2022Day01.HighestError | src/year_2022/day01.rs:25 | the answer is an error exactly when some line is neither empty nor an `i32`, and then it is the first such line's error |
| Year2022Day01.LastGroupIgnored | src/year_2022/day01.rs:17-27 | the group still open after the last line is never compared: more items at the end leave the answer unchanged |
| Year2022Day01.FirstBadAll | src/year_2022/day01.rs:17 | with every line readable, no line is unreadable |
| Year2022Day01.ScanFrom | src/year_2022/day01.rs:15-27 | the loop run as a fold from line `i`, from the state the first `i` lines leave, ends at the answer |
| Year2022Day01.ScanMeaning | src/year_2022/day01.rs:15-27 | the fold of the loop over all lines from `highest = 0`, `current = 0` is the answer |
| Year2022Day01.ScanAdvance | src/year_2022/day01.rs:17-25 | a readable line moves the fold on to the state one more line leaves |
| Year2022Day01.ScanStops | src/year_2022/day01.rs:25 | the fold stops at the first unreadable line, with that line's error |
| Year2022Day01.ParseFour | src/year_2022/day01.rs:25 | a line of four digits parses to their decimal value |
| Year2022Day01.ParseFive | src/year_2022/day01.rs:25 | a line of five digits parses to their decimal value |
| Year2022Day01.SampleScan | src/year_2022/day01.rs:35-49 | the loop over the test's fourteen lines ends with 24000 |
| Year2022Day01.SampleLines | src/year_2022/day01.rs:35-48 | the test text's `lines()` are its fourteen lines, the empty ones included |
| Year2022Day01.Sample | src/year_2022/day01.rs:34-50 | `example_list`: the test text gives 24000 |
| Year2022Day02.ShapeScore | src/year_2022/day02.rs:172-178 | `get_shape_score` gives 1 to 3 points for the shape |
| Year2022Day02.BeatsByScore | src/year_2022/day02.rs:137-170 | the rule the score table follows: a shape beats the one whose score is one below it, counted round three |
| Year2022Day02.GetScore | src/year_2022/day02.rs:137-170 | `get_score`: each side gets its shape score plus its outcome points (6 for a win, 3 for a draw, 0 for a loss) |
| Year2022Day02.ScoreOutcomes | src/year_2022/day02.rs:137-170 | each player gets 1 to 9 points, the outcome points add up to 6, the winner's outcome points are 6 and a draw gives both players 3 |
| Year2022Day02.ScoreCases | src/year_2022/day02.rs:260-276 | the nine `check_outcomes` cases |
| Year2022Day02.ScoreSymmetric | src/year_2022/day02.rs:137-170 | swapping the players swaps their points |
| Year2022Day02.ParseChoices1 | src/year_2022/day02.rs:59-92 | every `parse_choices1` error names the whole line |
| Year2022Day02.ParseChoices2 | src/year_2022/day02.rs:94-135 | every `parse_choices2` error names the whole line |
| Year2022Day02.ParseChoicesMeaning | src/year_2022/day02.rs:59-135 | both readings accept exactly the lines whose first two words are a letter A-C and a letter X-Z; they agree on the first shape, and for `parse_choices2`, X gives the losing shape, Y the same shape and Z the winning one |
| Year2022Day02.LetterReadings | src/year_2022/day02.rs:69-131 | each letter reads back as the shape or the outcome it stands for |
| Year2022Day02.SplitTwoLetters | src/year_2022/day02.rs:62 | whitespace followed by two one-letter words splits into those two words |
| Year2022Day02.ParseChoices1RoundTrip | src/year_2022/day02.rs:226-241 | a round written as its two letters reads back as that round (`correct_parse1`, for all nine) |
| Year2022Day02.ParseChoices2RoundTrip | src/year_2022/day02.rs:243-258 | a round written as the opponent's letter and the outcome's letter reads back as that round (`correct_parse2`, for all nine) |
| Year2022Day02.FirstBad | src/year_2022/day02.rs:41-42 | the first line that does not parse; every line before it parses |
| Year2022Day02.Rounds | src/year_2022/day02.rs:41-42 | the rounds parsed from lines that all parse, one per line |
| Year2022Day02.PointsSnoc | src/year_2022/day02.rs:43 | one more round adds its points to the running score |
| Year2022Day02.PointsBound | src/year_2022/day02.rs:43 | the running score of `n` rounds lies between `n` and `9n` for each player |
| Year2022Day02.ShortNoOverflow | src/year_2022/day02.rs:24-25 | fewer than `i32::MAX / 9` lines can never make the `+=` overflow |
| Year2022Day02.RoundsSnoc | src/year_2022/day02.rs:41-42 | a parsed line adds its round at the end |
| Year2022Day02.Play | src/year_2022/day02.rs:40-45 | the shared loop returns `Total`: the error of the first line that does not parse, or the sum of all rounds' points |
| Year2022Day02.FirstBadAt | src/year_2022/day02.rs:42 | the first line that does not parse decides the answer through the `?` |
| Year2022Day02.TotalOk | src/year_2022/day02.rs:45 | with every line parsed, the answer is the sum of the rounds' points |
| Year2022Day02.GetRockPaperScissorsScore1 | src/year_2022/day02.rs:37-46 | `get_rock_paper_scissors_score1` is `Total` under the shape reading |
| Year2022Day02.GetRockPaperScissorsScore2 | src/year_2022/day02.rs:48-57 | `get_rock_paper_scissors_score2` is `Total` under the outcome reading |
| Year2022Day02.TotalError | src/year_2022/day02.rs:41-45 | the answer is an error exactly when some line does not parse, and then it names the first such line |
| Year2022Day02.TotalOfRounds | src/year_2022/day02.rs:41-45 | lines whose rounds are all known score the points of those rounds |
| Year2022Day02.SampleLines | src/year_2022/day02.rs:186-188 | `TEST_STR` has three lines, the last two indented |
| Year2022Day02.SampleRound1 | src/year_2022/day02.rs:186 | "A Y" reads as (Rock, Paper) and as (Rock, Rock) |
| Year2022Day02.SampleRound2 | src/year_2022/day02.rs:187 | the indented "B X" reads as (Paper, Rock) both ways |
| Year2022Day02.SampleRound3 | src/year_2022/day02.rs:188 | the indented "C Z" reads as (Scissors, Scissors) and as (Scissors, Rock) |
| Year2022Day02.GuideTotals | src/year_2022/day02.rs:194-202 | `correct_sum1` and `correct_sum2`: `TEST_STR` gives the right player 15 under the shape reading and 12 under the outcome reading |
| Year2022Day02.ShapeGuideTotal | src/year_2022/day02.rs:194-197 | the sample rounds read as shapes score 15 for each player |
| Year2022Day02.OutcomeGuideTotal | src/year_2022/day02.rs:199-202 | the sample rounds read as outcomes score 15 and 12 |
| Year2022Day02.TwoLetterWord | src/year_2022/day02.rs:190 | "AY" is one two-letter word, which neither reading accepts |
| Year2022Day02.FaultyGuide | src/year_2022/day02.rs:204-224 | `parse_error1` and `parse_error2`: both functions report the line "AY" of `FAULTY_STR1` |
| Year2022Day03.FirstShared | src/year_2022/day03.rs:19-25 | the scan over the first half finds nothing exactly when no character of it occurs in the second half, and what it finds is in both halves |
| Year2022Day03.FirstSharedIsFirst | src/year_2022/day03.rs:19-24 | the character found is the earliest of the first half that the second half holds |
| Year2022Day03.FirstSharedAt | src/year_2022/day03.rs:19-24 | the first character of the first half that the second half holds is the one returned |
| Year2022Day03.DuplicateMeaning | src/year_2022/day03.rs:12-26 | `get_duplicate_from_halves` finds an item exactly when the line is non-empty, of even length, and some item of the first half is in the second; the item found is the earliest such one |
| Year2022Day03.GetDuplicateFromHalves | src/year_2022/day03.rs:12-26 | the loop returns `Duplicate(line)` |
| Year2022Day03.Priority | src/year_2022/day03.rs:28-36 | `get_priority`: `a`-`z` are 1-26, `A`-`Z` are 27-52, anything else 0 |
| Year2022Day03.PriorityOrder | src/year_2022/day03.rs:28-36 | letters rank lower case first, alphabetically within each case, so no two letters share a priority |
| Year2022Day03.PriorityCases | src/year_2022/day03.rs:49-57 | the `priority` test: p, L, P, v, t and s are worth 16, 38, 42, 22, 20 and 19 |
| Year2022Day03.Found | src/year_2022/day03.rs:3-4 | the item found in each trimmed line |
| Year2022Day03.Total | src/year_2022/day03.rs:2-9 | the sum of the priorities, between 0 and 52 per line, or nothing when an item is missing |
| Year2022Day03.PrioritySum | src/year_2022/day03.rs:1-10 | the answer over the lines, between 0 and 52 per line |
| Year2022Day03.TotalDefined | src/year_2022/day03.rs:4-6 | the total exists exactly when no item is missing |
| Year2022Day03.PrioritySumDefined | src/year_2022/day03.rs:1-10 | `get_priority_sum` is `Some` exactly when every trimmed line has a shared item |
| Year2022Day03.TotalStuck | src/year_2022/day03.rs:6 | once an item is missing, the `return None` decides the answer |
| Year2022Day03.TotalStep | src/year_2022/day03.rs:5 | one more line adds its item's priority to the running sum |
| Year2022Day03.ShortNoOverflow | src/year_2022/day03.rs:5 | fewer than `i32::MAX / 52` lines never make the `+=` overflow |
| Year2022Day03.GetPrioritySum | src/year_2022/day03.rs:1-10 | the loop returns `PrioritySum` of the input's lines |
| Year2022Day03.RucksackShares | src/year_2022/day03.rs:12-24 | a line written as two halves of equal length, neither with whitespace at the outer ends, has as its item the first character of the first half that the second half holds |
| Year2022Day03.SampleLines | src/year_2022/day03.rs:42-47 | each of the six test rucksacks is a line of its own |
| Year2022Day03.RowsSum | src/year_2022/day03.rs:1-10 | six lines whose items are p, L, P, v, t and s sum to 157, and the running sum stays within an `i32` |
| Year2022Day03.SampleTotal | src/year_2022/day03.rs:5 | the priorities of p, L, P, v, t and s add up to 157 |
| Year2022Day03.SampleSum | src/year_2022/day03.rs:59-62 | `get_sum`: `TEST_INPUT` gives 157 |
| Year2022Day04.ContainedMeaning | src/year_2022/day04.rs:38-41 | for ranges that hold sections, `is_range_contained` holds exactly when one range's sections are all the other's |
| Year2022Day04.OverlappingMeaning | src/year_2022/day04.rs:43-46 | for ranges that hold sections, `is_range_overlapping` holds exactly when they share a section |
| Year2022Day04.RangeTestsSymmetric | src/year_2022/day04.rs:38-46 | neither test depends on the order of the pair, and containment implies overlap |
| Year2022Day04.RangeTestCases | src/year_2022/day04.rs:71-101 | the `overlapping` and `contained` cases |
| Year2022Day04.EntryValues | src/year_2022/day04.rs:30-32 | the values of a part's `-`-separated entries, one per entry, or `None` at the first that is no `i32` |
| Year2022Day04.ReadParts | src/year_2022/day04.rs:28-34 | the ranges read from the parts, one per part, until a part's entry fails (`None`) or is missing (panic at `tmp[1]`) |
| Year2022Day04.ReadPartsStuck | src/year_2022/day04.rs:31-33 | a part that fails or panics decides the outcome of the whole line |
| Year2022Day04.ParseEntries | src/year_2022/day04.rs:29-32 | the inner loop returns `EntryValues` of the part split at `-` |
| Year2022Day04.PartStep | src/year_2022/day04.rs:29-33 | one more part: a bad entry ends the line with `None`, fewer than two entries panic, otherwise the range of the first two is appended |
| Year2022Day04.ParseRanges | src/year_2022/day04.rs:25-36 | `parse_ranges` of a line that does not panic returns the first two ranges of the trimmed line, or `None` |
| Year2022Day04.EntryValuesStuck | src/year_2022/day04.rs:31 | an entry that is no `i32` makes the whole part fail |
| Year2022Day04.ReadLines | src/year_2022/day04.rs:5-6 | `parse_ranges` applied to every line, in order |
| Year2022Day04.Outcomes | src/year_2022/day04.rs:5-6 | the outcome of `parse_ranges` on every line, in order |
| Year2022Day04.Count | src/year_2022/day04.rs:4-11 | the number of pairs passing the test, at most one per line, or `None` once a line does not parse |
| Year2022Day04.CountDefined | src/year_2022/day04.rs:6 | the count has a value exactly when every line parses |
| Year2022Day04.CountStuck | src/year_2022/day04.rs:6 | a line that does not parse makes the answer `None` through the `?` |
| Year2022Day04.CountStep | src/year_2022/day04.rs:6-9 | one more line adds one exactly when its pair passes |
| Year2022Day04.ContainedAtMostOverlapping | src/year_2022/day04.rs:3-23 | both counts are defined on the same inputs, and there are never more contained pairs than overlapping ones |
| Year2022Day04.Stop | src/year_2022/day04.rs:5-6 | the first line that does not parse; every line before it parses |
| Year2022Day04.CountGrows | src/year_2022/day04.rs:8 | counting further never lowers the count |
| Year2022Day04.ShortNoOverflow | src/year_2022/day04.rs:8 | up to `i32::MAX` lines never make `sum += 1` overflow |
| Year2022Day04.LineStep | src/year_2022/day04.rs:6-9 | the loop's step: a line that does not parse ends the count with `None`, otherwise the count grows by one when the pair passes and stays within an `i32` |
| Year2022Day04.CountBelowReached | src/year_2022/day04.rs:4-10 | before the first bad line, the running count never exceeds the final one |
| Year2022Day04.CountPairs | src/year_2022/day04.rs:4-11 | the shared loop returns `Count` of the lines' outcomes |
| Year2022Day04.GetContainedPairCount | src/year_2022/day04.rs:3-12 | `get_contained_pair_count` is the count of contained pairs |
| Year2022Day04.GetOverlappingPairCount | src/year_2022/day04.rs:14-23 | `get_overlapping_pair_count` is the count of overlapping pairs |
| Year2022Day04.ReadRange | src/year_2022/day04.rs:30-33 | two numbers joined by `-` read as the range between them |
| Year2022Day04.ReadRow | src/year_2022/day04.rs:25-36 | a line `a-b,c-d` of four `i32` numbers reads as the pair of ranges |
| Year2022Day04.ParseRangesRoundTrip | src/year_2022/day04.rs:25-36 | writing a pair of ranges and parsing it back gives the pair |
| Year2022Day04.RowIsLine | src/year_2022/day04.rs:5 | a written row is a line of its own |
| Year2022Day04.CountSix | src/year_2022/day04.rs:4-11 | the count of six parsed lines is the number of them that pass |
| Year2022Day04.SampleLines | src/year_2022/day04.rs:54-59 | the six lines of `TEST_INPUT` |
| Year2022Day04.SampleTally | src/year_2022/day04.rs:61-69 | the six sample pairs hold 2 contained and 4 overlapping pairs, with no panic and no overflow |
| Year2022Day04.SampleCounts | src/year_2022/day04.rs:61-69 | `contained_count` and `overlapping_count`: `TEST_INPUT` gives `Some(2)` and `Some(4)` |
| Year2022Day05.KeysMeaning | src/year_2022/day05.rs:75-77 | the index line gives keys exactly when every word is an `i32`, and the keys are the set of those numbers |
| Year2022Day05.KeysStuck | src/year_2022/day05.rs:76 | a word that is no `i32` makes `parse_stacks` return `None` through the `?` |
| Year2022Day05.EmptyStacks | src/year_2022/day05.rs:75-77 | one empty stack per key of the index line |
| Year2022Day05.Crates | src/year_2022/day05.rs:79-82 | `chars().skip(1).step_by(4)` visits the characters at positions 1, 5, 9, …, one per column |
| Year2022Day05.PushRow | src/year_2022/day05.rs:82-86 | a row pushes the letter of column `i` onto stack `i + 1` and changes no key |
| Year2022Day05.Stacked | src/year_2022/day05.rs:78-87 | each stack gets its column's letters on top, bottom row first, and no key changes |
| Year2022Day05.FillDefined | src/year_2022/day05.rs:84 | filling the stacks succeeds exactly when every letter of every row has a stack |
| Year2022Day05.StackedStep | src/year_2022/day05.rs:73-78 | pushing the bottom row, then the rows above it, stacks all the rows in the order of `iter().rev()` |
| Year2022Day05.FillValue | src/year_2022/day05.rs:78-87 | a fill that succeeds puts each column's letters, bottom row first, on top of its stack |
| Year2022Day05.StacksMeaning | src/year_2022/day05.rs:71-89 | `parse_stacks` is `None` for no lines, an index word that is no `i32`, or a letter without a stack; otherwise one stack per number holding its column's letters bottom first |
| Year2022Day05.PushStep | src/year_2022/day05.rs:82-85 | one more column puts its letter, if any, onto stack `i + 1` |
| Year2022Day05.CellStep | src/year_2022/day05.rs:82-85 | column `i` adds its letter to stack `i + 1` only |
| Year2022Day05.PushCrates | src/year_2022/day05.rs:79-86 | the inner loop pushes the row's letters when every one has a stack, and returns `None` otherwise |
| Year2022Day05.FillStep | src/year_2022/day05.rs:78-87 | one more row of the drawing, on top of the rows below it |
| Year2022Day05.ParseStacks | src/year_2022/day05.rs:71-89 | `parse_stacks` returns `Stacks(lines)` |
| Year2022Day05.Literal | src/year_2022/day05.rs:52 | a literal piece of the expression matches a prefix and leaves the rest |
| Year2022Day05.Digits | src/year_2022/day05.rs:52 | a `\d+` group takes the whole run of digits the text starts with |
| Year2022Day05.MoveAt | src/year_2022/day05.rs:52 | a match of `move (\d+) from (\d+) to (\d+)` at the start of the text spells out its three digit groups |
| Year2022Day05.MoveAtSpelling | src/year_2022/day05.rs:52 | every instruction text is matched at the start, with its own three groups, whatever non-digit text follows |
| Year2022Day05.FirstMatchMeaning | src/year_2022/day05.rs:54-55 | the leftmost match is a match with none further left, and there is none only when no match starts anywhere |
| Year2022Day05.FirstMove | src/year_2022/day05.rs:55 | `captures_iter(line).next()` gives three digit groups |
| Year2022Day05.BadNumberMeaning | src/year_2022/day05.rs:58-60 | a matching line stops the parse exactly when one of its groups exceeds `i32::MAX` |
| Year2022Day05.Gather | src/year_2022/day05.rs:53-68 | the instructions read from the lines, at most one per line, or `None` once a line stops the parse |
| Year2022Day05.GatherDefined | src/year_2022/day05.rs:53-68 | the instructions exist exactly when no line stops the parse |
| Year2022Day05.GatherStuck | src/year_2022/day05.rs:58-60 | a line that stops the parse makes the answer `None` |
| Year2022Day05.GatherAppend | src/year_2022/day05.rs:53-67 | the instructions of two blocks of lines are those of the first followed by those of the second |
| Year2022Day05.GatherStep | src/year_2022/day05.rs:53-67 | one more line adds its instruction, skips it, or stops the parse |
| Year2022Day05.ReadMoveSpelling | src/year_2022/day05.rs:54-65 | an instruction written out with `i32` values reads back as that instruction |
| Year2022Day05.ParseInstructions | src/year_2022/day05.rs:50-69 | `parse_instructions` returns `Instructions(lines)` |
| Year2022Day05.SplitIndex | src/year_2022/day05.rs:35-41 | the split index lies within the lines |
| Year2022Day05.SplitIndexMeaning | src/year_2022/day05.rs:35-41 | the split is at the last empty line, and at 0 when no line is empty |
| Year2022Day05.ProblemNeedsSplit | src/year_2022/day05.rs:33-48 | a problem is read only from an input with an empty line after at least one other line |
| Year2022Day05.ParseInput | src/year_2022/day05.rs:33-48 | `parse_input` of a non-empty input returns `ParsedProblem` of its lines |
| Year2022Day05.TopString | src/year_2022/day05.rs:21-30 | `get_top_string` as written: the tops of stacks 0 to n - 1, in order, and `None` when one is missing or empty |
| Year2022Day05.GetTopString | src/year_2022/day05.rs:21-30 | the loop and fold return `TopString` |
| Year2022Day05.TopStringMissesStackZero | src/year_2022/day05.rs:21-84 | stacks numbered from 1, as `parse_stacks` numbers them, never have a top string: there is no stack 0 |
| Year2022Day05.TopsFromOne | src/year_2022/day05.rs:21-30 | the tops of stacks 1 to n, in order, and `None` when one is missing or empty |
| Year2022Day05.Numbers | src/year_2022/day05.rs:98 | the numbers 1 to n, n of them |
| Year2022Day05.TopsFromOneMeaning | src/year_2022/day05.rs:21-30 | for stacks numbered 1 to n the tops exist exactly when no stack is empty, and are read in stack order |
| Year2022Day05.GetTopCrates | src/year_2022/day05.rs:4-7 | `get_top_crates` returns `Some("")` whatever the input |
| Year2022Day05.GatherMoves | src/year_2022/day05.rs:53-67 | lines that are all instructions give all of them, in order |
| Year2022Day05.ReadSmallMove | src/year_2022/day05.rs:54-65 | an instruction of one-digit numbers reads back as that instruction |
| Year2022Day05.SampleInstructions | src/year_2022/day05.rs:110-120 | `parse_instructions_test`: the sample's last four lines give four instructions, (1, 2, 1), (3, 1, 3), (2, 2, 1) and (1, 1, 2) |
| Year2022Day05.SampleIndex | src/year_2022/day05.rs:98 | the index line ` 1   2   3 ` names stacks 1, 2 and 3 |
| Year2022Day05.SampleRows | src/year_2022/day05.rs:95-97 | the sample's crate rows fit stacks 1 to 3, and their columns read "ZN", "MCD" and "P" from the bottom |
| Year2022Day05.StacksOf | src/year_2022/day05.rs:71-89 | a drawing whose rows all fit gives one stack per key, holding its column |
| Year2022Day05.SampleStacks | src/year_2022/day05.rs:122-136 | `parse_stacks_test`: the sample's stacks are 1 ↦ "ZN", 2 ↦ "MCD" and 3 ↦ "P", of 2, 3 and 1 crates |
| Year2022Day05.SampleTopString | src/year_2022/day05.rs:21-25 | the sample's stacks have no top string as `get_top_string` is written |
| Year2022Day05.SampleTopsFromOne | src/year_2022/day05.rs:95-98 | the tops of the sample's stacks 1 to 3 read "NDP" |
| Year2022Day05.MoveOne | src/year_2022/day05.rs:9-13 | the crane lifting one crate: it exists exactly when both stacks exist and the source is not empty, and keeps the set of stacks |
| Year2022Day05.MoveCratesMeaning | src/year_2022/day05.rs:9-13 | an instruction between two distinct stacks takes `amount` crates off the top of the source and puts them on the destination in reverse order, leaves every other stack alone, and fails exactly when a stack is missing or the source has fewer crates |
| Year2022Day05.SampleMove | src/year_2022/day05.rs:100-103 | one instruction of the sample on three stacks, with both states written out |
| Year2022Day05.SampleMoves | src/year_2022/day05.rs:100-103 | the stacks after each of the sample's four instructions, ending with C, M and PDNZ |
| Year2022Day05.SampleTopsCMZ | src/year_2022/day05.rs:105-108 | the tops of those stacks read "CMZ" |
| Year2022Day05.SampleTopCrates | src/year_2022/day05.rs:105-108 | test `top_crates`: carried out on the sample's stacks, its four instructions leave "CMZ" on top, the answer `get_top_crates` does not give |
| Year2022Day05.FitsStep | src/year_2022/day05.rs:82-86 | one more column of a row fits exactly when the columns before it fit and its letter, if any, has a stack; otherwise `map.get_mut(&(i as i32 + 1))?` returns `None` |
| Year2022Day06.AreUniqueChars | src/year_2022/day06.rs:15-23 | `are_unique_chars` is true exactly when no character of the input occurs twice |
| Year2022Day06.Window | src/year_2022/day06.rs:8 | `input[i - 3..=i]` is the four characters ending at index `i` |
| Year2022Day06.MarkerFrom | src/year_2022/day06.rs:7-12 | a marker found from index `i` on counts more than `i` characters and no more than the input has |
| Year2022Day06.MarkerFromMeaning | src/year_2022/day06.rs:7-12 | the scan from `i` stops at the first window of four different characters, and finds nothing exactly when no window from `i` on is such |
| Year2022Day06.MarkerMeaning | src/year_2022/day06.rs:3-12 | the marker counts at least four characters and at most the input's length; the four characters before it are all different and no earlier four are; there is none exactly when no window is |
| Year2022Day06.GetStartMarker | src/year_2022/day06.rs:3-13 | `get_start_marker` returns the marker, cast to `i32`, or `None` when there is none (including inputs shorter than four) |
| Year2022Day06.Repeat | src/year_2022/day06.rs:8 | a window with a repeated character is passed over |
| Year2022Day06.Hit | src/year_2022/day06.rs:8-9 | a window of four different characters is the marker, `i + 1` |
| Year2022Day06.SampleUnique | src/year_2022/day06.rs:47-52 | test `unique`: "bbbbbb" and "56as96d" repeat a character, "abcde" does not |
| Year2022Day06.SampleMarker1 | src/year_2022/day06.rs:31-42 | "mjqjpqmgbljsphdztnvjfqwrcgsmlb" has its marker at 7 |
| Year2022Day06.Marker1 | src/year_2022/day06.rs:31 | any input starting "mjqjpqm" has its marker at 7 |
| Year2022Day06.SampleMarker2 | src/year_2022/day06.rs:32-42 | "bvwbjplbgvbhsrlpgdmjqwftvncz" has its marker at 5 |
| Year2022Day06.Marker2 | src/year_2022/day06.rs:32 | any input starting "bvwbj" has its marker at 5 |
| Year2022Day06.SampleMarker3 | src/year_2022/day06.rs:33-42 | "nppdvjthqldpwncqszvftbrmjlhg" has its marker at 6 |
| Year2022Day06.Marker3 | src/year_2022/day06.rs:33 | any input starting "nppdvj" has its marker at 6 |
| Year2022Day06.SampleMarker4 | src/year_2022/day06.rs:34-42 | "nznrnfrfntjfmvfwmzdfjlvtqnbhcprsg" has its marker at 10 |
| Year2022Day06.Marker4 | src/year_2022/day06.rs:34 | any input starting "nznrnfrfnt" has its marker at 10 |
| Year2022Day06.Marker4Start | src/year_2022/day06.rs:34 | on such an input the windows ending at 3 to 5 repeat a character |
| Year2022Day06.SampleMarker5 | src/year_2022/day06.rs:35-42 | "zcfzfwzzqfrljwzlrfnpqdbhtmscgvjw" has its marker at 11 |
| Year2022Day06.Marker5 | src/year_2022/day06.rs:35 | any input starting "zcfzfwzzqfr" has its marker at 11 |
| Year2022Day06.Marker5Start | src/year_2022/day06.rs:35 | on such an input the windows ending at 3 to 6 repeat a character |
| Year2022Day06.Marker5Head | src/year_2022/day06.rs:35 | on such an input the windows ending at 3 and 4 repeat a character |
| Year2022Day06.SampleNoMarker | src/year_2022/day06.rs:43-44 | "" and "abcabc" have no marker |
| Year2022Day07.CheckedAdd | src/year_2022/day07.rs:45-48 | `checked_add` gives the sum exactly when it fits a 64-bit `usize` |
| Year2022Day07.AccumulateSome | src/year_2022/day07.rs:44-49 | with every term present, the accumulated `checked_add`s give the plain sum when it fits a `usize`, and `None` otherwise |
| Year2022Day07.AccumulateNone | src/year_2022/day07.rs:45 | one missing term makes the accumulation `None`, through the `?` |
| Year2022Day07.AccumulateBound | src/year_2022/day07.rs:44-49 | terms present exactly when they fit a `usize` accumulate to the plain sum when it fits, and to `None` otherwise |
| Year2022Day07.SumElement | src/year_2022/day07.rs:42-51 | no term exceeds the sum |
| Year2022Day07.SumSnoc | src/year_2022/day07.rs:47-49 | adding one more term at the end adds its value |
| Year2022Day07.SumConcat | src/year_2022/day07.rs:44-49 | summing the directories and then the files is summing both runs |
| Year2022Day07.FileSizes | src/year_2022/day07.rs:47-49 | the file sizes, one per file, in order |
| Year2022Day07.Present | src/year_2022/day07.rs:48 | file sizes always give a term: a file's size is never missing |
| Year2022Day07.ChildTotals | src/year_2022/day07.rs:44-46 | one true size per child directory |
| Year2022Day07.ChildSizes | src/year_2022/day07.rs:45 | one `get_size` per child directory |
| Year2022Day07.SizeMeaning | src/year_2022/day07.rs:42-51 | `get_size` is the true size of the directory, all its files at every depth, when that fits a `usize`, and `None` otherwise |
| Year2022Day07.EmptySize | src/year_2022/day07.rs:42-51 | an empty directory has size 0 |
| Year2022Day07.ChildTotalBound | src/year_2022/day07.rs:44-46 | a child directory is never larger than its parent |
| Year2022Day07.GetSize | src/year_2022/day07.rs:42-51 | the two loops with early exits compute `Size` |
| Year2022Day07.AccumulatePrefixNone | src/year_2022/day07.rs:44-46 | once a prefix of the loop fails, `get_size` returns `None` |
| Year2022Day07.ChildBelows | src/year_2022/day07.rs:76-78 | one small-directory sum per child directory |
| Year2022Day07.ChildSums | src/year_2022/day07.rs:77 | one `get_sum_of_dirs_with_max_size` per child directory |
| Year2022Day07.SumBelowMeaning | src/year_2022/day07.rs:74-84 | `get_sum_of_dirs_with_max_size` is the true sum when every size it reads and that sum fit a `usize`, and `None` otherwise |
| Year2022Day07.GetSumOfDirsWithMaxSize | src/year_2022/day07.rs:74-84 | the loop over the children with recursive calls, then the own size, computes `SumBelow` |
| Year2022Day07.Subtree | src/year_2022/day07.rs:74-84 | the subtree lists the children's subtrees and ends with the directory itself |
| Year2022Day07.ChildSubtrees | src/year_2022/day07.rs:76-78 | one subtree per child directory |
| Year2022Day07.CountedSizes | src/year_2022/day07.rs:80-82 | each directory counts its true size when that is at most `max_size`, and 0 otherwise |
| Year2022Day07.PartSums | src/year_2022/day07.rs:76-78 | one counted sum per list of directories |
| Year2022Day07.CountedConcat | src/year_2022/day07.rs:76-82 | counting over two lists one after the other adds their counts |
| Year2022Day07.CountedFlatten | src/year_2022/day07.rs:76-78 | counting over a flattened list is counting over each part |
| Year2022Day07.BelowIsSubtreeSum | src/year_2022/day07.rs:74-84 | the unbounded sum is the sum of the sizes of exactly those directories of the subtree, itself included, whose size is at most `max_size` |
| Year2022Day07.CountedSnoc | src/year_2022/day07.rs:80-82 | the directory itself is counted last |
| Year2022Day07.FirstNamed | src/year_2022/day07.rs:69-72 | the first directory of the list with that name, and `None` exactly when none has it |
| Year2022Day07.ChildByName | src/year_2022/day07.rs:69-72 | `get_child_by_name` finds the first child with that name, and `None` exactly when no child has it |
| Year2022Day07.Directory.constructor | src/year_2022/day07.rs:86-92 | `Directory::new` has the name, no files and no child directories |
| Year2022Day07.Directory.AddDir | src/year_2022/day07.rs:53-55 | `add_dir` appends the directory as the last child, changes nothing else, and adds its true size |
| Year2022Day07.Directory.ClearDirs | src/year_2022/day07.rs:57-59 | `clear_dirs` leaves no children and keeps the files, so the size is the files' |
| Year2022Day07.Directory.AddFile | src/year_2022/day07.rs:61-63 | `add_file` appends the file as the last one, changes nothing else, and adds its size |
| Year2022Day07.Directory.ClearFiles | src/year_2022/day07.rs:65-67 | `clear_files` leaves no files and keeps the children, so the size is the children's |
| Year2022Day07.ParseFileStructure | src/year_2022/day07.rs:9-16 | `parse_file_structure` always fails with `MissingRootDirectory`: its loop does nothing, so the stack stays empty |
| Year2022Day07.First | src/year_2022/day07.rs:12 | `first()` is `None` exactly for an empty list, and the first element otherwise |
| Year2022Day07.DeletableDirSize | src/year_2022/day07.rs:3-6 | the sum of the directories of at most 100 000 when every size fits a `usize`, and `Err(Overflow)` otherwise |
| Year2022Day07.RetrieveDeletableDirSize | src/year_2022/day07.rs:1-7 | `retrieve_deletable_dir_size` always returns `Err(MissingRootDirectory)` |
| Year2022Day07.NewTotal | src/year_2022/day07.rs:86-92 | a new directory has size 0 |
| Year2022Day07.GetSizeScenario | src/year_2022/day07.rs:166-191 | test `get_size`: one file of `usize::MAX` fits, a second overflows, cleared files give 0; then 389, 1128, 1517 and 1517 |
| Year2022Day07.NestedScenario | src/year_2022/day07.rs:174-190 | the second half of that test, from an empty root: 389, 1128, 1517 and 1517 |
| Year2022Day07.Measure | src/year_2022/day07.rs:42-51 | `get_size` of a directory being built is its true size when that fits a `usize` |
| Year2022Day07.GetParsedTestInput | src/year_2022/day07.rs:134-163 | `get_parsed_test_input` builds the puzzle's example tree |
| Year2022Day07.BuildA | src/year_2022/day07.rs:135-145 | directory `a` of the example, with `e` inside |
| Year2022Day07.BuildD | src/year_2022/day07.rs:146-154 | directory `d` of the example |
| Year2022Day07.SumShort | src/year_2022/day07.rs:42-51 | the sums of one to four terms |
| Year2022Day07.ExampleTotals | src/year_2022/day07.rs:134-163 | the example's true sizes: `e` 584, `a` 94853, `d` 24933642, root 48381165 |
| Year2022Day07.ExampleBelows | src/year_2022/day07.rs:194-204 | the example's small-directory sums: `e` 584, `a` 95437, `d` 0, root 95437 |
| Year2022Day07.MaxSumScenario | src/year_2022/day07.rs:194-204 | test `get_size_maxsum`: 584, 95437, 0 and 95437 from `e`, `a`, `d` and the root, looked up by name |
| Year2022Day07.Bounded | src/year_2022/day07.rs:3 | `get_sum_of_dirs_with_max_size(100_000)` is the small-directory sum when every size fits a `usize` |
| Year2023Day01.Digits | src/year_2023/day01.rs:6 | the digits of a line, in order, never more than its characters |
| Year2023Day01.DigitsConcat | src/year_2023/day01.rs:6 | the digits of two pieces of a line, one after the other |
| Year2023Day01.DigitsEmpty | src/year_2023/day01.rs:6-9 | a line has no digits exactly when no character is a digit, the case in which `captures` finds no match |
| Year2023Day01.FirstDigit | src/year_2023/day01.rs:6 | `^\D*` stops at the first digit, and there is none exactly when the line has no digit |
| Year2023Day01.LastDigit | src/year_2023/day01.rs:6 | the greedy `.*` leaves the last digit for `second`, and there is none exactly when the line has no digit |
| Year2023Day01.Capture | src/year_2023/day01.rs:6-9 | `re.captures(l)` finds no match exactly when the line has no digit |
| Year2023Day01.CaptureMeaning | src/year_2023/day01.rs:6-10 | `second` is the last digit, and `first` is the first digit exactly when the line has two or more digits |
| Year2023Day01.DigitsOfTwo | src/year_2023/day01.rs:6 | a line whose first digit is at `p` and last at `q` has those two digits at its ends |
| Year2023Day01.DigitsOfOne | src/year_2023/day01.rs:6 | a line with one digit has only it |
| Year2023Day01.NoDigitBefore | src/year_2023/day01.rs:6 | no digit before `p` leaves the prefix without digits |
| Year2023Day01.NoDigitAfter | src/year_2023/day01.rs:6 | no digit after `q` leaves the suffix without digits |
| Year2023Day01.SplitAt | src/year_2023/day01.rs:6 | a line cut around two positions is their concatenation |
| Year2023Day01.DigitsAroundOne | src/year_2023/day01.rs:24-31 | a line with exactly one digit has that digit alone |
| Year2023Day01.DigitsAroundTwo | src/year_2023/day01.rs:11-23 | a line's digits start with its first and end with its last |
| Year2023Day01.CalibrationValueMeaning | src/year_2023/day01.rs:8-34 | a line's value is its first digit followed by its last, `11 d` for a single digit `d`, and lies in 0 to 99 |
| Year2023Day01.CalibrationValues | src/year_2023/day01.rs:4-36 | `get_calibration_values_only_digits` is `Ok`, with one value per line, in order |
| Year2023Day01.SumBounds | src/year_2023/day01.rs:41 | the sum of calibration values lies between 0 and 99 per value |
| Year2023Day01.SumPrefix | src/year_2023/day01.rs:41 | every running sum lies between 0 and the total, so an `i32` total within range never overflows on the way |
| Year2023Day01.CalibrationValuesSum | src/year_2023/day01.rs:38-42 | `get_calibration_values_sum_only_digits` is `Ok` of the sum of the values, between 0 and 99 per line |
| Year2023Day01.LineValue | src/year_2023/day01.rs:8-34 | a line whose first digit is at `p` and last at `q` is worth `10 l[p] + l[q]` |
| Year2023Day01.SampleValue0 | src/year_2023/day01.rs:89-124 | "1abc2" is worth 12 |
| Year2023Day01.SampleValue1 | src/year_2023/day01.rs:90-124 | "pqr3stu8vwx" is worth 38 |
| Year2023Day01.SampleValue2 | src/year_2023/day01.rs:91-124 | "a1b2c3d4e5f" is worth 15 |
| Year2023Day01.SampleValue3 | src/year_2023/day01.rs:92-124 | "treb7uchet" is worth 77, its single digit twice |
| Year2023Day01.TwoLines | src/year_2023/day01.rs:5 | two lines joined by `\n` are read back as those two |
| Year2023Day01.ThreeLines | src/year_2023/day01.rs:5 | three lines joined by `\n` are read back as those three |
| Year2023Day01.FourLines | src/year_2023/day01.rs:5 | four lines joined by `\n` are read back as those four |
| Year2023Day01.Sample | src/year_2023/day01.rs:89-124 | tests `get_values_only_digits` and `get_sum_only_digits`: the sample gives `[12, 38, 15, 77]` and 142 |
| Year2023Day01.SampleOf | src/year_2023/day01.rs:4-42 | four lines worth 12, 38, 15 and 77 give those values in order and the sum 142 |
| Year2023Day01.SumFour | src/year_2023/day01.rs:41 | the sum of four values |
| Year2023Day01.WordSampleHasNoDigit | src/year_2023/day01.rs:50-95 | the word sample's line "eightwothree" holds no digit, so the digits-only code that `get_calibration_values_with_words` repeats panics on it |
| Year2024Day01.ParseLists | src/year_2024/day01.rs:3-23 | `parse_lists` gives one left and one right value per line, or the first `u32` parse error, left value before right |
| Year2024Day01.ErrorPersists | src/year_2024/day01.rs:13-19 | once a line fails to parse, the whole parse fails with its error, through the `?` |
| Year2024Day01.ParseListsOf | src/year_2024/day01.rs:3-23 | the loop over the lines computes `ParseLists` of the input's lines |
| Year2024Day01.ParseStep | src/year_2024/day01.rs:7-20 | one more line: a failing piece is the whole parse's error, otherwise both values join their lists |
| Year2024Day01.PairLines | src/year_2024/day01.rs:43-48 | one printed line per pair of values |
| Year2024Day01.PairLineRoundTrip | src/year_2024/day01.rs:8-19 | a line of two `u32`s three spaces apart splits back into both, which parse |
| Year2024Day01.ParseListsRoundTrip | src/year_2024/day01.rs:3-23 | parsing the printed pairs of two lists of `u32`s gives back both lists |
| Year2024Day01.InitLast | src/year_2024/day01.rs:7 | a non-empty list is its initial part and its last element |
| Year2024Day01.PairLinesSnoc | src/year_2024/day01.rs:7 | the printed pairs end with the last pair's line |
| Year2024Day01.ParseListsSnoc | src/year_2024/day01.rs:7-21 | a line of two parsing pieces after lines that parse adds one value to each list |
| Year2024Day01.InsertPermutes | src/year_2024/day01.rs:27-28 | inserting adds exactly that value |
| Year2024Day01.HeadIsLeast | src/year_2024/day01.rs:27-28 | the head of an ascending list is its least value |
| Year2024Day01.InsertSorted | src/year_2024/day01.rs:27-28 | inserting into an ascending list keeps it ascending |
| Year2024Day01.SortSound | src/year_2024/day01.rs:27-28 | `sort` gives an ascending permutation of the list |
| Year2024Day01.SortedUnique | src/year_2024/day01.rs:27-28 | there is only one ascending order of the same values, so the result of `sort` does not depend on how it sorts |
| Year2024Day01.SameHeads | src/year_2024/day01.rs:27-28 | two ascending lists of the same values start alike and have the same tails' values |
| Year2024Day01.ConsEqual | src/year_2024/day01.rs:27-28 | lists with the same head and tail are equal |
| Year2024Day01.MultisetTail | src/year_2024/day01.rs:27-28 | the tail holds the values of the list but its head |
| Year2024Day01.TailSorted | src/year_2024/day01.rs:27-28 | the tail of an ascending list is ascending |
| Year2024Day01.DifferenceIgnoresOrder | src/year_2024/day01.rs:25-31 | the difference depends only on which values each list holds, not on their order |
| Year2024Day01.DiffSumSelf | src/year_2024/day01.rs:30 | the pairwise gaps of a list and itself add up to 0 |
| Year2024Day01.DiffSumSymmetric | src/year_2024/day01.rs:30 | swapping the lists leaves the pairwise gaps unchanged |
| Year2024Day01.DifferenceSymmetric | src/year_2024/day01.rs:25-31 | swapping the lists leaves the difference unchanged |
| Year2024Day01.CheckedDiffSumMeaning | src/year_2024/day01.rs:30 | the checked `u32` fold of the gaps panics exactly when the total leaves `u32`, and otherwise gives the total |
| Year2024Day01.GetListDifference | src/year_2024/day01.rs:25-31 | `get_list_difference` gives the parse error, or the difference of the sorted lists when it fits `u32`, or a panic when it does not |
| Year2024Day01.MulSucc | src/year_2024/day01.rs:36 | one more occurrence adds the value once more |
| Year2024Day01.SimilarityConsRight | src/year_2024/day01.rs:36 | one more `b` on the right adds `b` for each `b` on the left |
| Year2024Day01.SimilaritySymmetric | src/year_2024/day01.rs:33-37 | the similarity score is the same with the lists swapped |
| Year2024Day01.SimilarityEmptyRight | src/year_2024/day01.rs:36 | against an empty right list the score is 0 |
| Year2024Day01.CountsFitCons | src/year_2024/day01.rs:36 | the counts of a list fit `u32` exactly when its head's and its tail's do |
| Year2024Day01.CheckedSimilarityMeaning | src/year_2024/day01.rs:36 | the checked fold panics exactly when some count leaves `u32` for `try_from` or the score leaves `u32`, and otherwise gives the score |
| Year2024Day01.GetListSimilarityScore | src/year_2024/day01.rs:33-37 | `get_list_similarity_score` gives the parse error, or the similarity score when every count and the score fit `u32`, or a panic otherwise |
| Year2024Day01.SortCons | src/year_2024/day01.rs:27-28 | sorting a list with one more value in front inserts it into the sorted rest |
| Year2024Day01.InsertPast | src/year_2024/day01.rs:27-28 | a larger value goes past a smaller head |
| Year2024Day01.InsertHere | src/year_2024/day01.rs:27-28 | a value no larger than the head goes in front |
| Year2024Day01.SortLeftExample | src/year_2024/day01.rs:43-48 | the example's left list sorts to 1, 2, 3, 3, 3, 4 |
| Year2024Day01.SortRightExample | src/year_2024/day01.rs:43-48 | the example's right list sorts to 3, 3, 3, 4, 5, 9 |
| Year2024Day01.CountCons | src/year_2024/day01.rs:36 | counting a value over a list with one more element in front |
| Year2024Day01.SimilarityCons | src/year_2024/day01.rs:36 | one more left value `x` adds `x` times its count on the right |
| Year2024Day01.DiffSumCons | src/year_2024/day01.rs:30 | one more pair adds its gap |
| Year2024Day01.DifferenceExample | src/year_2024/day01.rs:43-53 | the example lists differ by 11 |
| Year2024Day01.RightCounts | src/year_2024/day01.rs:43-48 | how often each value occurs in the example's right list |
| Year2024Day01.SimilarityExample | src/year_2024/day01.rs:43-58 | the example lists have similarity score 31 |
| Year2024Day01.DigitLine | src/year_2024/day01.rs:43-48 | a line of two one-digit values is those digits three spaces apart |
| Year2024Day01.ExampleFirstLines | src/year_2024/day01.rs:43-45 | the example's first three lines are its first three pairs |
| Year2024Day01.ExampleLastLines | src/year_2024/day01.rs:46-48 | the example's last three lines are its last three pairs |
| Year2024Day01.ExamplePairLines | src/year_2024/day01.rs:43-48 | the example's lines are the printed pairs of its lists |
| Year2024Day01.ExampleLines | src/year_2024/day01.rs:43-48 | the example input's lines are the printed pairs of its lists |
| Year2024Day01.ExampleInput | src/year_2024/day01.rs:43-58 | tests `get_difference` and `get_similarity_score`: the example input gives difference 11 and similarity score 31 |
| Year2024Day02.ParseReport | src/year_2024/day02.rs:3-9 | `parse_report` gives the value of each piece between single spaces, one per piece |
| Year2024Day02.ReportRoundTrip | src/year_2024/day02.rs:3-9 | parsing a report printed from `u32` levels gives back the levels |
| Year2024Day02.FoldPairsMeaning | src/year_2024/day02.rs:14-23 | a fold over adjacent pairs is true exactly when it starts true and every pair passes |
| Year2024Day02.ReportIsSafeMeaning | src/year_2024/day02.rs:11-24 | `report_is_safe` holds exactly when there are two or more levels, all going down or all going up, with gaps of 1 to 3 |
| Year2024Day02.SafeWithoutFirst | src/year_2024/day02.rs:11-24 | dropping the first level of a safe report of three or more levels leaves it safe |
| Year2024Day02.Remove | src/year_2024/day02.rs:37-38 | `remove(x)` on a copy drops the level at `x` and keeps the others in order |
| Year2024Day02.IsSafeDampened | src/year_2024/day02.rs:31-45 | `is_safe_dampened` is true exactly when the report is safe, or safe with one level dropped |
| Year2024Day02.DampenedOfShort | src/year_2024/day02.rs:31-45 | the dampener does not help a report of two levels or fewer |
| Year2024Day02.CountsOrdered | src/year_2024/day02.rs:47-65 | there are at least as many dampened-safe reports as safe ones, and no more than lines |
| Year2024Day02.SafeExamples | src/year_2024/day02.rs:80-89 | test `check_is_safe`: two of the six reports are safe |
| Year2024Day02.DampenedExamples | src/year_2024/day02.rs:100-101 | with one level dropped, `1 3 2 4 5` and `8 6 4 4 1` are safe |
| Year2024Day02.IncreasingTooFast | src/year_2024/day02.rs:98 | `1 2 7 8 9` stays unsafe with any level dropped |
| Year2024Day02.DecreasingTooFast | src/year_2024/day02.rs:99 | `9 7 6 2 1` stays unsafe with any level dropped |
| Year2024Day02.PrintFive | src/year_2024/day02.rs:73-78 | five one-digit levels print as five digits between single spaces |
| Year2024Day02.ParseFive | src/year_2024/day02.rs:3-9 | a line of five one-digit levels parses to them |
| Year2024Day02.LineVerdict | src/year_2024/day02.rs:26-45 | the verdicts of a sample line are those of its levels |
| Year2024Day02.SampleLines | src/year_2024/day02.rs:73-110 | the six sample lines: two safe reports, four with the dampener |
| Year2024Day02.CountCons | src/year_2024/day02.rs:47-65 | counting a line in front of others adds one when it is safe |
| Year2024Day02.CountsOfSix | src/year_2024/day02.rs:47-65 | the counts of six lines are the sum of their verdicts |
| Year2024Day02.SampleCounts | src/year_2024/day02.rs:73-110 | tests `count_safe` and `count_safe_dampened`: the test input has 2 safe reports, and 4 with the dampener |
| Year2024Day03.Token | src/year_2024/day03.rs:2 | a match of `mul\((\d{1,3}),(\d{1,3})\)` at the start of the text starts with `mul(`, has two operands of one to three digits, and spans exactly their instruction text |
| Year2024Day03.TokenComplete | src/year_2024/day03.rs:2 | every well-formed instruction at the start of the text is matched with its own groups, whatever follows it |
| Year2024Day03.Captures | src/year_2024/day03.rs:3 | `captures_iter` yields only well-formed groups |
| Year2024Day03.Ops | src/year_2024/day03.rs:4-11 | one `map` result per capture |
| Year2024Day03.OperandBound | src/year_2024/day03.rs:2 | an operand of at most three digits is below 1000 |
| Year2024Day03.OpIsProduct | src/year_2024/day03.rs:4-11 | every captured instruction yields its product: the operands parse and their product fits `u32` |
| Year2024Day03.ProductBound | src/year_2024/day03.rs:9 | two operands below 1000 multiply to less than 1 000 000 |
| Year2024Day03.FoldOpsAppend | src/year_2024/day03.rs:12-17 | the fold splits at any point |
| Year2024Day03.OverflowRestarts | src/year_2024/day03.rs:13-14 | an overflow makes the accumulator `None`, so the fold then sums what follows afresh |
| Year2024Day03.FoldOpsSum | src/year_2024/day03.rs:12-17 | without an overflow the fold adds the products to the value it starts from |
| Year2024Day03.FoldOpsTotal | src/year_2024/day03.rs:12-17 | from `None` the fold gives the sum of the products when it fits |
| Year2024Day03.ParseAndExecuteMeaning | src/year_2024/day03.rs:1-18 | the result is `None` when the text holds no instruction, and the sum of their products when there is one and the sum fits `u32` |
| Year2024Day03.CapturesWithoutM | src/year_2024/day03.rs:2-3 | text without an `m` holds no instruction |
| Year2024Day03.NoTokenWithoutM | src/year_2024/day03.rs:2 | text not starting with `m` does not match at its start |
| Year2024Day03.CapturesInstruction | src/year_2024/day03.rs:2-3 | an instruction is captured and the search goes on after it |
| Year2024Day03.CapturesSkip | src/year_2024/day03.rs:3 | text that does not match at its start is searched from its next character |
| Year2024Day03.NoOpenParenthesis | src/year_2024/day03.rs:2 | `mul` followed by anything but `(` does not match |
| Year2024Day03.NoComma | src/year_2024/day03.rs:2 | a first operand not followed by a comma does not match |
| Year2024Day03.NoCloseParenthesis | src/year_2024/day03.rs:2 | a second operand not followed by `)` does not match |
| Year2024Day03.Results | src/year_2024/day03.rs:49 | one `parse_and_execute_multiplication` per enabled piece, in order |
| Year2024Day03.EnabledEnd | src/year_2024/day03.rs:43-46 | the enabled stretch ends within the text |
| Year2024Day03.DisabledEnd | src/year_2024/day03.rs:58-61 | the disabled stretch ends within the text |
| Year2024Day03.EnabledStep | src/year_2024/day03.rs:42-56 | an enabled stretch of the loop is the next enabled piece, up to and including the next `don't()` |
| Year2024Day03.DisabledStep | src/year_2024/day03.rs:57-64 | a disabled stretch of the loop skips to after the next `do()`, or to the end |
| Year2024Day03.FoldResultsCons | src/year_2024/day03.rs:47-55 | the results of a stretch and those after it fold like the products |
| Year2024Day03.ParseAndExecuteMultiplicationWithConditionals | src/year_2024/day03.rs:33-68 | the loop alternating enabled and disabled stretches computes `Conditional`: the results of the enabled pieces, folded |
| Year2024Day03.WithoutDont | src/year_2024/day03.rs:33-68 | without a `don't()` the conditions change nothing |
| Year2024Day03.DisabledTextExcluded | src/year_2024/day03.rs:42-64 | the text from a `don't()` up to the next `do()` is left out |
| Year2024Day03.TrailingDisabledExcluded | src/year_2024/day03.rs:58-61 | after a `don't()` that no `do()` follows, nothing is enabled |
| Year2024Day03.FindOnce | src/year_2024/day03.rs:43-58 | `find` gives the first occurrence of a pattern after text without its first character |
| Year2024Day03.CapturesSpoilt | src/year_2024/day03.rs:3 | text whose start does not match and whose rest holds no `m` holds no instruction |
| Year2024Day03.DropFirst | src/year_2024/day03.rs:3 | dropping the first character of a concatenation |
| Year2024Day03.CapturesBadOpen | src/year_2024/day03.rs:2-3 | `mul` followed by anything but `(`, then text without an `m`, holds no instruction |
| Year2024Day03.CapturesBadClose | src/year_2024/day03.rs:2-3 | a second operand followed by anything but `)` spoils the instruction |
| Year2024Day03.TotalCons | src/year_2024/day03.rs:12-17 | the total of one instruction in front of others |
| Year2024Day03.SingleInstruction | src/year_2024/day03.rs:1-18 | a text that is one instruction gives its product |
| Year2024Day03.ValidExample1 | src/year_2024/day03.rs:81-90 | `mul(44,46)` gives 2024 |
| Year2024Day03.ValidExample2 | src/year_2024/day03.rs:82-91 | `mul(123,4)` gives 492 |
| Year2024Day03.NoCaptures | src/year_2024/day03.rs:3 | text whose start does not match and whose rest holds no `m` holds no instruction at all |
| Year2024Day03.InvalidComma | src/year_2024/day03.rs:84-92 | `mul(4*` gives `None` |
| Year2024Day03.InvalidParenthesis | src/year_2024/day03.rs:85-93 | `mul(6,9!` gives `None` |
| Year2024Day03.InvalidName | src/year_2024/day03.rs:86-94 | `?(12,34)` gives `None` |
| Year2024Day03.InvalidSpaces | src/year_2024/day03.rs:87-95 | `mul ( 2 , 4 )` gives `None` |
| Year2024Day03.SquareBracket | src/year_2024/day03.rs:77 | `mul[3,7]!@^do_not_` holds no instruction |
| Year2024Day03.BadClose | src/year_2024/day03.rs:77 | `mul(32,64]then(` holds no instruction |
| Year2024Day03.ExampleProducts | src/year_2024/day03.rs:77 | the products of the example's instructions: 8, 25, 88 and 40 |
| Year2024Day03.LongerPiece1 | src/year_2024/day03.rs:77 | the longer example's first piece holds `mul(2,4)` |
| Year2024Day03.LongerPiece2 | src/year_2024/day03.rs:77 | its second piece holds `mul(5,5)` |
| Year2024Day03.LongerPiece3 | src/year_2024/day03.rs:77 | its third piece holds `mul(11,8)` |
| Year2024Day03.LongerPiece4 | src/year_2024/day03.rs:77 | its last piece holds `mul(8,5)` |
| Year2024Day03.LongerExampleCaptures | src/year_2024/day03.rs:76-77 | the longer example holds exactly four instructions: (2, 4), (5, 5), (11, 8), (8, 5) |
| Year2024Day03.TotalFour | src/year_2024/day03.rs:12-17 | the total of four instructions |
| Year2024Day03.LongerExample | src/year_2024/day03.rs:76-103 | test `parse_and_multiply_longer_example`: 161 |
| Year2024Day03.OneCapture | src/year_2024/day03.rs:1-18 | a text with exactly one instruction gives its product |
| Year2024Day03.BracketFacts | src/year_2024/day03.rs:77-79 | the spoilt instructions of the examples start with `mul` and not `mul(` |
| Year2024Day03.ConditionalPiece1 | src/year_2024/day03.rs:79 | the enabled text before the conditional example's `don't()` holds `mul(2,4)` only |
| Year2024Day03.ConditionalPiece2 | src/year_2024/day03.rs:79 | the text after its `do()` holds `mul(8,5)` only |
| Year2024Day03.AppendAssociates | src/year_2024/day03.rs:79 | concatenation is associative |
| Year2024Day03.ConditionalExampleSegments | src/year_2024/day03.rs:78-79 | the conditional example's enabled pieces are the text up to `don't()` and the text after `do()` |
| Year2024Day03.ConditionalExample | src/year_2024/day03.rs:78-111 | test `parse_and_multiply_with_conditionals`: 48 |
| Year2024Day04.TooManyFromMeaning | src/year_2024/day04.rs:41-43 | some row from `i` on has more than `u32::MAX` matches exactly when one such row exists |
| Year2024Day04.HorizontalFromMeaning | src/year_2024/day04.rs:40-44 | the row loop fails with `IntConversion` exactly on a row of more than `u32::MAX` matches, and otherwise adds every row's matches to `count` |
| Year2024Day04.HorizontalFromTooMany | src/year_2024/day04.rs:42 | the row loop's result, in terms of whether some row overflows `u32` |
| Year2024Day04.HorizontalFitsWhenTotalFits | src/year_2024/day04.rs:42 | a total that fits `u32` keeps the `+=` of the row loop from panicking |
| Year2024Day04.CountHorizontalMatches | src/year_2024/day04.rs:38-45 | `count_horizontal_matches`: the validation error, or the loop over the rows |
| Year2024Day04.CountRowIsFound | src/year_2024/day04.rs:51-62 | a row's count is the number of its matching windows |
| Year2024Day04.RowWindowsSnoc | src/year_2024/day04.rs:51 | one more column adds its window when it matches |
| Year2024Day04.CountGridIsFound | src/year_2024/day04.rs:50-63 | the count of a search is the number of distinct windows it matches |
| Year2024Day04.WindowsSplit | src/year_2024/day04.rs:50 | the windows of `rows` rows are those of the rows above and those of the last row |
| Year2024Day04.CountRowMonotone | src/year_2024/day04.rs:60 | the count only grows along a row |
| Year2024Day04.CountGridMonotone | src/year_2024/day04.rs:60 | the count only grows down the rows |
| Year2024Day04.CountBelowTotal | src/year_2024/day04.rs:60-149 | a count taken part-way through the windows is at most the full count |
| Year2024Day04.CrossAtMost | src/year_2024/day04.rs:146-147 | a cross is an upward and a downward match in the same window, so there are no more crosses than either |
| UtilPosition.SubsetCardinality | src/year_2024/day04.rs:146-147 | a subset is no larger |
| Year2024Day04.SearchCountMeaning | src/year_2024/day04.rs:25-154 | a window count is `PatternLengthMissmatch` exactly for a cross of unequal patterns, `MalformedMatrix` exactly for an empty matrix, `PatternTooLarge` exactly for a pattern longer than the first row or the row count, and otherwise the number of matching windows among those from which the pattern fits |
| Year2024Day04.WindowCellsExist | src/year_2024/day04.rs:54-121 | in a wide matrix every cell of a window that starts within the first row exists |
| Year2024Day04.DiagonallyDownwardMatch | src/year_2024/day04.rs:82-96 | `diagonally_downward_match` is true exactly when the pattern reads down and to the right from the start |
| Year2024Day04.DiagonallyUpwardMatch | src/year_2024/day04.rs:113-128 | `diagonally_upward_match` is true exactly when the pattern reads up and to the right from the window's bottom-left corner |
| Year2024Day04.CountVerticalMatches | src/year_2024/day04.rs:47-65 | `count_vertical_matches` returns `SearchCount` for the vertical search |
| Year2024Day04.CountDiagonalDownward | src/year_2024/day04.rs:67-80 | `count_diagonal_downward` returns `SearchCount` for the downward search |
| Year2024Day04.CountDiagonalUpward | src/year_2024/day04.rs:98-111 | `count_diagonal_upward` returns `SearchCount` for the upward search |
| Year2024Day04.CrossMatch | src/year_2024/day04.rs:146-147 | both diagonals match in the window exactly when the cross does |
| Year2024Day04.CrossWindows | src/year_2024/day04.rs:135-153 | a cross of equal patterns that fit counts the windows from which they fit |
| Year2024Day04.CountCrossRow | src/year_2024/day04.rs:143-151 | the inner loop adds the row's crossing windows to `count` |
| Year2024Day04.CountCrossPatternMatch | src/year_2024/day04.rs:130-154 | `count_cross_pattern_match` returns `SearchCount` for the cross |
| Year2024Day04.CountCrossWindows | src/year_2024/day04.rs:141-153 | the two loops count the crossing windows from which the patterns fit |
| Year2024Day04.Reversed | src/year_2024/day04.rs:177 | `chars().rev().collect()` reverses the pattern |
| Year2024Day04.ReversedTwice | src/year_2024/day04.rs:177 | reversing twice gives the pattern back |
| Year2024Day04.ReversedPatterns | src/year_2024/day04.rs:177-269 | the backward patterns are `SAMX` and `SAM` |
| Year2024Day04.ConvertStringIntoMatrix | src/year_2024/day04.rs:156-168 | `convert_string_into_matrix` gives the lines exactly when there is one and all have the first's length, and `MalformedMatrix` otherwise |
| Year2024Day04.SumResultsNone | src/year_2024/day04.rs:242-246 | once the fold's sum has overflowed it stays `None` |
| Year2024Day04.SumResultsMeaning | src/year_2024/day04.rs:242-246 | the fold from `Some(a)` is `Some` exactly when every result is a count and `a` plus their total fits `u32`, and then it is that sum |
| Year2024Day04.GetXmasCount | src/year_2024/day04.rs:170-258 | `get_xmas_count` runs the eight searches one after the other and returns `XmasCount` |
| Year2024Day04.XmasCountMeaning | src/year_2024/day04.rs:170-258 | `get_xmas_count` is `MalformedMatrix` exactly for an input that is not a rectangle of lines, `Ok` of the eight searches' total when that fits `u32`, and `IntOverflow` otherwise |
| Year2024Day04.XmasNeedsFourByFour | src/year_2024/day04.rs:233-246 | the first result is unwrapped at once, so `get_xmas_count` can only return on a matrix of four or more rows and columns |
| Year2024Day04.GetCrossedMasCount | src/year_2024/day04.rs:260-315 | `get_crossed_mas_count` runs the four pairings one after the other and returns `CrossedMasCount` |
| Year2024Day04.CrossedNeedsThreeByThree | src/year_2024/day04.rs:296-313 | `get_crossed_mas_count` can only return on a matrix of three or more rows and columns, where every pairing is a count |
| Year2024Day04.CrossedMasCountMeaning | src/year_2024/day04.rs:260-315 | `get_crossed_mas_count` is `MalformedMatrix` exactly for an input that is not a rectangle of lines, `Ok` of the four pairings' total when that fits `u32`, and `IntOverflow` otherwise |
| Year2024Day04.CombineAllErr | src/year_2024/day04.rs:248-257 | in the fold left commented out after `get_xmas_count`, once an error is held no count is ever returned |
| Year2024Day04.CombineAllMeaning | src/year_2024/day04.rs:248-257 | that fold from a count returns a count exactly when every result is a count and the sum fits `u32`, and then returns the sum |
| Year2024Day04.IntendedXmasCountMeaning | src/year_2024/day04.rs:170-257 | `get_xmas_count` with the intended fold: the total of the eight searches when each is a count and it fits `u32`, an error rather than a panic on a matrix smaller than four by four, and the same count wherever `get_xmas_count` returns one |
| Year2024Day04.IntendedCrossedMasCountMeaning | src/year_2024/day04.rs:260-314 | `get_crossed_mas_count` with the same fold: the total of the four pairings when it fits `u32`, an error rather than a panic on a matrix smaller than three by three, and the same count wherever `get_crossed_mas_count` returns one |
| Year2024Day05.IndexOf | src/year_2024/day05.rs:41-42 | `position` gives the first index holding the page, and `None` exactly when the page is absent |
| Year2024Day05.IndexFromMeaning | src/year_2024/day05.rs:41-42 | the search from index `k` finds the first index from `k` on holding the page, and `None` exactly when there is none |
| Year2024Day05.IsSatisfiedMeaning | src/year_2024/day05.rs:39-47 | a rule holds exactly when, if `first` is printed at all, every copy of `second` has a `first` somewhere before it |
| Year2024Day05.AllSatisfiedMeaning | src/year_2024/day05.rs:145 | `all(is_satisfied)` holds exactly when every rule holds |
| Year2024Day05.IsSatisfiedExamples | src/year_2024/day05.rs:308-320 | test `check_rule`: the rule of pages 1 and 2 holds in `[1, 2, 3]`, `[1, 3, 2]`, `[3, 2]` and `[1, 3]`, and not in `[2, 1, 3]` or `[2, 3, 1]` |
| Year2024Day05.DigitRun | src/year_2024/day05.rs:53 | a run of digits stays within the text |
| Year2024Day05.DigitRunDigits | src/year_2024/day05.rs:53 | the greedy `\d+` takes digits only, up to a non-digit or the end |
| Year2024Day05.DigitRunIs | src/year_2024/day05.rs:53 | a run of `n` digits ended by a non-digit or the end is what `\d+` takes |
| Year2024Day05.MatchStart | src/year_2024/day05.rs:53-55 | a match found from `i` starts at or after `i` and matches there |
| Year2024Day05.MatchStartIsLeftmost | src/year_2024/day05.rs:53-55 | `captures` finds the leftmost match, and none only when there is none |
| Year2024Day05.Captures | src/year_2024/day05.rs:53-56 | both groups are non-empty runs of digits, and there are none exactly when nothing matches |
| Year2024Day05.RuleFromStr | src/year_2024/day05.rs:50-79 | `OrderingRule::try_from` gives a rule of two different `u32` pages, fails with `OrderingRuleParsingFailed` or `InvalidOrderingRule` only, and with the first when nothing matches |
| Year2024Day05.RuleRoundTrip | src/year_2024/day05.rs:32-79 | parsing the text of a rule, its two pages around a bar gives it back, unless its pages are equal (`InvalidOrderingRule`) or do not fit `u32` (`OrderingRuleParsingFailed`) |
| Year2024Day05.ParsedRule | src/year_2024/day05.rs:58-76 | the rule of the captured digit strings, checked for `u32` range and for equal pages |
| Year2024Day05.RuleExamples | src/year_2024/day05.rs:262-293 | test `parse_rule`: the rules 891/23 and 1/2 parse, 2/2 is `InvalidOrderingRule` |
| Year2024Day05.RuleInTextExample | src/year_2024/day05.rs:276-282 | the rule 12/2 between spaces parses to (12, 2) |
| Year2024Day05.RuleBeforeNewlineExample | src/year_2024/day05.rs:283-289 | the rule 9/4 followed by a newline parses |
| Year2024Day05.RuleMismatchExamples | src/year_2024/day05.rs:294-305 | `123`, and `123` with a bar after or before it, are `OrderingRuleParsingFailed` |
| Year2024Day05.RuleTextCaptures | src/year_2024/day05.rs:53-56 | the groups of `a` and `b` around a bar are `a` and `b` |
| Year2024Day05.CapturesAt | src/year_2024/day05.rs:53-56 | the groups of a match at `i` are the two digit runs around its bar |
| Year2024Day05.ElementsCount | src/year_2024/day05.rs:88 | the `HashSet` of the items is no larger than the list, and as large exactly when no item repeats |
| Year2024Day05.ParsedItems | src/year_2024/day05.rs:82-86 | `item.parse::<u32>().ok()` for each item, in order |
| Year2024Day05.ParseItem | src/year_2024/day05.rs:85 | a parsed item fits `u32` |
| Year2024Day05.Pages | src/year_2024/day05.rs:89 | the unwrapped pages, one per item |
| Year2024Day05.ParsePrintOrderCases | src/year_2024/day05.rs:81-96 | `parse_print_order` is `PrintOrderParsingFailed` when an item is no `u32`, else `InvalidPrintOrder` for an even count or a repeated page, else the pages |
| Year2024Day05.DecimalItems | src/year_2024/day05.rs:83 | one decimal item per page |
| Year2024Day05.PrintOrderRoundTrip | src/year_2024/day05.rs:81-96 | parsing the comma-joined text of an odd-length order of different `u32` pages gives it back |
| Year2024Day05.ParsePrintOrderOf | src/year_2024/day05.rs:87-92 | items that all parse give their pages when they are well formed, and `InvalidPrintOrder` otherwise |
| Year2024Day05.ExamplePages | src/year_2024/day05.rs:323-338 | the items of the `parse_order` test parse, and the empty item does not |
| Year2024Day05.PrintOrderExample | src/year_2024/day05.rs:324 | `11,2,4` gives `[11, 2, 4]` |
| Year2024Day05.EvenPrintOrderExample | src/year_2024/day05.rs:337 | `8,12,3,4` is `InvalidPrintOrder` |
| Year2024Day05.RepeatedPageExample | src/year_2024/day05.rs:338 | `8,4,4` is `InvalidPrintOrder` |
| Year2024Day05.TrailingCommaExample | src/year_2024/day05.rs:329-332 | `12,3,4,` is `PrintOrderParsingFailed` |
| Year2024Day05.LeadingCommaExample | src/year_2024/day05.rs:333-336 | `,12,3,4` is `PrintOrderParsingFailed` |
| Year2024Day05.ItemsOf | src/year_2024/day05.rs:83 | items without commas, joined by commas, split back into themselves |
| Year2024Day05.RuleResults | src/year_2024/day05.rs:104-107 | one `try_into` per rule line |
| Year2024Day05.OrderResults | src/year_2024/day05.rs:121-124 | one `parse_print_order` per order line |
| Year2024Day05.ParseInput | src/year_2024/day05.rs:98-103 | `parse_input` is `InputSplitFailed` exactly when no line is empty |
| Year2024Day05.ParseLines | src/year_2024/day05.rs:98-139 | the parse of the lines is `InputSplitFailed` exactly when no line is empty |
| Year2024Day05.RuleErrors | src/year_2024/day05.rs:108-120 | a failing rule line reports `OrderingRuleParsingFailed` or `InvalidOrderingRule` |
| Year2024Day05.OrderErrors | src/year_2024/day05.rs:125-137 | a failing order line reports `PrintOrderParsingFailed` or `InvalidPrintOrder` |
| Year2024Day05.ParseLinesMeaning | src/year_2024/day05.rs:98-139 | a successful parse holds the rules of the lines before the first empty line and the orders of the lines after it, one each, in order |
| Year2024Day05.ParsedWellFormed | src/year_2024/day05.rs:67-88 | parsed rules join two different pages and parsed orders are well formed |
| Year2024Day05.FiltersMeaning | src/year_2024/day05.rs:145-183 | the two filters keep exactly the orders every rule accepts and those some rule rejects |
| Year2024Day05.FiltersPartition | src/year_2024/day05.rs:145-183 | every order is kept by exactly one filter |
| Year2024Day05.MiddleFoldIsTotal | src/year_2024/day05.rs:146-153 | the fold overflows exactly when the true total of the middle pages does not fit `u32`, and gives it otherwise |
| Year2024Day05.ParsedNonEmpty | src/year_2024/day05.rs:148 | parsed orders are non-empty, so `o[len / 2]` exists |
| Year2024Day05.SumMiddlePagesOfValidOrdersMeaning | src/year_2024/day05.rs:141-154 | the valid-order answer is the parse error, or the total of the middle pages of the accepted orders, or `IntOverflow` when that does not fit `u32` |
| Year2024Day05.Swap | src/year_2024/day05.rs:165-168 | `Vec::swap` permutes the order |
| Year2024Day05.Step | src/year_2024/day05.rs:164-168 | one rule's swap in `fixed` permutes it |
| Year2024Day05.RoundOver | src/year_2024/day05.rs:163-172 | the swaps of a round permute the order |
| Year2024Day05.RoundOverStep | src/year_2024/day05.rs:164-168 | one more rule of a round adds its swap |
| Year2024Day05.Iterate | src/year_2024/day05.rs:159-175 | any number of rounds permutes the order |
| Year2024Day05.FixSound | src/year_2024/day05.rs:156-177 | what `fix_order` returns holds every rule and is a permutation of the order it was given |
| Year2024Day05.RoundsBound | src/year_2024/day05.rs:160-162 | `fix_order` runs at most 1025 rounds |
| Year2024Day05.RoundsFirst | src/year_2024/day05.rs:159 | no round before the last one reaches an order that holds every rule |
| Year2024Day05.FixIsIterate | src/year_2024/day05.rs:156-177 | `fix_order` returns the last round's order if it holds every rule, and `None` only after the full 1025 rounds |
| Year2024Day05.FixFailsIff | src/year_2024/day05.rs:156-177 | `fix_order` fails exactly when none of the first 1025 rounds reaches an order that holds every rule, and otherwise returns the first that does |
| Year2024Day05.FixIsFirst | src/year_2024/day05.rs:156-177 | the first round whose order holds every rule gives the result |
| Year2024Day05.FixOrder | src/year_2024/day05.rs:156-177 | the `while` loop with its inner loop and `break` computes `Fix` |
| Year2024Day05.FixAll | src/year_2024/day05.rs:186 | one fix per order |
| Year2024Day05.FixAllAt | src/year_2024/day05.rs:186 | the fix of order `i` is `fix_order` of it |
| Year2024Day05.FixAllFilled | src/year_2024/day05.rs:188 | fixes of non-empty orders are non-empty |
| Year2024Day05.FixedFoldIsTotal | src/year_2024/day05.rs:184-191 | with every order fixed, the fold gives the true total of their middle pages, or `IntOverflow` when it does not fit `u32` |
| Year2024Day05.FixedFoldOk | src/year_2024/day05.rs:186 | a fold that does not fail had every order fixed |
| Year2024Day05.AllFixedMeaning | src/year_2024/day05.rs:186 | every order was fixed exactly when `fix_order` succeeds on each |
| Year2024Day05.SumMiddlePagesOfFixedOrdersMeaning | src/year_2024/day05.rs:179-192 | the fixed-order answer is the parse error; else `OrderFixFailed` exactly when a rejected order cannot be fixed; else the total of the fixed orders' middle pages, or `IntOverflow` |
| Year2024Day05.RoundOverSatisfied | src/year_2024/day05.rs:164 | rules that hold in a round's starting order make no swap |
| Year2024Day05.RoundOverSegment | src/year_2024/day05.rs:164-168 | a stretch of holding rules, then one swap |
| Year2024Day05.RoundOverRest | src/year_2024/day05.rs:164-173 | the end of a round: the rules left all hold |
| Year2024Day05.RoundOverStart | src/year_2024/day05.rs:163 | a round starts from a copy of the order |
| Year2024Day05.FixedInOneRound | src/year_2024/day05.rs:159-176 | an order that one round fixes is returned after that round |
| Year2024Day05.Broken | src/year_2024/day05.rs:159 | one broken rule means not every rule holds |
| Year2024Day05.Holds | src/year_2024/day05.rs:159 | every rule holding means the loop ends |
| Year2024Day05.Checks1 | src/year_2024/day05.rs:198-239 | in `[75, 97, 47, 61, 53]` every example rule but 97 before 75 holds |
| Year2024Day05.Swaps1 | src/year_2024/day05.rs:165-168 | its one swap gives `[97, 75, 47, 61, 53]` |
| Year2024Day05.Holds1 | src/year_2024/day05.rs:240 | every example rule holds in `[97, 75, 47, 61, 53]` |
| Year2024Day05.Round1 | src/year_2024/day05.rs:163-173 | its round gives `[97, 75, 47, 61, 53]` |
| Year2024Day05.FixExample1 | src/year_2024/day05.rs:238-241 | test `fix_orders`: `[75, 97, 47, 61, 53]` is fixed to `[97, 75, 47, 61, 53]` |
| Year2024Day05.Checks2 | src/year_2024/day05.rs:198-243 | in `[61, 13, 29]` every example rule but 29 before 13 holds |
| Year2024Day05.Swaps2 | src/year_2024/day05.rs:165-168 | its one swap gives `[61, 29, 13]` |
| Year2024Day05.Holds2 | src/year_2024/day05.rs:244 | every example rule holds in `[61, 29, 13]` |
| Year2024Day05.Round2 | src/year_2024/day05.rs:163-173 | its round gives `[61, 29, 13]` |
| Year2024Day05.FixExample2 | src/year_2024/day05.rs:242-245 | test `fix_orders`: `[61, 13, 29]` is fixed to `[61, 29, 13]` |
| Year2024Day05.Checks3a | src/year_2024/day05.rs:198-247 | which example rules hold in `[97, 13, 75, 29, 47]`, first part |
| Year2024Day05.Checks3b | src/year_2024/day05.rs:198-247 | which example rules hold in `[97, 13, 75, 29, 47]`, second part: four are broken |
| Year2024Day05.Swaps3a | src/year_2024/day05.rs:165-168 | the first swap of its round |
| Year2024Day05.Swaps3b | src/year_2024/day05.rs:165-168 | the second swap |
| Year2024Day05.Swaps3c | src/year_2024/day05.rs:165-168 | the third swap |
| Year2024Day05.Swaps3d | src/year_2024/day05.rs:165-168 | the fourth swap, giving `[97, 75, 47, 29, 13]` |
| Year2024Day05.Holds3 | src/year_2024/day05.rs:248 | every example rule holds in `[97, 75, 47, 29, 13]` |
| Year2024Day05.Round3 | src/year_2024/day05.rs:163-173 | its round gives `[97, 75, 47, 29, 13]` |
| Year2024Day05.FixExample3 | src/year_2024/day05.rs:246-249 | test `fix_orders`: `[97, 13, 75, 29, 47]` is fixed to `[97, 75, 47, 29, 13]` in one round of four swaps |
| Year2024Day05.Holds4 | src/year_2024/day05.rs:220 | every example rule holds in `75,47,61,53,29` |
| Year2024Day05.Holds5 | src/year_2024/day05.rs:221 | every example rule holds in `97,61,53,29,13` |
| Year2024Day05.Holds6 | src/year_2024/day05.rs:222 | every example rule holds in `75,29,13` |
| Year2024Day05.AcceptedSnoc | src/year_2024/day05.rs:145-183 | one more order joins exactly one of the filters |
| Year2024Day05.Broken1 | src/year_2024/day05.rs:223 | some example rule is broken in `75,97,47,61,53` |
| Year2024Day05.Broken2 | src/year_2024/day05.rs:224 | some example rule is broken in `61,13,29` |
| Year2024Day05.Broken3 | src/year_2024/day05.rs:225 | some example rule is broken in `97,13,75,29,47` |
| Year2024Day05.SampleFilters | src/year_2024/day05.rs:198-225 | every example rule accepts the first three example orders and some rule rejects the last three |
| Year2024Day05.FiltersOfSix | src/year_2024/day05.rs:145-183 | three accepted and three rejected orders filter to those |
| Year2024Day05.MiddleFoldOfThree | src/year_2024/day05.rs:146-153 | the fold over three orders adds their middle pages |
| Year2024Day05.FixedFoldOfThree | src/year_2024/day05.rs:184-191 | the fold over three fixed orders adds their middle pages |
| Year2024Day05.SampleValidSum | src/year_2024/day05.rs:227-233 | test `sum`, from the example's rules and orders: 143 |
| Year2024Day05.SampleFixedSum | src/year_2024/day05.rs:252-258 | test `sum_fixed_orders`, from the example's rules and orders: 123 |
| Year2024Day05.SampleMiddles | src/year_2024/day05.rs:239-249 | the middle pages of the three fixed orders add to 123 |
| Year2024Day05.FixedSumOfThree | src/year_2024/day05.rs:184-191 | three rejected orders that are fixed give the sum of their fixes' middle pages |
| Year2024Day06.Guard.Peek | src/year_2024/day06.rs:48-55 | `peek` is the cell one step ahead in the guard's orientation, and `None` exactly when a coordinate would leave `usize` (below 0, or past `usize::MAX`) |
| Year2024Day06.Guard.Rotate | src/year_2024/day06.rs:32-39 | `rotate` keeps the position and turns the orientation right |
| Year2024Day06.Guard.Step | src/year_2024/day06.rs:41-46 | `step` keeps the orientation and moves the position one unit in it; a missing cell ahead panics, hence the precondition |
| Year2024Day06.RotateCycle | src/year_2024/day06.rs:32-39 | one and two right turns change the orientation, four give it back |
| Year2024Day06.RotateTurnsRight | src/year_2024/day06.rs:32-55 | a right turn turns the unit step by a quarter, with y growing downwards |
| Year2024Day06.CheckMarkerFacts | src/year_2024/day06.rs:84-93 | one marker check: with no guard yet, the first marker becomes the guard; with one, a marker in the line is an error; without a marker nothing changes |
| Year2024Day06.ScanLineGuardFacts | src/year_2024/day06.rs:84-123 | the four marker checks of a line fail exactly when a second marker turns up; a single marker in a guard-free line becomes the guard |
| Year2024Day06.LineObstaclesOfPrefix | src/year_2024/day06.rs:124-130 | the obstacles of the lines are those of all but the last plus the `#` cells of the last |
| Year2024Day06.ScanRowsFacts | src/year_2024/day06.rs:83-131 | the parse loop fails exactly when the lines hold more than one marker; otherwise it has every `#` cell, and a guard exactly when there was one marker |
| Year2024Day06.ParseMapSucceeds | src/year_2024/day06.rs:68-141 | `try_from` succeeds exactly on a non-empty rectangular grid with exactly one guard marker, a repeat of it in the same line going unnoticed |
| Year2024Day06.ParseMapResult | src/year_2024/day06.rs:132-138 | a parsed map has size (width of the first line, number of lines), exactly the `#` cells as obstacles, the guard where its marker is drawn, and 0 iterations |
| Year2024Day06.ParseEmptyFails | src/year_2024/day06.rs:71-75 | the empty text is `MapParsingFailed` |
| Year2024Day06.ParseRaggedFails | src/year_2024/day06.rs:76-80 | a line of another length than the first is `MapParsingFailed` |
| Year2024Day06.ParseMarkerCountFails | src/year_2024/day06.rs:83-140 | a grid without a marker, or with a second one, is `MapParsingFailed` |
| Year2024Day06.ScanRowsErrPersists | src/year_2024/day06.rs:91 | once a prefix of the lines fails, the whole parse fails |
| Year2024Day06.Scan | src/year_2024/day06.rs:81-131 | the loop over the lines with its four marker checks and obstacle collection computes `ScanRows` |
| Year2024Day06.NextGuardKeepsInvariant | src/year_2024/day06.rs:146-166 | `next` keeps the guard, if any, on a free cell of the map |
| Year2024Day06.NextGuardCases | src/year_2024/day06.rs:147-164 | `next` turns right in front of an obstacle, steps onto a free cell ahead, leaves the map when the cell ahead is outside it, and a missing guard stays missing |
| Year2024Day06.GuardAfter | src/year_2024/day06.rs:146-166 | the guard after any number of `next` calls is still gone or on a free cell |
| Year2024Day06.GuardAfterSnoc | src/year_2024/day06.rs:149-164 | one more call moves the guard once more |
| Year2024Day06.GuardAfterGone | src/year_2024/day06.rs:147 | a gone guard stays gone |
| Year2024Day06.TraceSnoc | src/year_2024/day06.rs:146-166 | one more call appends the item of the guard at that point, if there is one |
| Year2024Day06.TraceAt | src/year_2024/day06.rs:146-166 | the i-th item is the cell and orientation of the guard after i calls |
| Year2024Day06.TraceLength | src/year_2024/day06.rs:146-166 | the trace has one item per call while the guard is there |
| Year2024Day06.TraceInside | src/year_2024/day06.rs:146-166 | every emitted position lies on a free cell of the map |
| Year2024Day06.GoneStaysGone | src/year_2024/day06.rs:147 | once the guard is gone the iterator yields nothing more |
| Year2024Day06.Map.constructor | src/year_2024/day06.rs:59-64 | a map holds the parsed guard, size, obstacles and iteration count |
| Year2024Day06.Map.Next | src/year_2024/day06.rs:146-166 | `next` yields the current cell and orientation, or `None` without a guard, and replaces the guard by `NextGuard` |
| Year2024Day06.ParsedIsValid | src/year_2024/day06.rs:68-141 | a parsed guard stands inside the grid and not on an obstacle |
| Year2024Day06.TryFrom | src/year_2024/day06.rs:66-142 | `try_from` fails exactly when `ParseMap` does, with its error, and otherwise builds the parsed map |
| Year2024Day06.PositionsSnoc | src/year_2024/day06.rs:172-175 | one more item adds its cell to the set of cells |
| Year2024Day06.CountPositions | src/year_2024/day06.rs:169-177 | `count_positions` is the parse error, or the number of distinct cells of the guard's walk once it has left the map; `None` if it is still on the map after the given number of calls |
| Year2024Day06Sample.StepsAgree0 | src/year_2024/day06.rs:206-208 | the items 0 to 2 of the `map_iteration` test are consecutive states of `next` on the test map |
| Year2024Day06Sample.StepsAgree3 | src/year_2024/day06.rs:209-211 | the items 3 to 5 of the `map_iteration` test are consecutive states of `next` on the test map |
| Year2024Day06Sample.StepsAgree6 | src/year_2024/day06.rs:212-214 | the items 6 to 8 of the `map_iteration` test are consecutive states of `next` on the test map |
| Year2024Day06Sample.StepsAgree9 | src/year_2024/day06.rs:215-217 | the items 9 to 11 of the `map_iteration` test are consecutive states of `next` on the test map |
| Year2024Day06Sample.StepsAgree12 | src/year_2024/day06.rs:218-220 | the items 12 to 14 of the `map_iteration` test are consecutive states of `next` on the test map |
| Year2024Day06Sample.StepsAgree15 | src/year_2024/day06.rs:221-223 | the items 15 to 17 of the `map_iteration` test are consecutive states of `next` on the test map |
| Year2024Day06Sample.StepsAgree18 | src/year_2024/day06.rs:224-226 | the items 18 to 20 of the `map_iteration` test are consecutive states of `next` on the test map |
| Year2024Day06Sample.StepsAgree21 | src/year_2024/day06.rs:227-229 | the items 21 to 23 of the `map_iteration` test are consecutive states of `next` on the test map |
| Year2024Day06Sample.StepsAgree24 | src/year_2024/day06.rs:230-232 | the items 24 to 26 of the `map_iteration` test are consecutive states of `next` on the test map |
| Year2024Day06Sample.StepsAgree27 | src/year_2024/day06.rs:233-235 | the items 27 to 29 of the `map_iteration` test are consecutive states of `next` on the test map |
| Year2024Day06Sample.StepsAgree30 | src/year_2024/day06.rs:236-238 | the items 30 to 32 of the `map_iteration` test are consecutive states of `next` on the test map |
| Year2024Day06Sample.StepsAgree33 | src/year_2024/day06.rs:239-241 | the items 33 to 35 of the `map_iteration` test are consecutive states of `next` on the test map |
| Year2024Day06Sample.StepsAgree36 | src/year_2024/day06.rs:242-244 | the items 36 to 38 of the `map_iteration` test are consecutive states of `next` on the test map |
| Year2024Day06Sample.StepsAgree39 | src/year_2024/day06.rs:245-247 | the items 39 to 41 of the `map_iteration` test are consecutive states of `next` on the test map |
| Year2024Day06Sample.StepsAgree42 | src/year_2024/day06.rs:248-250 | the items 42 to 44 of the `map_iteration` test are consecutive states of `next` on the test map |
| Year2024Day06Sample.StepsAgree45 | src/year_2024/day06.rs:251-253 | the items 45 to 47 of the `map_iteration` test are consecutive states of `next` on the test map |
| Year2024Day06Sample.StepsAgree48 | src/year_2024/day06.rs:254-256 | the items 48 to 50 of the `map_iteration` test are consecutive states of `next` on the test map |
| Year2024Day06Sample.StepsAgree51 | src/year_2024/day06.rs:257-259 | the items 51 to 53 of the `map_iteration` test are consecutive states of `next` on the test map |
| Year2024Day06Sample.StepsAgree54 | src/year_2024/day06.rs:260-260 | the items 54 to 54 of the `map_iteration` test are consecutive states of `next` on the test map |
| Year2024Day06Sample.ItemAtTrace | src/year_2024/day06.rs:205-261 | the test lists 55 items |
| Year2024Day06Sample.StepsAgree | src/year_2024/day06.rs:205-261 | every expected item is followed by what `next` makes of it, and the last by a departed guard |
| Year2024Day06Sample.GuardsAlong | src/year_2024/day06.rs:205-261 | the guard after k calls is the one the k-th expected item describes |
| Year2024Day06Sample.SampleWalk | src/year_2024/day06.rs:199-263 | test `map_iteration`: the iterator yields exactly the 55 expected items, then stops |
| Year2024Day06Sample.KeysIncreaseAppend | src/year_2024/day06.rs:175 | two cell lists ordered by row and column, the second after the first, are ordered together |
| Year2024Day06Sample.CellsPart0Sorted | src/year_2024/day06.rs:175 | the first listed visited cells are ordered |
| Year2024Day06Sample.CellsPart1Sorted | src/year_2024/day06.rs:175 | the second part is ordered |
| Year2024Day06Sample.CellsPart2Sorted | src/year_2024/day06.rs:175 | the third part is ordered |
| Year2024Day06Sample.CellsPart3Sorted | src/year_2024/day06.rs:175 | the fourth part is ordered |
| Year2024Day06Sample.SampleCellsSorted | src/year_2024/day06.rs:175 | the 41 listed cells are ordered, so distinct |
| Year2024Day06Sample.SplitLast | src/year_2024/day06.rs:175 | a list is its initial part and its last cell |
| Year2024Day06Sample.CellSetSnoc | src/year_2024/day06.rs:175 | one more cell adds it to the set |
| Year2024Day06Sample.SortedCellsCount | src/year_2024/day06.rs:175-176 | an ordered list has as many distinct cells as entries |
| Year2024Day06Sample.SortedBelow | src/year_2024/day06.rs:175 | every cell of an ordered list is before its last |
| Year2024Day06Sample.TracePart0Listed | src/year_2024/day06.rs:206-216 | the cells of the first expected items are among the listed cells |
| Year2024Day06Sample.TracePart1Listed | src/year_2024/day06.rs:217-227 | the next eleven, too |
| Year2024Day06Sample.TracePart2Listed | src/year_2024/day06.rs:228-238 | the next eleven, too |
| Year2024Day06Sample.TracePart3Listed | src/year_2024/day06.rs:239-249 | the next eleven, too |
| Year2024Day06Sample.TracePart4Listed | src/year_2024/day06.rs:250-260 | the last eleven, too |
| Year2024Day06Sample.TraceCellListed | src/year_2024/day06.rs:205-261 | every cell of the walk is a listed cell |
| Year2024Day06Sample.ItemVisited | src/year_2024/day06.rs:172-175 | every item's cell is visited |
| Year2024Day06Sample.CellsPart0Visited | src/year_2024/day06.rs:205-261 | the first listed cells are visited |
| Year2024Day06Sample.CellsPart1Visited | src/year_2024/day06.rs:205-261 | the second part, too |
| Year2024Day06Sample.CellsPart2Visited | src/year_2024/day06.rs:205-261 | the third part, too |
| Year2024Day06Sample.CellsPart3Visited | src/year_2024/day06.rs:205-261 | the fourth part, too |
| Year2024Day06Sample.CellAtCells | src/year_2024/day06.rs:205-261 | there are 41 listed cells |
| Year2024Day06Sample.CellVisited | src/year_2024/day06.rs:205-261 | every listed cell is visited |
| Year2024Day06Sample.SamplePositions | src/year_2024/day06.rs:172-176 | the walk visits 41 distinct cells |
| Year2024Day06Sample.SampleCount | src/year_2024/day06.rs:194-197 | `count_positions` on the test map: 41, whatever budget of at least 55 calls |
| Year2024Day06Sample.SampleRowShapes | src/year_2024/day06.rs:183-192 | the test map has ten lines of ten characters |
| Year2024Day06Sample.MarkerCountPrefix | src/year_2024/day06.rs:83-123 | one more line adds its markers |
| Year2024Day06Sample.GridObstaclesPrefix | src/year_2024/day06.rs:124-130 | one more line adds its `#` cells |
| Year2024Day06Sample.LineObstacleAt | src/year_2024/day06.rs:124-127 | a line with one `#` has that one obstacle |
| Year2024Day06Sample.LineWithoutObstacle | src/year_2024/day06.rs:124-127 | a line without `#` has none |
| Year2024Day06Sample.SampleRowMarkers | src/year_2024/day06.rs:183-192 | only row 6 draws the guard, with one `^` |
| Year2024Day06Sample.UpperRowMarkers | src/year_2024/day06.rs:183-187 | the upper rows draw no guard |
| Year2024Day06Sample.LowerRowMarkers | src/year_2024/day06.rs:188-192 | of the lower rows only row 6 draws it |
| Year2024Day06Sample.SampleRowObstacles | src/year_2024/day06.rs:183-192 | the `#` cells of each row of the test map |
| Year2024Day06Sample.SampleMarkersUpTo | src/year_2024/day06.rs:183-192 | the guard is the only marker, in row 6 |
| Year2024Day06Sample.SampleObstaclesUpTo | src/year_2024/day06.rs:183-192 | the `#` cells of the first `k` rows |
| Year2024Day06Sample.SampleObstacleCells | src/year_2024/day06.rs:275-284 | the test map's obstacles are the eight the parse test expects |
| Year2024Day06Sample.SampleGuardDrawn | src/year_2024/day06.rs:265-288 | the guard drawn on the test map is `^` at (4, 6) |
| Year2024Day06Sample.ParseSample | src/year_2024/day06.rs:265-288 | test `parse_map`: the test text gives the guard at (4, 6) facing up, size 10 by 10, the eight obstacles and 0 iterations |
| Year2024Day06Sample.ParseSampleRows | src/year_2024/day06.rs:183-192 | any text whose lines are the ten rows parses to the test map |
| Year2024Day06Sample.SampleTextCount | src/year_2024/day06.rs:194-197 | test `count_distinct_positions`: the test text parses, and its walk visits 41 distinct cells |
| Year2024Day07.ParseAll | src/year_2024/day07/mod.rs:11-15 | the `collect` of the parsed lines succeeds exactly when every line parses, then holds one equation per line in order; otherwise it is the error of the first line that does not parse |
| Year2024Day07.ParsedLines | src/year_2024/day07/mod.rs:11-14 | each line is parsed on its own, in order |
| Year2024Day07.ParsedEquations | src/year_2024/day07/mod.rs:11-15 | equations of a successful parse have at least one test value, and every number fits the type |
| Year2024Day07.SumNonNegative | src/year_2024/day07/mod.rs:18-20 | a sum of non-negative test values is non-negative |
| Year2024Day07.FoldIsSum | src/year_2024/day07/mod.rs:18-21 | the `checked_add` fold from `Some(0)` over non-negative values is the true total when that fits the type, and `None` exactly when it does not |
| Year2024Day07.KeptNonNegative | src/year_2024/day07/mod.rs:17 | the filter keeps only test values of the equations, so values of an unsigned type stay non-negative |
| Year2024Day07.FoldStep | src/year_2024/day07/mod.rs:18-20 | one more value is one more `checked_add`, and `None` stays `None` |
| Year2024Day07.SumStep | src/year_2024/day07/mod.rs:17-20 | one step of `filter` and `fold`: the next equation's test value is added exactly when the solver accepts it |
| Year2024Day07.FoldKept | src/year_2024/day07/mod.rs:17-21 | after the last equation the fold is the checked total of the kept test values |
| Year2024Day07.SumAddMul | src/year_2024/day07/mod.rs:16-21 | the loop over the equations with the `+`/`*` solver yields the total of the accepted test values when it fits the type, and `None` otherwise |
| Year2024Day07.SumAddMulConcat | src/year_2024/day07/mod.rs:30-35 | the same with the three-operator solver |
| Year2024Day07.GetSumOfCalibrationValues | src/year_2024/day07/mod.rs:10-22 | `get_sum_of_calibration_values` is the first parse error, or the `u64` total of the test values of the equations solvable with `+` and `*`, and `AccumulationFailed` when that total does not fit |
| Year2024Day07.GetSumOfCalibrationValuesWithConcat | src/year_2024/day07/mod.rs:24-36 | `get_sum_of_calibration_values_with_concat`: the same in `u128`, with the concatenation operator as a third operator |
| Year2024Day07.InputLines | src/year_2024/day07/mod.rs:11-13 | the input made of formatted equations has one line per equation, each the equation's formatted line |
| Year2024Day07.ParseInput | src/year_2024/day07/mod.rs:11-15 | formatting equations as input lines and parsing that input gives back the same equations |
| Year2024Day07.KeptStep | src/year_2024/day07/mod.rs:17 | one more equation adds its test value to the kept values exactly when the solver accepts it |
| Year2024Day07.KeptSumStep | src/year_2024/day07/mod.rs:17-20 | the total of the kept values grows by what the next equation adds |
| Year2024Day07.SumKept | src/year_2024/day07/mod.rs:17-20 | the total of the kept values of a prefix is the sum of what each of its equations adds |
| Year2024Day07.KeptTotalStep | src/year_2024/day07/mod.rs:17-20 | one more equation adds its contribution to that sum |
| Year2024Day07.SumNine | src/year_2024/day07/mod.rs:42-50 | the kept total of nine equations is the sum of their nine contributions |
| Year2024Day07.SampleSum | src/year_2024/day07/mod.rs:52-63 | tests `sum_results` and `sum_results_with_concat`: on the nine sample equations, in every type wide enough for them, the kept total is 3749 with `+` and `*`, and 11387 with the concatenation operator as well |
| Year2024Day07CheckedOp.Max | src/year_2024/day07/checked_op.rs:31-42 | the largest value of each of the twelve integer types, at least `i8::MAX` |
| Year2024Day07CheckedOp.Min | src/year_2024/day07/checked_op.rs:31-42 | the smallest value: 0 for the unsigned types, one further below zero than the maximum above it for the signed ones |
| Year2024Day07CheckedOp.Modulus | src/year_2024/day07/checked_op.rs:31-42 | the number of values of a type, `2^bits` |
| Year2024Day07CheckedOp.Wrap | src/year_2024/day07/checked_op.rs:16-21 | two's complement wrap-around lands in the type's range |
| Year2024Day07CheckedOp.WrapInRange | src/year_2024/day07/checked_op.rs:16-21 | wrapping leaves a value alone exactly when it is already in range |
| Year2024Day07CheckedOp.CheckedAdd | src/year_2024/day07/checked_op.rs:16-18 | `checked_add` is `Some` of the true sum exactly when that sum is in range |
| Year2024Day07CheckedOp.CheckedMul | src/year_2024/day07/checked_op.rs:19-21 | `checked_mul` is `Some` of the true product exactly when that product is in range |
| Year2024Day07CheckedOp.Parse | src/year_2024/day07/checked_op.rs:25 | `parse::<T>()` returns only values of `T` |
| Year2024Day07CheckedOp.ParseInRange | src/year_2024/day07/checked_op.rs:25 | the unsigned and signed parsers respect the type's bounds |
| Year2024Day07CheckedOp.Concat | src/year_2024/day07/checked_op.rs:22-26 | `concat` returns only values of the type |
| Year2024Day07CheckedOp.Digits | src/year_2024/day07/checked_op.rs:23-24 | the number of digits of `n.to_string()`: at least one, with `10^(d-1) <= n < 10^d` |
| Year2024Day07CheckedOp.ParseDigits | src/year_2024/day07/checked_op.rs:25 | a digit string parses to its decimal value exactly when that fits the type |
| Year2024Day07CheckedOp.DecimalAppend | src/year_2024/day07/checked_op.rs:23-24 | the digits of `x` followed by those of `y` spell `x * 10^digits(y) + y` |
| Year2024Day07CheckedOp.ConcatNonNegative | src/year_2024/day07/checked_op.rs:22-26 | for non-negative operands `concat(a, b)` is `a * 10^digits(b) + b`, and `None` exactly when that does not fit |
| Year2024Day07CheckedOp.ConcatNegativeLeft | src/year_2024/day07/checked_op.rs:22-26 | a negative left operand keeps its sign: `concat(-a, b)` is `-(a * 10^digits(b) + b)`, `None` below the minimum or in an unsigned type |
| Year2024Day07CheckedOp.NegativeLeftSigned | src/year_2024/day07/checked_op.rs:22-26 | the signed half of that case |
| Year2024Day07CheckedOp.NegativeLeftUnsigned | src/year_2024/day07/checked_op.rs:22-26 | the unsigned half: always `None` |
| Year2024Day07CheckedOp.ConcatNegativeRight | src/year_2024/day07/checked_op.rs:22-26 | a negative right operand puts a `-` inside the digits, which never parses, so `None` |
| Year2024Day07CheckedOp.ConcatZero | src/year_2024/day07/checked_op.rs:22-26 | `concat(a, 0)` appends one zero digit, `None` when `10 * a` does not fit |
| Year2024Day07CheckedOp.ConcatExamples | src/year_2024/day07/checked_op.rs:51-61 | the cases of test `interger_concatinate`: 1 and 2 give 12, 56 and 1 in `u8` give `None`, 809 and 99 give 80999 |
| Year2024Day07Equation.DigitRun | src/year_2024/day07/equation.rs:24 | the `\d+` run at the start of a string: a prefix of ASCII digits not followed by another digit |
| Year2024Day07Equation.ValueRun | src/year_2024/day07/equation.rs:24 | the greedy `(?: \d+)*` match at the start of a string stays within it |
| Year2024Day07Equation.ParseValues | src/year_2024/day07/equation.rs:42-44 | the parsed values, one per piece and each of type `T`, or `IntegerTypeTooSmall` |
| Year2024Day07Equation.FromStr | src/year_2024/day07/equation.rs:23-51 | `from_str` gives an equation of type `T` with at least one value; `ParsingFailed` exactly when the regex has no match, otherwise only `IntegerTypeTooSmall` |
| Year2024Day07Equation.FormatValues | src/year_2024/day07/equation.rs:24 | the written value list is empty exactly for no values, and otherwise starts with a space and ends in a digit |
| Year2024Day07Equation.Decimals | src/year_2024/day07/equation.rs:40-42 | one decimal string per value |
| Year2024Day07Equation.FormatValuesChars | src/year_2024/day07/equation.rs:24 | a written value list holds only spaces and digits |
| Year2024Day07Equation.FormatIsLine | src/year_2024/day07/equation.rs:23 | a written equation is one line, without a line break |
| Year2024Day07Equation.DigitRunPrefix | src/year_2024/day07/equation.rs:24 | a digit run stops where the digits stop |
| Year2024Day07Equation.ValueRunFormat | src/year_2024/day07/equation.rs:24 | the value group takes the whole written value list |
| Year2024Day07Equation.CapturesFormat | src/year_2024/day07/equation.rs:24-38 | the groups of a written equation are its test value's digits and its written value list |
| Year2024Day07Equation.CapturesLine | src/year_2024/day07/equation.rs:24-38 | digits, `:` and a value group that runs to the end are captured whole |
| Year2024Day07Equation.DigitsThenColon | src/year_2024/day07/equation.rs:24 | a digit run followed by `:` is the whole run |
| Year2024Day07Equation.ColonMatch | src/year_2024/day07/equation.rs:24 | a digit run, `:` and a value group make a match |
| Year2024Day07Equation.GroupsAt | src/year_2024/day07/equation.rs:24-38 | a match at the start of the line has those groups |
| Year2024Day07Equation.ColonSplit | src/year_2024/day07/equation.rs:24 | how a line splits around its `:` |
| Year2024Day07Equation.FormatValuesJoin | src/year_2024/day07/equation.rs:35-40 | the written value list is a space and then the decimals joined by spaces |
| Year2024Day07Equation.TrimFormat | src/year_2024/day07/equation.rs:39 | `trim` removes just that leading space |
| Year2024Day07Equation.TrimOneSpace | src/year_2024/day07/equation.rs:39 | trimming a space before a string that starts and ends with a digit drops the space only |
| Year2024Day07Equation.JoinFirst | src/year_2024/day07/equation.rs:40 | a join starts with the first piece |
| Year2024Day07Equation.SplitJoinDigits | src/year_2024/day07/equation.rs:40 | `split(' ')` takes apart digit pieces joined by single spaces |
| Year2024Day07Equation.ParseDecimal | src/year_2024/day07/equation.rs:33-34 | a decimal string parses back to its value, or overflows when that does not fit |
| Year2024Day07Equation.ParseValuesDecimals | src/year_2024/day07/equation.rs:42-44 | the decimals of values parse back to them when all of them fit, and otherwise give `IntegerTypeTooSmall` |
| Year2024Day07Equation.AllOfTypeCons | src/year_2024/day07/equation.rs:42-44 | every value fits exactly when the first and the rest do |
| Year2024Day07Equation.FromStrFormat | src/year_2024/day07/equation.rs:23-51 | parsing a written equation gives it back when it fits `T`, and `IntegerTypeTooSmall` otherwise |
| Year2024Day07Equation.ParseExample190 | src/year_2024/day07/equation.rs:135-141 | test `parse`: `190: 10 19` in `u8` |
| Year2024Day07Equation.FormatValuesCons | src/year_2024/day07/equation.rs:24 | a written value list is the first value's decimal after a space, then the rest |
| Year2024Day07Equation.Decimals3267 | src/year_2024/day07/equation.rs:143-152 | the decimals of the numbers of `3267: 81 40 27` |
| Year2024Day07Equation.Decimals161011 | src/year_2024/day07/equation.rs:154-167 | the decimals of the numbers of `161011: 16 10 13` |
| Year2024Day07Equation.Format3267 | src/year_2024/day07/equation.rs:143-152 | `3267: 81 40 27` is that equation written out |
| Year2024Day07Equation.FormatValues3267 | src/year_2024/day07/equation.rs:143-152 | its value list ` 81 40 27` |
| Year2024Day07Equation.Format161011 | src/year_2024/day07/equation.rs:154-167 | `161011: 16 10 13` is that equation written out |
| Year2024Day07Equation.FormatValues161011 | src/year_2024/day07/equation.rs:154-167 | its value list ` 16 10 13` |
| Year2024Day07Equation.ParseExample3267 | src/year_2024/day07/equation.rs:142-152 | test `parse`: `3267: 81 40 27` is too large for `u8` and parses in `u16` |
| Year2024Day07Equation.ParseExample161011 | src/year_2024/day07/equation.rs:153-167 | test `parse`: `161011: 16 10 13` is too large for `u8` and `u16` and parses in `u32` |
| Year2024Day07Equation.ParseExampleNoValues | src/year_2024/day07/equation.rs:168 | test `parse`: `123:` has no match, so `ParsingFailed` |
| Year2024Day07Equation.AddMulOps | src/year_2024/day07/equation.rs:75-79 | a bit vector read as operators, a set bit adding and a clear one multiplying, one operator per bit |
| Year2024Day07Equation.AdditionBits | src/year_2024/day07/equation.rs:75-79 | an operator list read back as bits, one per operator |
| Year2024Day07Equation.AddMulOpsRoundTrip | src/year_2024/day07/equation.rs:75-79 | reading back the bits of a `+`/`*` operator list gives the list |
| Year2024Day07Equation.EvaluateNone | src/year_2024/day07/equation.rs:72-73 | once the accumulator is `None` it stays `None` |
| Year2024Day07Equation.EvaluateLeftToRight | src/year_2024/day07/equation.rs:69-82 | the zip loop starts from the first value and combines each later one in turn by its operator, strictly left to right, and stops at the first overflow |
| Year2024Day07Equation.PowTwoUsize | src/year_2024/day07/equation.rs:67 | `1 << (len - 1)` fits a `usize` for up to 64 values |
| Year2024Day07Equation.IsSolvableAddMul | src/year_2024/day07/equation.rs:62-89 | `is_solvable_add_mul` is true exactly when some choice of `+` and `*` between the values, evaluated left to right with checked arithmetic, reaches the test value |
| Year2024Day07Equation.IsSolvableAddMulConcat | src/year_2024/day07/equation.rs:91-125 | `is_solvable_add_mul_concat` is true exactly when some choice of `+`, `*` and concatenation reaches the test value |
| Year2024Day07Equation.AddMulImpliesConcat | src/year_2024/day07/equation.rs:62-125 | an equation solvable with `+` and `*` is solvable with concatenation as well |
| Year2024Day07Equation.ReachableSound | src/year_2024/day07/equation.rs:67-86 | a success of the depth-first search is an allowed operator list that reaches the test value |
| Year2024Day07Equation.ReachableComplete | src/year_2024/day07/equation.rs:67-86 | every allowed operator list that reaches the test value is found by the search |
| Year2024Day07Equation.SolvableAddMulIsReachable | src/year_2024/day07/equation.rs:62-89 | the `+`/`*` verdict is the search without concatenation |
| Year2024Day07Equation.SolvableAddMulConcatIsReachable | src/year_2024/day07/equation.rs:91-125 | the three-operator verdict is the search with concatenation |
| Year2024Day07Equation.SearchMonotone | src/year_2024/day07/equation.rs:62-125 | a wider type, or concatenation besides, only adds solutions |
| Year2024Day07Equation.ApplyIsCombine | src/year_2024/day07/equation.rs:75-79 | on non-negative values an operator gives the arithmetic result when it fits the type, `None` otherwise |
| Year2024Day07Equation.ReachableIsSearch | src/year_2024/day07/equation.rs:67-86 | on non-negative values the search is arithmetic with a bound |
| Year2024Day07Equation.VerdictIsSearch | src/year_2024/day07/equation.rs:62-125 | either verdict on non-negative values is that arithmetic search |
| Year2024Day07Equation.Accepted | src/year_2024/day07/equation.rs:62-125 | a line solved in 64 bits is solved in every wide type and with every larger operator set |
| Year2024Day07Equation.Rejected | src/year_2024/day07/equation.rs:62-125 | a line the 128-bit search rejects is rejected in every wide type and with every smaller operator set |
| Year2024Day07Equation.SampleLine0 | src/year_2024/day07/equation.rs:172-249 | `190: 10 19` is solvable with and without concatenation |
| Year2024Day07Equation.SampleLine1 | src/year_2024/day07/equation.rs:172-249 | `3267: 81 40 27` too |
| Year2024Day07Equation.SampleLine2 | src/year_2024/day07/equation.rs:172-249 | `83: 17 5` is solvable in neither way |
| Year2024Day07Equation.SampleLine3 | src/year_2024/day07/equation.rs:172-249 | `156: 15 6` is solvable only with concatenation |
| Year2024Day07Equation.SampleLine4 | src/year_2024/day07/equation.rs:172-249 | `7290: 6 8 6 15` is solvable only with concatenation |
| Year2024Day07Equation.SampleLine5 | src/year_2024/day07/equation.rs:172-249 | `161011: 16 10 13` is solvable in neither way |
| Year2024Day07Equation.SampleLine6 | src/year_2024/day07/equation.rs:172-249 | `192: 17 8 14` is solvable only with concatenation |
| Year2024Day07Equation.SampleLine7AfterSum | src/year_2024/day07/equation.rs:241-244 | `21037: 9 7 18 13` cannot be reached after `9 + 7` |
| Year2024Day07Equation.SampleLine7AfterProduct | src/year_2024/day07/equation.rs:241-244 | nor after `9 * 7` |
| Year2024Day07Equation.SampleLine7AfterJoined | src/year_2024/day07/equation.rs:241-244 | nor after joining 9 and 7 |
| Year2024Day07Equation.SampleLine7 | src/year_2024/day07/equation.rs:172-249 | `21037: 9 7 18 13` is solvable in neither way |
| Year2024Day07Equation.SampleLine8 | src/year_2024/day07/equation.rs:172-249 | `292: 11 6 16 20` is solvable with and without concatenation |
| Year2024Day07Equation.SampleLines | src/year_2024/day07/equation.rs:172-249 | the verdicts on the nine sample lines, with concatenation or without |
| Year2024Day07Equation.SampleVerdictCounts | src/year_2024/day07/equation.rs:172-249 | tests `check_solvable` and `check_solvable_with_concat`: lines 1, 2 and 9 are solvable with `+` and `*`; lines 4, 5 and 7 as well once concatenation is allowed; in every 64- and 128-bit type |
| Year2024Day07Old.GetBitVector | src/year_2024/day07.rs:118-130 | the earlier `get_bit_vector`: `BitFieldGeneration` exactly when `n` needs more than `len` binary digits, otherwise the `len` lowest bits, least significant first |
| Year2024Day07Old.FromStr | src/year_2024/day07.rs:87-115 | the earlier `from_str`: an equation of type `T` with at least one value, and `ParsingFailed` for every failure, a number too large for `T` included |
| Year2024Day07Old.FromStrAgrees | src/year_2024/day07.rs:87-115 | it parses exactly as the later version, whose `IntegerTypeTooSmall` it reports as `ParsingFailed` |
| Year2024Day07Old.ParseExamples | src/year_2024/day07.rs:241-275 | test `parse` of this version: `3267: 81 40 27` and `161011: 16 10 13` fail in the narrow types, now as `ParsingFailed` |
| Year2024Day07Old.BitVectorExamples | src/year_2024/day07.rs:277-282 | test `generate_bit_vector`: 1 and 5 in four bits, and 5 not in two |
| Year2024Day07Old.ParseAll | src/year_2024/day07.rs:172-175 | the `collect` succeeds exactly when every line parses as `u64`, with one equation per line, and is `ParsingFailed` otherwise |
| Year2024Day07Old.ParsedLines | src/year_2024/day07.rs:172-174 | each line parsed on its own |
| Year2024Day07Old.ParsedExpected | src/year_2024/day07.rs:175 | parsed test values are `u64` values, so not negative |
| Year2024Day07Old.GetSumOfCalibrationValues | src/year_2024/day07.rs:170-182 | `get_sum_of_calibration_values` is `ParsingFailed` on a bad line, or the `u64` total of the test values solvable with `+` and `*`, `AccumulationFailed` when it does not fit |
| Year2024Day07Old.AnswerAgrees | src/year_2024/day07.rs:170-182 | both versions give the same `u64` answer, but for the kind of parse error |
| Year2024Day07OperationSelection.Bits | src/year_2024/day07/operation_selection.rs:14-19 | the `len` lowest binary digits, one per position |
| Year2024Day07OperationSelection.BitsValue | src/year_2024/day07/operation_selection.rs:14-19 | the value of a bit vector is below `2^len` |
| Year2024Day07OperationSelection.BitsValueOfBits | src/year_2024/day07/operation_selection.rs:14-19 | decoding the bits of a number below `2^len` gives it back |
| Year2024Day07OperationSelection.BitsOfBitsValue | src/year_2024/day07/operation_selection.rs:14-19 | every bit vector is the bits of its value, so each vector of length `len` is reached by exactly one number below `2^len` |
| Year2024Day07OperationSelection.GetBitVector | src/year_2024/day07/operation_selection.rs:10-22 | `get_bit_vector` is `BitFieldGeneration` exactly when `n` exceeds `2^len - 1`, and otherwise the `len` lowest bits, least significant first |
| Year2024Day07OperationSelection.DigitOfOperation | src/year_2024/day07/operation_selection.rs:38-43 | every operation is produced by exactly one base-3 digit |
| Year2024Day07OperationSelection.Trits | src/year_2024/day07/operation_selection.rs:35-46 | the `len` lowest base-3 digits as operations, one per position |
| Year2024Day07OperationSelection.TritsValue | src/year_2024/day07/operation_selection.rs:35-46 | the value of an operation vector is below `3^len` |
| Year2024Day07OperationSelection.TritsValueOfTrits | src/year_2024/day07/operation_selection.rs:35-46 | decoding the digits of a number below `3^len` gives it back |
| Year2024Day07OperationSelection.TritsOfTritsValue | src/year_2024/day07/operation_selection.rs:35-46 | every operation vector of length `len` is reached by exactly one number below `3^len` |
| Year2024Day07OperationSelection.TritsStep | src/year_2024/day07/operation_selection.rs:37-45 | one loop step moves the lowest digit onto the end of the vector |
| Year2024Day07OperationSelection.GetEnumerationVector | src/year_2024/day07/operation_selection.rs:24-48 | `get_enumeration_vector` is `EnumerationFieldGeneration` exactly when `len` does not fit `u32` or `n` exceeds `3^len - 1`, and otherwise the `len` lowest base-3 digits as operations |
| Year2024Day07OperationSelection.EnumerationLengthLimit | src/year_2024/day07/operation_selection.rs:28-31 | `3^len` fits a `u32` exactly for `len` up to 20 |
| Year2024Day07OperationSelection.SelectionExamples | src/year_2024/day07/operation_selection.rs:59-87 | the cases of tests `generate_bit_vector` and `generate_enumeration_vector` |
| Year2024Day08.DistinctPositionCount | src/year_2024/day08/mod.rs:14-17 | the number of distinct positions among the antinodes |
| Year2024Day08.CountDistinctAntinodePositions | src/year_2024/day08/mod.rs:10-18 | `count_distinct_antinode_positions` is `ParsingFailed` exactly when the map does not parse, and otherwise the number of distinct positions of the double-distance antinodes |
| Year2024Day08.CountDistinctAntinodePositionsWithResonantHarmonics | src/year_2024/day08/mod.rs:20-30 | `count_distinct_antinode_postions_with_resonant_harmonics`: the same with the resonant-harmonics antinodes |
| Year2024Day08.CountsBounded | src/year_2024/day08/mod.rs:10-30 | both answers are at most the number of cells of the map, since every antinode lies on it |
| Year2024Day08Antinode.Cmp | src/year_2024/day08/antinode.rs:9-16 | antinodes are ordered by position first and by frequency on a tie; `Equal` exactly for equal antinodes |
| Year2024Day08Antinode.PartialCmp | src/year_2024/day08/antinode.rs:18-22 | `partial_cmp` always answers, with `Equal` exactly for equal antinodes |
| Year2024Day08Antinode.CmpTotalOrder | src/year_2024/day08/antinode.rs:9-16 | the order is antisymmetric and transitive |
| Year2024Day08Position.GetDiff | src/year_2024/day08/position.rs:8-12 | `get_diff` is the step from one position to the other, present exactly when both differences fit an `isize` |
| Year2024Day08Position.AddDiff | src/year_2024/day08/position.rs:14-18 | `add_diff` is `p + d`, present exactly when both coordinates stay in `usize` |
| Year2024Day08Position.SubDiff | src/year_2024/day08/position.rs:20-24 | `sub_diff` is `p - d`, present exactly when both components have an `isize` negation and both coordinates stay in `usize` |
| Year2024Day08Position.AddGetDiff | src/year_2024/day08/position.rs:8-18 | adding the step from `p` to `q` onto `p` lands on `q` |
| Year2024Day08Position.SubGetDiff | src/year_2024/day08/position.rs:8-24 | subtracting that step from `q` lands on `p` |
| Year2024Day08Position.SubAfterAdd | src/year_2024/day08/position.rs:14-24 | subtraction undoes addition whenever the step has a negation |
| Year2024Day08Position.Cmp | src/year_2024/day08/position.rs:31-38 | positions are ordered by x, and by y on a tie; `Equal` exactly for equal positions |
| Year2024Day08Position.CmpTotalOrder | src/year_2024/day08/position.rs:31-44 | the order is antisymmetric and transitive |
| Year2024Day08Position.DiffExamples | src/year_2024/day08/position.rs:50-75 | test `position_diff`: its three cases |
| Year2024Day08SignedDiff.WidthRanges | src/year_2024/day08/signed_diff.rs:21-26 | for each pair of types the unsigned maximum is twice the signed maximum plus one |
| Year2024Day08SignedDiff.SignedDiff | src/year_2024/day08/signed_diff.rs:8-16 | `signed_diff` is `a - b` exactly when its magnitude is at most the signed maximum, and `None` otherwise |
| Year2024Day08SignedDiff.SignedDiffAntisymmetric | src/year_2024/day08/signed_diff.rs:8-16 | swapping the operands negates the result and keeps whether there is one |
| Year2024Day08SignedDiff.SignedDiffSelf | src/year_2024/day08/signed_diff.rs:8-16 | a value minus itself is 0 |
| Year2024Day08SignedDiff.SignedDiffMaxOne | src/year_2024/day08/signed_diff.rs:46-53 | `MAX.signed_diff(1)` is `None` and `MAX.signed_diff(MAX)` is 0 |
| Year2024Day08SignedDiff.SignedMinNotProduced | src/year_2024/day08/signed_diff.rs:9-12 | the signed minimum is never produced: `0 - (max + 1)` fails `try_from` on its magnitude |
| Year2024Day08SignedDiff.SignedDiffSmall | src/year_2024/day08/signed_diff.rs:34-45 | 8 and 9 differ by -1 and 1, in every width |
| Year2024Day08Map.RowAntennas | src/year_2024/day08/map.rs:32-39 | the antennas among the first characters of a row: exactly its alphanumeric cells, left to right |
| Year2024Day08Map.GridAntennasFacts | src/year_2024/day08/map.rs:31-40 | an antenna is listed exactly when its cell is alphanumeric, with that character as frequency, in strict row-major order |
| Year2024Day08Map.ParseSpecFacts | src/year_2024/day08/map.rs:17-43 | `from_str` fails exactly on empty input or a line whose length differs from the first; on success every antenna lies inside the map and is the character of its cell |
| Year2024Day08Map.ParsedWellFormed | src/year_2024/day08/map.rs:17-43 | a parsed map is well formed: its antennas lie inside it, in row-major order |
| Year2024Day08Map.FromStr | src/year_2024/day08/map.rs:15-44 | `Map::from_str` is `ParsingFailed` exactly when the text is empty or ragged, and otherwise has the size of the first line by the number of lines and every antenna |
| Year2024Day08Map.ScanRow | src/year_2024/day08/map.rs:32-39 | the inner loop collects the antennas of one row |
| Year2024Day08Map.RowMajorDistinct | src/year_2024/day08/map.rs:31-40 | antennas in row-major order are distinct |
| Year2024Day08Map.AntennaPairsFacts | src/year_2024/day08/map.rs:103-125 | `get_antenna_pairs` yields pairs of distinct antennas of the same frequency, never a pair in both orientations, and every two distinct antennas of one frequency in one orientation |
| Year2024Day08Map.NotYetPaired | src/year_2024/day08/map.rs:113-120 | when a pair is looked at, neither orientation of it has been inserted yet |
| Year2024Day08Map.PairFirst | src/year_2024/day08/map.rs:114-121 | the innermost loop pairs antenna `i` with every antenna of its frequency |
| Year2024Day08Map.PairFrequency | src/year_2024/day08/map.rs:111-122 | the middle loop adds every pair of one frequency |
| Year2024Day08Map.FollowingStep | src/year_2024/day08/map.rs:172-173 | a step that stays on the map moves by the difference, added or subtracted, and uses up room, so an iterator ends |
| Year2024Day08Map.MulStep | src/year_2024/day08/map.rs:172 | one more step along a line |
| Year2024Day08Map.Between | src/year_2024/day08/map.rs:172-173 | a coordinate between two on-map coordinates of a line is on the map |
| Year2024Day08Map.MulNonNegative | src/year_2024/day08/map.rs:172 | signs of multiples along a line |
| Year2024Day08Map.RayMembers | src/year_2024/day08/map.rs:167-194 | from an on-map start an iterator yields exactly the on-map points `s + k*e`, `k >= 0`, of its line, where a step off the map ends it |
| Year2024Day08Map.AntinodeIterator.constructor | src/year_2024/day08/map.rs:159-165 | an iterator holds its current position, difference, frequency, map size and direction |
| Year2024Day08Map.AntinodeIterator.Nth | src/year_2024/day08/map.rs:133-137 | `nth(n)` is the item `n` places on, present exactly when there are more than `n` items left |
| Year2024Day08Map.AntinodeIterator.Next | src/year_2024/day08/map.rs:169-193 | `next` yields the current position as an antinode and moves on, stopping at the first step off the map; an exhausted iterator yields nothing |
| Year2024Day08Map.RaySecond | src/year_2024/day08/map.rs:133-137 | `nth(1)` is the on-map point one step beyond the start, present exactly when that point is on the map |
| Year2024Day08Map.Marked | src/year_2024/day08/map.rs:174-177 | the antinodes of one frequency at the given positions, in order |
| Year2024Day08Map.PairsOnMap | src/year_2024/day08/map.rs:103-125 | every pair of a parsed map is one the collectors accept, of one frequency |
| Year2024Day08Map.PairDoubleDistanceMeaning | src/year_2024/day08/map.rs:127-141 | the double-distance antinodes of a pair `(a, b)` are exactly `2b - a` and `2a - b`, each when it lies on the map |
| Year2024Day08Map.PairHarmonicsMeaning | src/year_2024/day08/map.rs:143-155 | the harmonic antinodes of a pair `(a, b)` are exactly the on-map points `b + k(b - a)` and `a - k(b - a)`, `k >= 0`, both antennas included |
| Year2024Day08Map.DoubleDistanceInside | src/year_2024/day08/map.rs:127-141 | every double-distance antinode lies on the map |
| Year2024Day08Map.HarmonicsInside | src/year_2024/day08/map.rs:143-155 | every harmonic antinode lies on the map |
| Year2024Day08Map.MarkedMembers | src/year_2024/day08/map.rs:174-177 | an antinode is marked exactly when it has the frequency and one of the positions |
| Year2024Day08Map.CollectPairs | src/year_2024/day08/map.rs:104-124 | the outer loop over the frequencies collects exactly the antenna pairs, whatever the order of the frequencies |
| Year2024Day08Map.GetAntinodeIterators | src/year_2024/day08/map.rs:55-101 | `get_antinode_iterators`: with `d = second - first`, an adding iterator from `second` and a subtracting one from `first`; two exhausted iterators when the frequencies differ or `d` does not fit |
| Year2024Day08Map.Map.constructor | src/year_2024/day08/map.rs:10-13 | a map holds its size and antennas |
| Year2024Day08Map.Map.GetAntennaPairs | src/year_2024/day08/map.rs:103-125 | `get_antenna_pairs` returns exactly the antenna pairs |
| Year2024Day08Map.Map.GetAntinodesDoubleDistance | src/year_2024/day08/map.rs:127-141 | `get_antinodes_double_distance` returns exactly the double-distance antinodes of all pairs |
| Year2024Day08Map.Map.GetAntinodesResonantHarmonics | src/year_2024/day08/map.rs:143-155 | `get_antinodes_resonant_harmonics` returns exactly the harmonic antinodes of all pairs |
| Year2024Day08Map.CollectDoubleDistance | src/year_2024/day08/map.rs:130-139 | the loop of `get_antinodes_double_distance` collects the double-distance antinodes of the given pairs |
| Year2024Day08Map.CollectHarmonics | src/year_2024/day08/map.rs:145-153 | the loop of `get_antinodes_resonant_harmonics` collects their harmonic antinodes |
| Year2024Day08Map.DoubleDistanceOfPair | src/year_2024/day08/map.rs:131-138 | one round: `nth(1)` of both iterators of a pair |
| Year2024Day08Map.HarmonicsOfPair | src/year_2024/day08/map.rs:146-152 | one round: both iterators of a pair drained |
| Year2024Day08Map.ElementsAppend | src/year_2024/day08/map.rs:134-148 | pushing adds the new items to the set of items |
| Year2024Day08Map.DoubleDistanceOverAdd | src/year_2024/day08/map.rs:130-139 | one more pair adds its double-distance antinodes |
| Year2024Day08Map.HarmonicsOverAdd | src/year_2024/day08/map.rs:145-153 | one more pair adds its harmonic antinodes |
| Year2024Day08Map.Drain | src/year_2024/day08/map.rs:147-152 | `for antinode in iter` pushes every remaining item, in order |
| Year2024Day09DiskMap.Repeat | src/year_2024/day09/disk_map.rs:25-32 | `n` copies of a value |
| Year2024Day09DiskMap.PushRun | src/year_2024/day09/disk_map.rs:25-32 | the push loop appends `size` copies of the value to the blocks |
| Year2024Day09DiskMap.FromStr | src/year_2024/day09/disk_map.rs:9-45 | `DiskMap::from_str` is `ParsingFailed` unless the text is exactly one line of digits short enough for the file ids to fit `usize`, and otherwise has the blocks and files that line describes |
| Year2024Day09DiskMap.BlocksLength | src/year_2024/day09/disk_map.rs:18-39 | there are as many blocks as the digits add up to |
| Year2024Day09DiskMap.BlocksOfRuns | src/year_2024/day09/disk_map.rs:18-39 | digit `i` becomes the blocks from the sum of the digits before it to the sum including it, holding file `i / 2` for an even `i` and nothing for an odd one |
| Year2024Day09DiskMap.FilesOfMeaning | src/year_2024/day09/disk_map.rs:24-35 | file `k` has id `k` and the size of digit `2k`, and every even digit is a file |
| Year2024Day09DiskMap.Append | src/year_2024/day09/disk_map.rs:18-39 | one more digit adds its run of blocks and, in an even position, its file |
| Year2024Day09DiskMap.FiveDigits | src/year_2024/day09/disk_map.rs:18-39 | the layout of five digits: file 0, free space, file 1, free space, file 2 |
| Year2024Day09DiskMap.ParseExample | src/year_2024/day09/disk_map.rs:54-73 | test `parse`: `12345` gives one block of file 0, two free, three of file 1, four free and five of file 2 |
| Year2024Day09DiskMap.TwoLinesExample | src/year_2024/day09/disk_map.rs:128-131 | test `parse`: two lines are `ParsingFailed` |
| Year2024Day09DiskMap.NotDigitsExamples | src/year_2024/day09/disk_map.rs:142-149 | test `parse`: no line, or a letter among the digits, is `ParsingFailed` |
| Year2024Day09DiskMap.FinalNewlineExample | src/year_2024/day09/disk_map.rs:132-141 | test `parse`: a final newline ends the one line |
| Year2024Day09DiskMap.ThreeDigits | src/year_2024/day09/disk_map.rs:18-39 | the layout of three digits: file 0, free space, file 1 |
| Year2024Day09DiskMap.ParseExampleNoGaps | src/year_2024/day09/disk_map.rs:74-87 | test `parse`: `90909` gives three files of nine blocks and no free space |
| Year2024Day09DiskMap.Flatten | src/year_2024/day09/disk_map.rs:64-66 | `into_iter().flatten()` of runs: no runs give no blocks |
| Year2024Day09DiskMap.FlattenSnoc | src/year_2024/day09/disk_map.rs:64-66 | one more run appends its blocks |
| Year2024Day09DiskMap.FlattenDropEmpty | src/year_2024/day09/disk_map.rs:108-110 | an empty run adds no block |
| Year2024Day09DiskMap.RunsOf | src/year_2024/day09/disk_map.rs:18-39 | one run per digit |
| Year2024Day09DiskMap.RunsOfMeaning | src/year_2024/day09/disk_map.rs:18-39 | run `i` is `size` copies of what digit `i` describes, and the blocks are the runs one after another |
| Year2024Day09DiskMap.LargerRunsOf | src/year_2024/day09/disk_map.rs:91-110 | the runs of the 19 digits of the larger sample: those the test lists, and an empty one for digit 17 |
| Year2024Day09DiskMap.FirstRunsMatch | src/year_2024/day09/disk_map.rs:92-100 | the first nine listed runs are those of the first nine digits |
| Year2024Day09DiskMap.LaterRunsMatch | src/year_2024/day09/disk_map.rs:101-108 | the next eight are those of digits 9 to 16 |
| Year2024Day09DiskMap.LargerFilesOf | src/year_2024/day09/disk_map.rs:114-125 | the files of the larger sample are the ten the test lists |
| Year2024Day09DiskMap.ParseExampleLarger | src/year_2024/day09/disk_map.rs:88-127 | test `parse`: `2333133121414131402` gives the blocks and files the test lists |
| Year2024Day10Map.LineHeights | src/year_2024/day10/map.rs:28-32 | each character parsed on its own: heights exactly when every character is a digit, one per character |
| Year2024Day10Map.Heights | src/year_2024/day10/map.rs:25-35 | the heights of all lines, concatenated, present exactly when every line is all digits |
| Year2024Day10Map.HeightsLength | src/year_2024/day10/map.rs:25-35 | there is one height per character, each below 10 |
| Year2024Day10Map.ParseFails | src/year_2024/day10/map.rs:16-39 | `from_str` fails exactly on an empty text, a non-digit character, or a digit count other than the line count times the first line's width |
| Year2024Day10Map.HeightAt | src/year_2024/day10/map.rs:55-67 | indexing by a position reads row `y`, column `x` |
| Year2024Day10Map.ZerosInRow | src/year_2024/day10/map.rs:42-46 | the height-0 cells of a row, exactly those, left to right |
| Year2024Day10Map.ZerosInRowsFacts | src/year_2024/day10/map.rs:40-47 | the trail heads are exactly the height-0 cells, in row-major order without repetition |
| Year2024Day10Map.Map.constructor | src/year_2024/day10/map.rs:9-12 | a map holds its matrix and trail heads |
| Year2024Day10Map.Map.GetTrailHeads | src/year_2024/day10/map.rs:70-72 | `get_trail_heads` is every height-0 cell, in row-major order |
| Year2024Day10Map.FromStr | src/year_2024/day10/map.rs:14-53 | `from_str` is `ParsingFailed` exactly when the heights do not parse or do not fill the matrix, and otherwise has the matrix of heights and its trail heads |
| Year2024Day10Map.CollectTrailHeads | src/year_2024/day10/map.rs:40-47 | the nested loop collects the height-0 cells of all rows |
| Year2024Day10Map.PushRowZeros | src/year_2024/day10/map.rs:41-47 | one pass of the outer loop adds the zeros of the next row |
| Year2024Day10Map.RowZeros | src/year_2024/day10/map.rs:42-46 | the inner loop collects the zeros of one row |
| Year2024Day10Map.NeighboursAreAdjacent | src/year_2024/day10/map.rs:121-138 | the surrounding positions are exactly the adjacent ones inside the range of `usize`, each listed once |
| Year2024Day10Map.SurroundingPositions | src/year_2024/day10/map.rs:122-137 | `sourounding_positions` pushes left, right, up and down when the coordinate does not leave `usize` |
| Year2024Day10Map.Snapshot | src/year_2024/day10/map.rs:84 | the heights of the matrix as a value, with the same cells |
| Year2024Day10Map.SnapshotHeight | src/year_2024/day10/map.rs:93-95 | with the same heights |
| Year2024Day10Map.Climb | src/year_2024/day10/map.rs:90-100 | one call of `next` keeps the frontier inside the map |
| Year2024Day10Map.ClimbN | src/year_2024/day10/map.rs:90-106 | so do any number of calls |
| Year2024Day10Map.ClimbRaises | src/year_2024/day10/map.rs:92-99 | a frontier of height-`h` cells climbs to height-`h + 1` cells, each adjacent to a cell of the frontier |
| Year2024Day10Map.ContainedFits | src/year_2024/day10/map.rs:122-137 | the coordinates of a cell fit `usize` |
| Year2024Day10Map.ClimbNHeights | src/year_2024/day10/map.rs:90-106 | the frontier after `n` calls holds only cells `n` above the start |
| Year2024Day10Map.ClimbNEmpty | src/year_2024/day10/map.rs:100-105 | an empty frontier stays empty |
| Year2024Day10Map.TrailIterator.constructor | src/year_2024/day10/map.rs:110-118 | `new` starts from the trail head alone; it panics unless the start has height 0, hence the precondition |
| Year2024Day10Map.TrailIterator.Next | src/year_2024/day10/map.rs:90-106 | `next` replaces the frontier by the climbed one, and returns it unless it is empty |
| Year2024Day10Map.ClimbAll | src/year_2024/day10/map.rs:91-99 | the outer loop of `next` gathers the climbing neighbours of every frontier cell, whatever the set's order |
| Year2024Day10Map.ClimbAdd | src/year_2024/day10/map.rs:92-99 | one more frontier cell adds its climbing neighbours |
| Year2024Day10Map.ClimbOne | src/year_2024/day10/map.rs:93-98 | the inner loop keeps the neighbours inside the map one higher than the cell |
| Year2024Day10Map.GetTrailEnds | src/year_2024/day10/map.rs:74-80 | `get_trail_ends` is the ninth frontier (`nth(8)`), or the empty set when the trail dies out earlier; all its cells have height 9 |

## Left out

- `src/main.rs`, `src/cli_args.rs`, `src/lib.rs` and the `mod.rs` files of each year are not part of this model: they parse arguments, read files and print.
- `get_highest_calories_from_input_file` (src/year_2022/day01.rs) reads a file; only `get_highest_calories_from_text` is modelled.
- `sum_trailhead_scores` (src/year_2024/day10/mod.rs) and `get_compacted_filesystem_checksum` (src/year_2024/day09/mod.rs) are stubs that always fail and are not part of this model; `src/year_2024/day09/file.rs` and `src/util/size.rs` are not part of this model either (`Size` is a pair of width and height).
- `Display` implementations and the messages of the error enums are not modelled: each error enum is a datatype with the same variants.
- Regular expressions are replaced by hand-written recognisers of the fixed patterns they use: `\d+\|\d+` (2024 day 5), the `expected:` line (2024 day 7), `mul(\d{1,3},\d{1,3})` (2024 day 3), `move … from … to …` (2022 day 5) and the first and last digit (2023 day 1).
- `add_instruction_slice_to_instruction_vector` (src/year_2024/day03.rs:20-31) is not modelled: it is never called, and it prints.
- RustText.IsDigit: ASCII digits only, where the regex `\d` of 2023 day 1 also accepts other Unicode decimal digits.
- RustText.IsAlphabetic: ASCII letters only, where Rust's `char::is_alphabetic` accepts every Unicode letter.
- RustText.IsWhitespace: ASCII whitespace only, where Rust's `char::is_whitespace` and therefore `trim` and `split_whitespace` also skip Unicode spaces.
- RustText.Lines: a line ends at `\n`, and one `\r` before it is dropped; this matches `str::lines`, but `char` stands for a byte-sized character, so no multi-byte text is modelled.
- RustText.Trim: trims the ASCII whitespace of RustText.IsWhitespace only.
- Year2022Day03.GetPrioritySum: `line.len()` and `&line[..len/2]` work on bytes, so a line such as "aéb" has an even byte length and panics at the slice in Rust, where the model counts characters, finds an odd length and returns `None`.
- Year2022Day06.GetStartMarker: `&input[i-3..=i]` works on bytes and panics inside a multi-byte character; the model counts characters and has no such panic.
- UtilMatrix.New: requires rows times columns to fit `usize`, where `rows * columns` would overflow (and panic in a debug build).
- UtilMatrix.FromVec: requires rows times columns to fit `usize`, for the same product.
- UtilMatrix.Matrix.Init: requires rows times columns to fit `usize`, for the same product.
- Year2022Day01.GetHighestCaloriesFromText: requires `NoOverflow`, the `i32` `+=` of the running group sum, which panics in a debug build and wraps in a release build; wrap-around is not modelled.
- Year2022Day02.Play: requires `NoOverflow`, the `i32` `+=` of `PlayerScore`, which panics or wraps as above.
- Year2022Day03.GetPrioritySum: requires `NoOverflow`, the `i32` `+=` of the sum, which panics or wraps as above.
- Year2022Day04.CountPairs: requires `NoOverflow`, the `i32` `+= 1` of the count, and `NoPanic`, the indexing `tmp[1]` and `ranges[1]` in `parse_ranges`.
- Year2022Day05.ParseInput: requires a non-empty input, because `&lines[split_index + 1..]` panics on an input without lines.
- Year2022Day05.GetTopCrates: requires a non-empty input, because it calls `parse_input`.
- Year2023Day01.CalibrationValue: requires a line with a digit, because the `expect` on the regex match panics on one without.
- Year2023Day01.CalibrationValuesSum: requires every line to hold a digit and the sum to fit `i32`, because the `expect` and the `i32` sum panic otherwise.
- Year2023Day01.WordSampleHasNoDigit: `get_calibration_values_with_words` repeats the digits-only code, so the test expecting 281 from the word-spelled sample panics; no words are read in the model.
- Year2024Day01.ParseListsOf: requires `ParseDefined`, because `expect` panics on a line whose first number parses but which has no second piece.
- Year2024Day01.GetListDifference: the `u32` fold of the gaps is modelled as a debug build runs it, `Err(Panic)` when the sum leaves `u32`; the release build's wrap-around is not modelled.
- Year2024Day01.GetListSimilarityScore: `u32::try_from(..).unwrap()` on a count above `u32::MAX`, and the `u32` `*` and `+` as a debug build runs them, give `Err(Panic)`; the release build's wrap-around is not modelled.
- Year2024Day02.CountSafeReports: requires every report to parse, because `unwrap` in `parse_report` panics otherwise; the same holds for Year2024Day02.CountSafeReportsDampened and Year2024Day02.IsSafeDampened.
- Year2024Day04.XmasFits: stands for the panics of the seven threads. In Rust a panicking thread is turned into `Err(Threading)` by `join` (src/year_2024/day04.rs:238 and 305) and that error is returned; the model requires that no search panics instead.
- Year2024Day04.CrossedFits: the same for the three threads of `get_crossed_mas_count`.
- Year2024Day04.CountVerticalMatches: returns an unbounded count where the `u32` `count += 1` panics past `u32::MAX`; only `SearchFits` inside XmasFits and CrossedFits excludes that case in the callers.
- Year2024Day04.CountDiagonalDownward: unbounded count, as for CountVerticalMatches.
- Year2024Day04.CountDiagonalUpward: unbounded count, as for CountVerticalMatches.
- Year2024Day04.CountCrossPatternMatch: unbounded count, as for CountVerticalMatches.
- Year2024Day04.GetXmasCount: the threads of `get_xmas_count` and `get_crossed_mas_count` are run one after the other, in the order their results are pushed; concurrency is not modelled.
- Year2024Day06.CountPositions: takes a bound `fuel` on the number of `next` calls and returns `None` when the guard is still on the map after them, because the Rust iterator need not terminate when the guard walks in a cycle.
- Year2024Day07.GetSumOfCalibrationValues: requires `AddMulFits`, because `1 << (len - 1)` panics on an equation of more than 64 values or of none.
- Year2024Day07.GetSumOfCalibrationValuesWithConcat: requires `ConcatFits`, because `3u32.pow` panics on an equation with too many values.
- Year2024Day09DiskMap.Parse: a line longer than `MAX_DIGITS` fails with `ParsingFailed`, which stands for the `checked_add` on the file id failing; file ids are not counted in `usize` steps otherwise.
- `usize` and `isize` are fixed at 64 bits (`MachineInt`).
- `HashMap` and `HashSet` become Dafny `map` and `set`; where the Rust code iterates over them, the model picks elements in an unspecified order, so results are stated for every order.
- `RowIteratorMut` hands out rows through an unsafe pointer cast; the model writes each row in place through the matrix (UtilMatrix.RowIteratorMut.Next).
- `Matrix::size()`, called by the trail iterator, is not in `util/matrix.rs`; it is taken to return the number of columns as width and of rows as height.
- The directory tree of 2022 day 7 owns its children in Rust; in the model a `Directory` is a class, and `AddDir` requires that a directory is not added to itself, which the borrow checker rules out.
- `parse_file_structure` (src/year_2022/day07.rs:9-16) is a stub whose loop does nothing and which always fails with the missing root; it is modelled as written.
- Year2022Day05.PushRow: numbers the column at position `i` of a row `i + 1` as an unbounded integer, where `i as i32 + 1` in `parse_stacks` wraps once a row has more than `i32::MAX` columns; that wrap is not modelled.
- A few unit tests are proved on the parsed value rather than from the literal test text, because evaluating long literal text through the recursive parsers, or counting over a large grid, is beyond what the solver can do within its budget:
  - the 2024 day 4 counts 18, 3, 2, 1, 2, 1, 4, 4, 1 and 9 (src/year_2024/day04.rs:334-374) are not proved;
  - the 2024 day 8 counts 14 and 34 are not proved;
  - 3749 and 11387 of 2024 day 7 are proved from the parsed equations (Year2024Day07.SampleSum), not from `TEST_STR`; 3749 of the older `day07.rs` is not proved on its own, although Year2024Day07Old.AnswerAgrees shows that both versions give the same `u64` answer on every input;
  - 143, 123 and "32,11,2,8,4" of 2024 day 5 are proved from the parsed lines, not from the input text;
  - the `get_trail_ends` samples of 2024 day 10 are not proved;
  - Year2022Day05.SampleTopCrates starts from the parsed stacks and instructions, not from `TEST_INPUT`.

## Findings

| source | as written | input that shows it | evidently intended | confidence | as-written member | corrected member |
|---|---|---|---|---|---|---|
| src/year_2022/day05.rs:21-30 | `get_top_string` looks up the stacks with keys 0 to n - 1 | the drawing of `TEST_INPUT`, whose three stacks `parse_stacks` numbers 1, 2 and 3: key 0 is missing, so the answer is `None` | the tops of stacks 1 to n in order, "NDP" for that drawing | not executed | Year2022Day05.TopStringMissesStackZero | Year2022Day05.TopsFromOneMeaning |
| src/year_2022/day05.rs:4-7 | `get_top_crates` parses the input and returns `Some("")` | `TEST_INPUT`, for which test `top_crates` (lines 105-108) expects "CMZ" | carry out the instructions, one crate at a time, and read the tops of stacks 1 to n | not executed | Year2022Day05.GetTopCrates | Year2022Day05.SampleTopCrates |
| src/year_2024/day04.rs:240-246 | the fold unwraps every search result, so an `Err(PatternTooLarge)` from a search panics | the text "XM\nAS", a two by two matrix, on which every search fails with `PatternTooLarge` | return the error, as the fold left commented out at lines 248-257 does | not executed | Year2024Day04.XmasNeedsFourByFour | Year2024Day04.IntendedXmasCountMeaning |
| src/year_2024/day04.rs:307-313 | the same fold in `get_crossed_mas_count` | the text "MA\nSX", on which every pairing fails with `PatternTooLarge` | return the error | not executed | Year2024Day04.CrossedNeedsThreeByThree | Year2024Day04.IntendedCrossedMasCountMeaning |
