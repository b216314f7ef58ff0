/** The ways the disk map puzzle can fail (`year_2024/day09/error.rs`). */
module Year2024Day09Error {
  datatype Error =
    | ParsingFailed
    | IntegerOverflow
}
