/** The ways the calibration puzzle can fail (`year_2024/day07/error.rs`). */
module Year2024Day07Error {
  datatype Error =
    | ParsingFailed
    | IntegerTypeTooSmall
    | BitFieldGeneration
    | EnumerationFieldGeneration
    | AccumulationFailed
}
