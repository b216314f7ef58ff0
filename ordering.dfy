/**
 * `std::cmp::Ordering` and the total order Rust derives for integers and
 * characters, which the puzzle types build their own `Ord` impls from.
 */
module Ordering {
  datatype Ordering = Less | Equal | Greater

  /** `Ord::cmp` on integers. */
  function CmpInt(a: int, b: int): Ordering
  {
    if a < b then Less else if a == b then Equal else Greater
  }

  /** `Ord::cmp` on `char`, by code point. */
  function CmpChar(a: char, b: char): Ordering
  {
    if a < b then Less else if a == b then Equal else Greater
  }

  /** `Ordering::reverse`. */
  function Reverse(o: Ordering): Ordering
  {
    match o
    case Less => Greater
    case Equal => Equal
    case Greater => Less
  }
}
