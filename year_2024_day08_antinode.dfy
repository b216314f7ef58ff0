/**
 * `Antinode` of `year_2024/day08/antinode.rs`: a map position marked by a
 * pair of antennas of one frequency, ordered by position and then by
 * frequency.
 */
module Year2024Day08Antinode {
  import opened Wrappers
  import opened Ordering
  import opened UtilPosition
  import P = Year2024Day08Position

  datatype Antinode = Antinode(position: Position, frequency: char)

  /** `Ord for Antinode`: the position order first, the frequency breaking
    * ties. */
  function Cmp(a: Antinode, b: Antinode): (r: Ordering)
    ensures a.position != b.position ==> r == P.Cmp(a.position, b.position)
    ensures a.position == b.position ==> r == CmpChar(a.frequency, b.frequency)
    ensures r == Equal <==> a == b
  {
    match P.Cmp(a.position, b.position)
    case Equal => CmpChar(a.frequency, b.frequency)
    case o => o
  }

  /** `PartialOrd for Antinode`: always the total order's answer. */
  function PartialCmp(a: Antinode, b: Antinode): (r: Option<Ordering>)
    ensures r.Some? && (r.value == Equal <==> a == b)
  {
    Some(Cmp(a, b))
  }

  /** The antinode order is antisymmetric and transitive. */
  lemma CmpTotalOrder(a: Antinode, b: Antinode, c: Antinode)
    ensures Cmp(b, a) == Reverse(Cmp(a, b))
    ensures Cmp(a, b) == Less && Cmp(b, c) == Less ==> Cmp(a, c) == Less
  {
    P.CmpTotalOrder(a.position, b.position, c.position);
  }
}
