/**
 * The two answers of `year_2024/day08/mod.rs`: how many distinct map
 * positions hold an antinode, with the double-distance rule and with the
 * resonant-harmonics rule. The frequency of an antinode does not count, only
 * its position.
 */
module Year2024Day08 {
  import opened Wrappers
  import opened RustText
  import opened MachineInt
  import opened UtilPosition
  import opened Year2024Day08Antinode
  import opened Year2024Day08Map

  /** The distinct positions of a set of antinodes. */
  ghost function Positions(antinodes: set<Antinode>): set<Position>
  {
    set a | a in antinodes :: a.position
  }

  /** `.map(|a| a.position).collect::<HashSet<_>>().len()`. */
  method DistinctPositionCount(antinodes: seq<Antinode>) returns (n: nat)
    ensures n == |Positions(Elements(antinodes))|
  {
    var positions := set a | a in antinodes :: a.position;
    assert positions == Positions(Elements(antinodes));
    n := |positions|;
  }

  /** The double-distance answer for a parsed map. */
  ghost function DoubleDistanceCount(size: Size, antennas: seq<Antenna>): nat
  {
    |Positions(DoubleDistanceOver(AntennaPairs(antennas), size))|
  }

  /** The harmonics answer for a parsed map. */
  ghost function HarmonicsCount(size: Size, antennas: seq<Antenna>): nat
  {
    |Positions(HarmonicsOver(AntennaPairs(antennas), size))|
  }

  /** `count_distinct_antinode_positions`: a parse error is returned as it
    * is; otherwise the number of distinct double-distance antinode
    * positions. */
  method CountDistinctAntinodePositions(text: string) returns (r: Result<nat, Error>)
    requires Lines(text) != [] ==> |Lines(text)| <= ISIZE_MAX && |Lines(text)[0]| <= ISIZE_MAX
    ensures r.Err? <==> ParseSpec(text).None?
    ensures r.Err? ==> r.error == ParsingFailed
    ensures r.Ok? ==> r.value == DoubleDistanceCount(ParseSpec(text).value.0, ParseSpec(text).value.1)
  {
    var parsed := FromStr(text);
    if parsed.Err? {
      return Err(parsed.error);
    }
    var m := parsed.value;
    var antinodes := m.GetAntinodesDoubleDistance();
    var n := DistinctPositionCount(antinodes);
    return Ok(n);
  }

  /** `count_distinct_antinode_postions_with_resonant_harmonics`: the same
    * with the harmonics collector. */
  method CountDistinctAntinodePositionsWithResonantHarmonics(text: string) returns (r: Result<nat, Error>)
    requires Lines(text) != [] ==> |Lines(text)| <= ISIZE_MAX && |Lines(text)[0]| <= ISIZE_MAX
    ensures r.Err? <==> ParseSpec(text).None?
    ensures r.Err? ==> r.error == ParsingFailed
    ensures r.Ok? ==> r.value == HarmonicsCount(ParseSpec(text).value.0, ParseSpec(text).value.1)
  {
    var parsed := FromStr(text);
    if parsed.Err? {
      return Err(parsed.error);
    }
    var m := parsed.value;
    var antinodes := m.GetAntinodesResonantHarmonics();
    var n := DistinctPositionCount(antinodes);
    return Ok(n);
  }

  /** Both answers are at most the number of cells of the map, since every
    * antinode lies on it. */
  lemma CountsBounded(size: Size, antennas: seq<Antenna>)
    ensures DoubleDistanceCount(size, antennas) <= size.width * size.height
    ensures HarmonicsCount(size, antennas) <= size.width * size.height
  {
    var pairs := AntennaPairs(antennas);
    DoubleDistanceInside(pairs, size);
    HarmonicsInside(pairs, size);
    CellsCount(size);
    SubsetCardinality(Positions(DoubleDistanceOver(pairs, size)), Cells(size));
    SubsetCardinality(Positions(HarmonicsOver(pairs, size)), Cells(size));
  }
}
