/**
 * 2022 day 6 (`year_2022/day06.rs`): the start-of-packet marker is the
 * number of characters read when the last four of them are, for the first
 * time, all different.
 */
module Year2022Day06 {
  import opened Wrappers
  import MachineInt

  /** No character of `s` occurs twice. */
  predicate Distinct(s: string)
  {
    forall i, j :: 0 <= i < j < |s| ==> s[i] != s[j]
  }

  /** `are_unique_chars`: every character goes into a set, and one that is
    * already there ends the scan with `false`. */
  method AreUniqueChars(input: string) returns (r: bool)
    ensures r == Distinct(input)
  {
    var storage: set<char> := {};
    for i := 0 to |input|
      invariant storage == set j | 0 <= j < i :: input[j]
      invariant forall a, b :: 0 <= a < b < i ==> input[a] != input[b]
    {
      var c := input[i];
      if c in storage {
        var j :| 0 <= j < i && input[j] == c;
        assert input[j] == input[i];
        return false;
      }
      storage := storage + {c};
    }
    return true;
  }

  /** The four characters ending at index `i`. */
  function Window(s: string, i: nat): (w: string)
    requires 3 <= i < |s|
    ensures |w| == 4 && forall k :: 0 <= k < 4 ==> w[k] == s[i - 3 + k]
  {
    s[i - 3..i + 1]
  }

  /** The end of the first window of four different characters ending at
    * index `i` or later. */
  function MarkerFrom(s: string, i: nat): (r: Option<nat>)
    requires 3 <= i
    ensures r.Some? ==> i + 1 <= r.value <= |s|
    decreases |s| - i
  {
    if i >= |s| then None
    else if Distinct(Window(s, i)) then Some(i + 1)
    else MarkerFrom(s, i + 1)
  }

  /** The start-of-packet marker, as a count of characters. */
  function Marker(s: string): Option<nat>
  {
    if |s| < 4 then None else MarkerFrom(s, 3)
  }

  /** The marker from `i` on is the first window there whose characters
    * are all different, and there is none exactly when no such window
    * exists. */
  lemma {:induction false} MarkerFromMeaning(s: string, i: nat)
    requires 3 <= i
    ensures MarkerFrom(s, i).None? <==> forall j :: i <= j < |s| ==> !Distinct(Window(s, j))
    ensures MarkerFrom(s, i).Some? ==>
      var m := MarkerFrom(s, i).value;
      Distinct(Window(s, m - 1)) && forall j :: i <= j < m - 1 ==> !Distinct(Window(s, j))
    decreases |s| - i
  {
    if i < |s| && !Distinct(Window(s, i)) {
      MarkerFromMeaning(s, i + 1);
      assert MarkerFrom(s, i) == MarkerFrom(s, i + 1);
    }
  }

  /** The marker counts at least four characters and no more than there
    * are; the four before it are all different, and no earlier four are. */
  lemma MarkerMeaning(s: string)
    ensures Marker(s).None? <==> forall j :: 3 <= j < |s| ==> !Distinct(Window(s, j))
    ensures Marker(s).Some? ==>
      var m := Marker(s).value;
      4 <= m <= |s| && Distinct(s[m - 4..m]) && forall j :: 3 <= j < m - 1 ==> !Distinct(Window(s, j))
  {
    MarkerFromMeaning(s, 3);
  }

  /** `get_start_marker`. The index is cast with `as i32`, which keeps its
    * low 32 bits. */
  method GetStartMarker(input: string) returns (r: Option<int>)
    ensures r == match Marker(input) case None => None case Some(m) => Some(MachineInt.AsI32(m))
  {
    if |input| < 4 {
      return None;
    }
    for i := 3 to |input|
      invariant MarkerFrom(input, i) == MarkerFrom(input, 3)
    {
      var unique := AreUniqueChars(input[i - 3..i + 1]);
      if unique {
        return Some(MachineInt.AsI32(i + 1));
      }
    }
    return None;
  }

  // ---------------------------------------------------------------------
  // The samples of the tests

  /** A window with a repeated character is passed over. */
  lemma Repeat(s: string, i: nat, a: nat, b: nat)
    requires 3 <= i < |s| && a < b < 4 && s[i - 3 + a] == s[i - 3 + b]
    ensures MarkerFrom(s, i) == MarkerFrom(s, i + 1)
  {
    assert Window(s, i)[a] == Window(s, i)[b];
  }

  /** A window of four different characters is the marker. */
  lemma Hit(s: string, i: nat)
    requires 3 <= i < |s|
    requires s[i - 3] != s[i - 2] && s[i - 3] != s[i - 1] && s[i - 3] != s[i]
    requires s[i - 2] != s[i - 1] && s[i - 2] != s[i] && s[i - 1] != s[i]
    ensures MarkerFrom(s, i) == Some(i + 1)
  {
    var w := Window(s, i);
    assert Distinct(w) by {
      forall a, b | 0 <= a < b < 4
        ensures w[a] != w[b]
      {
      }
    }
  }

  /** `are_unique_chars` on the cases of the `unique` test. */
  lemma SampleUnique()
    ensures !Distinct("bbbbbb") && Distinct("abcde") && !Distinct("56as96d")
  {
    assert "bbbbbb"[0] == "bbbbbb"[1];
    assert "56as96d"[1] == "56as96d"[5];
  }

  lemma SampleMarker1(s: string)
    requires s == "mjqjpqmgbljsphdztnvjfqwrcgsmlb"
    ensures Marker(s) == Some(7)
  {
    Marker1(s);
  }

  lemma Marker1(s: string)
    requires |s| >= 7 && s[..7] == "mjqjpqm"
    ensures Marker(s) == Some(7)
  {
    Repeat(s, 3, 1, 3);
    Repeat(s, 4, 0, 2);
    Repeat(s, 5, 0, 3);
    Hit(s, 6);
  }

  lemma SampleMarker2(s: string)
    requires s == "bvwbjplbgvbhsrlpgdmjqwftvncz"
    ensures Marker(s) == Some(5)
  {
    Marker2(s);
  }

  lemma Marker2(s: string)
    requires |s| >= 5 && s[..5] == "bvwbj"
    ensures Marker(s) == Some(5)
  {
    Repeat(s, 3, 0, 3);
    Hit(s, 4);
  }

  lemma SampleMarker3(s: string)
    requires s == "nppdvjthqldpwncqszvftbrmjlhg"
    ensures Marker(s) == Some(6)
  {
    Marker3(s);
  }

  lemma Marker3(s: string)
    requires |s| >= 6 && s[..6] == "nppdvj"
    ensures Marker(s) == Some(6)
  {
    Repeat(s, 3, 1, 2);
    Repeat(s, 4, 0, 1);
    Hit(s, 5);
  }

  lemma SampleMarker4(s: string)
    requires s == "nznrnfrfntjfmvfwmzdfjlvtqnbhcprsg"
    ensures Marker(s) == Some(10)
  {
    Marker4(s);
  }

  lemma Marker4(s: string)
    requires |s| >= 10 && s[..10] == "nznrnfrfnt"
    ensures Marker(s) == Some(10)
  {
    Marker4Start(s);
    Repeat(s, 6, 0, 3);
    Repeat(s, 7, 1, 3);
    Repeat(s, 8, 0, 2);
    Hit(s, 9);
  }

  lemma Marker4Start(s: string)
    requires |s| >= 10 && s[..10] == "nznrnfrfnt"
    ensures MarkerFrom(s, 3) == MarkerFrom(s, 6)
  {
    Repeat(s, 3, 0, 2);
    Repeat(s, 4, 1, 3);
    Repeat(s, 5, 0, 2);
  }

  lemma SampleMarker5(s: string)
    requires s == "zcfzfwzzqfrljwzlrfnpqdbhtmscgvjw"
    ensures Marker(s) == Some(11)
  {
    Marker5(s);
  }

  lemma Marker5(s: string)
    requires |s| >= 11 && s[..11] == "zcfzfwzzqfr"
    ensures Marker(s) == Some(11)
  {
    Marker5Start(s);
    Repeat(s, 7, 2, 3);
    Repeat(s, 8, 1, 2);
    Repeat(s, 9, 0, 1);
    Hit(s, 10);
  }

  lemma Marker5Start(s: string)
    requires |s| >= 11 && s[..11] == "zcfzfwzzqfr"
    ensures MarkerFrom(s, 3) == MarkerFrom(s, 7)
  {
    Marker5Head(s);
    Repeat(s, 5, 0, 2);
    Repeat(s, 6, 0, 3);
  }

  lemma Marker5Head(s: string)
    requires |s| >= 11 && s[..11] == "zcfzfwzzqfr"
    ensures MarkerFrom(s, 3) == MarkerFrom(s, 5)
  {
    Repeat(s, 3, 0, 3);
    Repeat(s, 4, 1, 3);
  }

  /** Too short an input, and one whose windows all repeat, have no marker. */
  lemma SampleNoMarker(s: string)
    requires s == "abcabc"
    ensures Marker("") == None && Marker(s) == None
  {
    Repeat(s, 3, 0, 3);
    Repeat(s, 4, 0, 3);
    Repeat(s, 5, 0, 3);
  }
}
