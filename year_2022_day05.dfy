/**
 * 2022 day 5 (`year_2022/day05.rs`): a drawing of crate stacks above a line
 * of stack numbers, an empty line, then `move a from b to c` instructions.
 * The solution reads the drawing and the instructions into a `Problem`; it
 * does not carry the moves out, and its answer is always the empty string.
 */
module Year2022Day05 {
  import opened Wrappers
  import MachineInt
  import RustText

  const I32_MIN: int := MachineInt.I32_MIN
  const I32_MAX: int := MachineInt.I32_MAX

  /** One `move amount from source to destination` line. */
  datatype Instruction = Instruction(amount: int, source: int, destination: int)

  /** The stacks by number, bottom crate first, and the instructions. */
  datatype Problem = Problem(stacks: map<int, seq<char>>, instructions: seq<Instruction>)

  /** `s.parse::<i32>()`. */
  function Number(s: string): Result<int, RustText.IntErrorKind>
  {
    RustText.ParseSigned(s, I32_MIN, I32_MAX)
  }

  lemma PrefixStep<T>(s: seq<T>, i: nat)
    requires i < |s|
    ensures s[..i + 1][..i] == s[..i] && s[..i + 1][i] == s[i]
  {
  }

  // ---------------------------------------------------------------------
  // parse_stacks

  /** The stack numbers of the index line's words, in order; `None` once a
    * word is not an `i32`. */
  function Keys(items: seq<string>): Option<set<int>>
  {
    if items == [] then Some({})
    else
      match Keys(items[..|items| - 1])
      case None => None
      case Some(ks) =>
        match Number(items[|items| - 1])
        case Err(_) => None
        case Ok(k) => Some(ks + {k})
  }

  /** The keys exist exactly when every word is an `i32`, and they are the
    * set of those numbers. */
  lemma {:induction false} KeysMeaning(items: seq<string>)
    ensures Keys(items).Some? <==> forall i :: 0 <= i < |items| ==> Number(items[i]).Ok?
    ensures Keys(items).Some? ==>
      Keys(items).value == set i | 0 <= i < |items| && Number(items[i]).Ok? :: Number(items[i]).value
  {
    if items != [] {
      var init := items[..|items| - 1];
      KeysMeaning(init);
      assert forall i :: 0 <= i < |init| ==> init[i] == items[i];
      if Keys(items).Some? {
        var last := |items| - 1;
        var s := set i | 0 <= i < |items| && Number(items[i]).Ok? :: Number(items[i]).value;
        var s' := set i | 0 <= i < |init| && Number(init[i]).Ok? :: Number(init[i]).value;
        assert s == s' + {Number(items[last]).value} by {
          forall x | x in s
            ensures x in s' + {Number(items[last]).value}
          {
            var i :| 0 <= i < |items| && Number(items[i]).Ok? && Number(items[i]).value == x;
            if i < last {
              assert Number(init[i]).value == x;
            }
          }
          forall x | x in s'
            ensures x in s
          {
            var i :| 0 <= i < |init| && Number(init[i]).Ok? && Number(init[i]).value == x;
            assert Number(items[i]).value == x;
          }
        }
      }
    }
  }

  /** A word that is not a number spoils the keys of every longer list. */
  lemma KeysStuck(items: seq<string>, i: nat)
    requires i <= |items| && Keys(items[..i]).None?
    ensures Keys(items).None?
  {
    KeysMeaning(items[..i]);
    var j :| 0 <= j < i && !Number(items[..i][j]).Ok?;
    KeysMeaning(items);
  }

  /** One empty stack per number. */
  function EmptyStacks(ks: set<int>): (m: map<int, seq<char>>)
    ensures m.Keys == ks && forall k :: k in m ==> m[k] == []
  {
    map k | k in ks :: []
  }

  /** The characters of a row at positions 1, 5, 9, …: what
    * `chars().skip(1).step_by(4)` visits, one per column. */
  function Crates(row: string): (cs: seq<char>)
    ensures |cs| == (|row| + 2) / 4 && |row| <= 1 + 4 * |cs|
    ensures forall i :: 0 <= i < |cs| ==> 1 + 4 * i < |row| && cs[i] == row[1 + 4 * i]
  {
    seq((|row| + 2) / 4, i requires 0 <= i < (|row| + 2) / 4 => row[1 + 4 * i])
  }

  /** Every column with a letter has a stack: column `i` is stack `i + 1`. */
  predicate Fits(ks: set<int>, crates: seq<char>)
  {
    forall i :: 0 <= i < |crates| && RustText.IsAlphabetic(crates[i]) ==> i + 1 in ks
  }

  /** What the row puts on stack `k`: the letter of column `k - 1`, if any. */
  function Cell(crates: seq<char>, k: int): seq<char>
  {
    if 1 <= k <= |crates| && RustText.IsAlphabetic(crates[k - 1]) then [crates[k - 1]] else []
  }

  /** Every stack with the row's letter pushed on. */
  function PushRow(m: map<int, seq<char>>, crates: seq<char>): (r: map<int, seq<char>>)
    ensures r.Keys == m.Keys && forall k :: k in r ==> r[k] == m[k] + Cell(crates, k)
  {
    map k | k in m :: m[k] + Cell(crates, k)
  }

  /** The rows from the bottom up, the order of `lines.iter().rev()`; `None`
    * as soon as a letter has no stack. */
  function Fill(m: map<int, seq<char>>, rows: seq<string>): Option<map<int, seq<char>>>
  {
    if rows == [] then Some(m)
    else
      var crates := Crates(rows[|rows| - 1]);
      if Fits(m.Keys, crates) then Fill(PushRow(m, crates), rows[..|rows| - 1]) else None
  }

  /** The letters column `k - 1` holds, from the bottom row up. */
  function Column(rows: seq<string>, k: int): seq<char>
  {
    if rows == [] then [] else Cell(Crates(rows[|rows| - 1]), k) + Column(rows[..|rows| - 1], k)
  }

  /** `parse_stacks`, as a value: the last line names the stacks, the lines
    * above it fill them. */
  function Stacks(lines: seq<string>): Option<map<int, seq<char>>>
  {
    if lines == [] then None
    else
      match Keys(RustText.SplitWhitespace(lines[|lines| - 1]))
      case None => None
      case Some(ks) => Fill(EmptyStacks(ks), lines[..|lines| - 1])
  }

  /** Each stack with its column's letters on top, bottom row first. */
  function Stacked(m: map<int, seq<char>>, rows: seq<string>): (r: map<int, seq<char>>)
    ensures r.Keys == m.Keys && forall k :: k in r ==> r[k] == m[k] + Column(rows, k)
  {
    map k | k in m :: m[k] + Column(rows, k)
  }

  /** Filling succeeds exactly when every row fits the stacks. */
  lemma {:induction false} FillDefined(m: map<int, seq<char>>, rows: seq<string>)
    ensures Fill(m, rows).Some? <==> forall j :: 0 <= j < |rows| ==> Fits(m.Keys, Crates(rows[j]))
  {
    if rows != [] {
      var init := rows[..|rows| - 1];
      var next := PushRow(m, Crates(rows[|rows| - 1]));
      FillDefined(next, init);
      assert forall j :: 0 <= j < |init| ==> init[j] == rows[j];
    }
  }

  /** Pushing the bottom row, then stacking the rows above it, stacks all
    * the rows. */
  lemma StackedStep(m: map<int, seq<char>>, rows: seq<string>)
    requires rows != []
    ensures Stacked(PushRow(m, Crates(rows[|rows| - 1])), rows[..|rows| - 1]) == Stacked(m, rows)
  {
    var crates := Crates(rows[|rows| - 1]);
    var init := rows[..|rows| - 1];
    forall k
      ensures Column(rows, k) == Cell(crates, k) + Column(init, k)
    {
    }
    StackedPush(m, crates, init, rows);
  }

  /** The same, for any row under the others. */
  lemma StackedPush(m: map<int, seq<char>>, crates: seq<char>, init: seq<string>, rows: seq<string>)
    requires forall k :: Column(rows, k) == Cell(crates, k) + Column(init, k)
    ensures Stacked(PushRow(m, crates), init) == Stacked(m, rows)
  {
    var left, right := Stacked(PushRow(m, crates), init), Stacked(m, rows);
    forall k | k in left
      ensures left[k] == right[k]
    {
      StackedKey(m[k], Cell(crates, k), Column(init, k));
    }
    assert left == right;
  }

  /** Pushing a cell, then the column above it, pushes the whole column. */
  lemma StackedKey(stack: seq<char>, cell: seq<char>, above: seq<char>)
    ensures stack + cell + above == stack + (cell + above)
  {
  }

  /** A fill that succeeds puts each column's letters, bottom row first, on
    * top of its stack. */
  lemma {:induction false} FillValue(m: map<int, seq<char>>, rows: seq<string>)
    requires Fill(m, rows).Some?
    ensures Fill(m, rows).value == Stacked(m, rows)
  {
    if rows == [] {
      forall k | k in m
        ensures Stacked(m, rows)[k] == m[k]
      {
        assert m[k] + [] == m[k];
      }
      assert Stacked(m, rows) == m;
    } else {
      FillValue(PushRow(m, Crates(rows[|rows| - 1])), rows[..|rows| - 1]);
      StackedStep(m, rows);
    }
  }

  /** What `parse_stacks` gives: `None` for no lines, a word of the index
    * line that is no `i32`, or a letter in a column without a stack;
    * otherwise one stack per number, holding its column's letters from the
    * bottom up. */
  lemma StacksMeaning(lines: seq<string>)
    requires lines != []
    ensures var keys := Keys(RustText.SplitWhitespace(lines[|lines| - 1]));
      Stacks(lines).Some? <==>
        keys.Some? && forall j :: 0 <= j < |lines| - 1 ==> Fits(keys.value, Crates(lines[j]))
    ensures var keys := Keys(RustText.SplitWhitespace(lines[|lines| - 1]));
      Stacks(lines).Some? ==>
        Stacks(lines).value.Keys == keys.value &&
        forall k :: k in keys.value ==> Stacks(lines).value[k] == Column(lines[..|lines| - 1], k)
  {
    var rows := lines[..|lines| - 1];
    assert forall j :: 0 <= j < |rows| ==> rows[j] == lines[j];
    var keys := Keys(RustText.SplitWhitespace(lines[|lines| - 1]));
    if keys.Some? {
      FillDefined(EmptyStacks(keys.value), rows);
      if Stacks(lines).Some? {
        FillValue(EmptyStacks(keys.value), rows);
      }
    }
  }

  /** One more column: its letter, if any, goes onto stack `i + 1`. */
  lemma PushStep(m: map<int, seq<char>>, crates: seq<char>, i: nat)
    requires i < |crates|
    ensures var pushed := PushRow(m, crates[..i]);
      PushRow(m, crates[..i + 1]) ==
        if RustText.IsAlphabetic(crates[i]) && i + 1 in m then pushed[i + 1 := pushed[i + 1] + [crates[i]]]
        else pushed
  {
    var pushed := PushRow(m, crates[..i]);
    var after := PushRow(m, crates[..i + 1]);
    var c := crates[i];
    if RustText.IsAlphabetic(c) && i + 1 in m {
      var expected := pushed[i + 1 := pushed[i + 1] + [c]];
      assert after.Keys == expected.Keys;
      forall k | k in after
        ensures after[k] == expected[k]
      {
        CellStep(crates, i, k);
      }
      assert after == expected;
    } else {
      assert after.Keys == pushed.Keys;
      forall k | k in after
        ensures after[k] == pushed[k]
      {
        CellStep(crates, i, k);
      }
      assert after == pushed;
    }
  }

  /** Column `i` adds its letter to stack `i + 1` only. */
  lemma CellStep(crates: seq<char>, i: nat, k: int)
    requires i < |crates|
    ensures Cell(crates[..i + 1], k) ==
      if k == i + 1 && RustText.IsAlphabetic(crates[i]) then [crates[i]]
      else Cell(crates[..i], k)
  {
    if 1 <= k <= i {
      assert crates[..i + 1][k - 1] == crates[..i][k - 1];
    }
  }

  /** One more column fits exactly when the columns before it fit and its
    * letter, if it holds one, has a stack. */
  lemma FitsStep(ks: set<int>, crates: seq<char>, i: nat)
    requires i < |crates|
    ensures Fits(ks, crates[..i + 1]) <==>
      Fits(ks, crates[..i]) && (RustText.IsAlphabetic(crates[i]) ==> i + 1 in ks)
  {
    assert forall j :: 0 <= j < i ==> crates[..i + 1][j] == crates[..i][j];
  }

  /** The inner loop of `parse_stacks`: one row pushed onto the stacks. */
  method PushCrates(m: map<int, seq<char>>, row: string) returns (r: Option<map<int, seq<char>>>)
    ensures r == if Fits(m.Keys, Crates(row)) then Some(PushRow(m, Crates(row))) else None
  {
    ghost var crates := Crates(row);
    var stacks := m;
    assert PushRow(m, crates[..0]) == m by {
      forall k | k in m
        ensures PushRow(m, crates[..0])[k] == m[k]
      {
        assert m[k] + [] == m[k];
      }
    }
    for i := 0 to (|row| + 2) / 4
      invariant Fits(m.Keys, crates[..i]) && stacks == PushRow(m, crates[..i])
    {
      PushStep(m, crates, i);
      FitsStep(m.Keys, crates, i);
      var c := row[1 + 4 * i];
      assert c == crates[i];
      if RustText.IsAlphabetic(c) {
        if i + 1 !in stacks {
          assert !Fits(m.Keys, crates);
          return None;
        }
        stacks := stacks[i + 1 := stacks[i + 1] + [c]];
      }
    }
    assert crates[..|crates|] == crates;
    return Some(stacks);
  }

  /** One row of the drawing, `rows[j]`, on top of the rows below it. */
  lemma FillStep(m: map<int, seq<char>>, rows: seq<string>, j: nat)
    requires j < |rows|
    ensures Fill(m, rows[..j + 1]) ==
      if Fits(m.Keys, Crates(rows[j])) then Fill(PushRow(m, Crates(rows[j])), rows[..j]) else None
  {
    PrefixStep(rows, j);
  }

  /** `parse_stacks`. */
  method ParseStacks(lines: seq<string>) returns (r: Option<map<int, seq<char>>>)
    ensures r == Stacks(lines)
  {
    if |lines| == 0 {
      return None;
    }
    var items := RustText.SplitWhitespace(lines[|lines| - 1]);
    var m: map<int, seq<char>> := map[];
    assert items[..0] == [];
    assert m == EmptyStacks({});
    for i := 0 to |items|
      invariant Keys(items[..i]) == Some(m.Keys) && m == EmptyStacks(m.Keys)
    {
      PrefixStep(items, i);
      ghost var old_keys := m.Keys;
      var k := Number(items[i]);
      if k.Err? {
        KeysStuck(items, i + 1);
        return None;
      }
      assert Keys(items[..i + 1]) == Some(m.Keys + {k.value});
      m := m[k.value := []];
      assert m.Keys == old_keys + {k.value};
    }
    assert items[..|items|] == items;
    ghost var rows := lines[..|lines| - 1];
    ghost var start := m;
    var j := |lines| - 1;
    assert rows[..j] == rows;
    while j > 0
      invariant 0 <= j <= |rows| && Fill(start, rows) == Fill(m, rows[..j])
    {
      j := j - 1;
      FillStep(m, rows, j);
      var pushed := PushCrates(m, lines[j]);
      if pushed.None? {
        return None;
      }
      m := pushed.value;
    }
    return Some(m);
  }

  // ---------------------------------------------------------------------
  // parse_instructions

  /** The text of an instruction with groups `a`, `b` and `c`. */
  function Spelling(a: string, b: string, c: string): string
  {
    "move " + a + " from " + b + " to " + c
  }

  /** Three groups of digits. */
  predicate Groups(a: string, b: string, c: string)
  {
    a != "" && b != "" && c != "" && RustText.AllDigits(a) && RustText.AllDigits(b) && RustText.AllDigits(c)
  }

  /** The text after a literal piece `lit` of the expression. */
  function Literal(t: string, lit: string): (r: Option<string>)
    ensures r.Some? ==> t == lit + r.value
  {
    if |t| >= |lit| && t[..|lit|] == lit then
      assert t == t[..|lit|] + t[|lit|..];
      Some(t[|lit|..])
    else None
  }

  /** A `\d+` group: the whole run of digits `t` starts with, and what
    * follows it. */
  function Digits(t: string): (r: Option<(string, string)>)
    ensures r.Some? ==> var (x, rest) := r.value;
      x != "" && RustText.AllDigits(x) && t == x + rest && (rest != "" ==> !RustText.IsDigit(rest[0]))
  {
    var n := RustText.DigitRun(t);
    if n == 0 then None
    else
      assert t == t[..n] + t[n..];
      Some((t[..n], t[n..]))
  }

  lemma LiteralOf(lit: string, rest: string)
    ensures Literal(lit + rest, lit) == Some(rest)
  {
    assert (lit + rest)[..|lit|] == lit && (lit + rest)[|lit|..] == rest;
  }

  lemma DigitsOf(x: string, rest: string)
    requires x != "" && RustText.AllDigits(x) && (rest != "" ==> !RustText.IsDigit(rest[0]))
    ensures Digits(x + rest) == Some((x, rest))
  {
    RustText.DigitRunOf(x, rest);
    assert (x + rest)[..|x|] == x && (x + rest)[|x|..] == rest;
  }

  /** A match of the expression: its three groups and the text after it. */
  datatype Captures = Captures(amount: string, source: string, destination: string, rest: string)

  /** The match of `move (\d+) from (\d+) to (\d+)` that starts at the
    * beginning of `t`. Each group is followed by a non-digit or the end, so
    * it takes the whole run of digits there. */
  function MoveAt(t: string): (r: Option<Captures>)
    ensures r.Some? ==>
      Groups(r.value.amount, r.value.source, r.value.destination) &&
      t == Spelling(r.value.amount, r.value.source, r.value.destination) + r.value.rest &&
      (r.value.rest != "" ==> !RustText.IsDigit(r.value.rest[0]))
  {
    match Literal(t, "move ")
    case None => None
    case Some(t1) =>
      match Digits(t1)
      case None => None
      case Some((a, t2)) =>
        match Literal(t2, " from ")
        case None => None
        case Some(t3) =>
          match Digits(t3)
          case None => None
          case Some((b, t4)) =>
            match Literal(t4, " to ")
            case None => None
            case Some(t5) =>
              match Digits(t5)
              case None => None
              case Some((c, rest)) =>
                Assemble(t, t1, t2, t3, t4, t5, a, b, c, rest);
                Some(Captures(a, b, c, rest))
  }

  /** The pieces of a match put back together. */
  lemma Assemble(t: string, t1: string, t2: string, t3: string, t4: string, t5: string,
                 a: string, b: string, c: string, rest: string)
    requires t == "move " + t1 && t1 == a + t2 && t2 == " from " + t3
    requires t3 == b + t4 && t4 == " to " + t5 && t5 == c + rest
    ensures t == Spelling(a, b, c) + rest
  {
  }

  /** Every instruction text is matched at the start, whatever non-digit
    * follows it: with the contract of `MoveAt`, a match exists exactly
    * when the text starts with an instruction. */
  lemma MoveAtSpelling(a: string, b: string, c: string, rest: string)
    requires Groups(a, b, c) && (rest != "" ==> !RustText.IsDigit(rest[0]))
    ensures MoveAt(Spelling(a, b, c) + rest) == Some(Captures(a, b, c, rest))
  {
    var t5 := c + rest;
    var t4 := " to " + t5;
    var t3 := b + t4;
    var t2 := " from " + t3;
    var t1 := a + t2;
    var t := "move " + t1;
    Assemble(t, t1, t2, t3, t4, t5, a, b, c, rest);
    LiteralOf("move ", t1);
    DigitsOf(a, t2);
    LiteralOf(" from ", t3);
    DigitsOf(b, t4);
    LiteralOf(" to ", t5);
    DigitsOf(c, rest);
  }

  /** The leftmost position where `at` finds a match, and the match. */
  function FirstMatch<T>(at: string -> Option<T>, s: string): (r: Option<T>)
    decreases |s|
  {
    if at(s).Some? then at(s)
    else if s == "" then None
    else FirstMatch(at, s[1..])
  }

  /** The leftmost match is a match, and there is none further left; there
    * is no match only when none starts anywhere. */
  lemma {:induction false} FirstMatchMeaning<T>(at: string -> Option<T>, s: string)
    ensures FirstMatch(at, s).None? <==> forall p :: 0 <= p <= |s| ==> at(s[p..]).None?
    ensures FirstMatch(at, s).Some? ==>
      exists p ::
        0 <= p <= |s| && at(s[p..]) == FirstMatch(at, s) && forall q :: 0 <= q < p ==> at(s[q..]).None?
    decreases |s|
  {
    assert s[0..] == s;
    if at(s).None? && s != "" {
      var rest := s[1..];
      FirstMatchMeaning(at, rest);
      assert forall p :: 1 <= p <= |s| ==> s[p..] == rest[p - 1..];
      if FirstMatch(at, s).Some? {
        var p :| 0 <= p <= |rest| && at(rest[p..]) == FirstMatch(at, rest) &&
          forall q :: 0 <= q < p ==> at(rest[q..]).None?;
        assert at(s[p + 1..]) == FirstMatch(at, s);
        forall q | 0 <= q < p + 1
          ensures at(s[q..]).None?
        {
          if q > 0 {
            assert s[q..] == rest[q - 1..];
          }
        }
      }
    }
  }

  /** `captures_iter(line).next()`: the leftmost match of the expression. */
  function FirstMove(line: string): (r: Option<Captures>)
    ensures r.Some? ==> Groups(r.value.amount, r.value.source, r.value.destination)
  {
    FirstMatchGroups(line);
    FirstMatch(MoveAt, line)
  }

  lemma FirstMatchGroups(s: string)
    ensures FirstMatch(MoveAt, s).Some? ==>
      var m := FirstMatch(MoveAt, s).value; Groups(m.amount, m.source, m.destination)
  {
    FirstMatchMeaning(MoveAt, s);
  }

  /** What one line gives `parse_instructions`. */
  datatype Reading = Skip | Move(instruction: Instruction) | BadNumber

  /** A line without a match is skipped; a match whose three groups are
    * `i32` values is an instruction; any other stops the parse. */
  function ReadMove(line: string): Reading
  {
    match FirstMove(line)
    case None => Skip
    case Some(m) =>
      var (a, b, c) := (Number(m.amount), Number(m.source), Number(m.destination));
      if a.Ok? && b.Ok? && c.Ok? then Move(Instruction(a.value, b.value, c.value)) else BadNumber
  }

  /** A way of reading each line. */
  type Reader = string -> Reading

  /** The instructions read from the lines, in order; `None` once a line
    * stops the parse. */
  function Gather(read: Reader, lines: seq<string>): (r: Option<seq<Instruction>>)
    ensures r.Some? ==> |r.value| <= |lines|
  {
    if lines == [] then Some([])
    else
      match Gather(read, lines[..|lines| - 1])
      case None => None
      case Some(found) =>
        match read(lines[|lines| - 1])
        case Skip => Some(found)
        case Move(i) => Some(found + [i])
        case BadNumber => None
  }

  /** `parse_instructions`, as a value. */
  function Instructions(lines: seq<string>): Option<seq<Instruction>>
  {
    Gather(ReadMove, lines)
  }

  /** A match stops the parse exactly when one of its groups exceeds
    * `i32::MAX`. */
  lemma BadNumberMeaning(line: string)
    ensures ReadMove(line) == BadNumber <==>
      FirstMove(line).Some? &&
      var m := FirstMove(line).value;
      RustText.DecimalValue(m.amount) > I32_MAX || RustText.DecimalValue(m.source) > I32_MAX ||
      RustText.DecimalValue(m.destination) > I32_MAX
  {
    if FirstMove(line).Some? {
      var m := FirstMove(line).value;
      RustText.ParseSignedDigits(m.amount, I32_MIN, I32_MAX);
      RustText.ParseSignedDigits(m.source, I32_MIN, I32_MAX);
      RustText.ParseSignedDigits(m.destination, I32_MIN, I32_MAX);
    }
  }

  /** The instructions exist exactly when no line stops the parse. */
  lemma {:induction false} GatherDefined(read: Reader, lines: seq<string>)
    ensures Gather(read, lines).Some? <==> forall i :: 0 <= i < |lines| ==> read(lines[i]) != BadNumber
  {
    if lines != [] {
      var init := lines[..|lines| - 1];
      GatherDefined(read, init);
      assert forall i :: 0 <= i < |init| ==> init[i] == lines[i];
    }
  }

  /** A line that stops the parse spoils every longer list. */
  lemma GatherStuck(read: Reader, lines: seq<string>, i: nat)
    requires i <= |lines| && Gather(read, lines[..i]).None?
    ensures Gather(read, lines).None?
  {
    GatherDefined(read, lines[..i]);
    var j :| 0 <= j < i && read(lines[..i][j]) == BadNumber;
    GatherDefined(read, lines);
  }

  /** The instructions of two blocks of lines are those of the first
    * followed by those of the second. */
  lemma {:induction false} GatherAppend(read: Reader, xs: seq<string>, ys: seq<string>)
    ensures Gather(read, xs + ys) ==
      match (Gather(read, xs), Gather(read, ys))
      case (Some(a), Some(b)) => Some(a + b)
      case _ => None
  {
    if ys == [] {
      assert xs + ys == xs;
      if Gather(read, xs).Some? {
        assert Gather(read, xs).value + [] == Gather(read, xs).value;
      }
    } else {
      var init := ys[..|ys| - 1];
      GatherAppend(read, xs, init);
      assert (xs + ys)[..|xs + ys| - 1] == xs + init;
      assert (xs + ys)[|xs + ys| - 1] == ys[|ys| - 1];
      if Gather(read, xs).Some? && Gather(read, init).Some? && read(ys[|ys| - 1]).Move? {
        var a, b, x := Gather(read, xs).value, Gather(read, init).value, read(ys[|ys| - 1]).instruction;
        assert a + b + [x] == a + (b + [x]);
      }
      if Gather(read, xs).None? {
        GatherDefined(read, xs);
        GatherDefined(read, xs + ys);
        var j :| 0 <= j < |xs| && read(xs[j]) == BadNumber;
        assert (xs + ys)[j] == xs[j];
      }
    }
  }

  /** One more line. */
  lemma GatherStep(read: Reader, lines: seq<string>, i: nat)
    requires i < |lines| && Gather(read, lines[..i]).Some?
    ensures Gather(read, lines[..i + 1]) ==
      match read(lines[i])
      case Skip => Gather(read, lines[..i])
      case Move(x) => Some(Gather(read, lines[..i]).value + [x])
      case BadNumber => None
  {
    PrefixStep(lines, i);
  }

  /** An instruction written out with `i32` values is read back. */
  lemma ReadMoveSpelling(a: string, b: string, c: string)
    requires Groups(a, b, c)
    requires RustText.DecimalValue(a) <= I32_MAX && RustText.DecimalValue(b) <= I32_MAX
    requires RustText.DecimalValue(c) <= I32_MAX
    ensures ReadMove(Spelling(a, b, c)) ==
      Move(Instruction(RustText.DecimalValue(a), RustText.DecimalValue(b), RustText.DecimalValue(c)))
  {
    var s := Spelling(a, b, c);
    MoveAtSpelling(a, b, c, "");
    assert s + "" == s;
    assert FirstMove(s) == Some(Captures(a, b, c, ""));
    RustText.ParseSignedDigits(a, I32_MIN, I32_MAX);
    RustText.ParseSignedDigits(b, I32_MIN, I32_MAX);
    RustText.ParseSignedDigits(c, I32_MIN, I32_MAX);
  }

  /** `parse_instructions`. */
  method ParseInstructions(lines: seq<string>) returns (r: Option<seq<Instruction>>)
    ensures r == Instructions(lines)
  {
    var found: seq<Instruction> := [];
    assert lines[..0] == [];
    for i := 0 to |lines|
      invariant Gather(ReadMove, lines[..i]) == Some(found)
    {
      GatherStep(ReadMove, lines, i);
      var groups := FirstMove(lines[i]);
      if groups.Some? {
        var m := groups.value;
        var amount := Number(m.amount);
        var source := Number(m.source);
        var destination := Number(m.destination);
        if amount.Err? || source.Err? || destination.Err? {
          GatherStuck(ReadMove, lines, i + 1);
          return None;
        }
        found := found + [Instruction(amount.value, source.value, destination.value)];
      }
    }
    assert lines[..|lines|] == lines;
    return Some(found);
  }

  // ---------------------------------------------------------------------
  // parse_input

  /** The index of the last empty line, or 0 when there is none. */
  function SplitIndex(lines: seq<string>): (k: nat)
    ensures lines != [] ==> k < |lines|
  {
    if lines == [] then 0
    else if lines[|lines| - 1] == "" then |lines| - 1
    else SplitIndex(lines[..|lines| - 1])
  }

  /** The split is at the last empty line: no line after it is empty, and
    * it is empty itself unless no line is. */
  lemma {:induction false} SplitIndexMeaning(lines: seq<string>)
    ensures forall j :: SplitIndex(lines) < j < |lines| ==> lines[j] != ""
    ensures (exists j :: 0 <= j < |lines| && lines[j] == "") ==> lines[SplitIndex(lines)] == ""
    ensures (forall j :: 0 <= j < |lines| ==> lines[j] != "") ==> SplitIndex(lines) == 0
  {
    if lines != [] && lines[|lines| - 1] != "" {
      var init := lines[..|lines| - 1];
      SplitIndexMeaning(init);
      assert forall j :: 0 <= j < |init| ==> init[j] == lines[j];
    }
  }

  /** `parse_input`, as a value: the drawing above the split, the
    * instructions below it. */
  function ParsedProblem(lines: seq<string>): Option<Problem>
    requires lines != []
  {
    var k := SplitIndex(lines);
    match Stacks(lines[..k])
    case None => None
    case Some(stacks) =>
      match Instructions(lines[k + 1..])
      case None => None
      case Some(instructions) => Some(Problem(stacks, instructions))
  }

  /** A problem is read only from an input that has an empty line after at
    * least one other line. */
  lemma ProblemNeedsSplit(lines: seq<string>)
    requires lines != [] && ParsedProblem(lines).Some?
    ensures 0 < SplitIndex(lines) && lines[SplitIndex(lines)] == ""
  {
    SplitIndexMeaning(lines);
  }

  /** `parse_input`. It indexes `lines[split_index + 1..]`, which panics on
    * an input without lines. */
  method ParseInput(input: string) returns (r: Option<Problem>)
    requires input != ""
    ensures r == ParsedProblem(RustText.Lines(input))
  {
    var all := RustText.Lines(input);
    var lines: seq<string> := [];
    var split := 0;
    for index := 0 to |all|
      invariant lines == all[..index] && split == SplitIndex(lines)
    {
      var line := all[index];
      PrefixStep(all, index);
      lines := lines + [line];
      if line == "" {
        split := index;
      }
    }
    assert lines == all;
    var stacks := ParseStacks(lines[..split]);
    var instructions := ParseInstructions(lines[split + 1..]);
    if stacks.None? || instructions.None? {
      return None;
    }
    return Some(Problem(stacks.value, instructions.value));
  }

  // ---------------------------------------------------------------------
  // get_top_string, get_top_crates

  /** The crate on top of stack `k`. */
  function Top(stacks: map<int, seq<char>>, k: int): char
    requires k in stacks && stacks[k] != []
  {
    stacks[k][|stacks[k]| - 1]
  }

  /** `Problem::get_top_string`, as written: the tops of stacks 0 to n - 1,
    * for n stacks; `None` when one of them is missing or empty. */
  function TopString(stacks: map<int, seq<char>>): (r: Option<string>)
    ensures r.Some? <==> forall i :: 0 <= i < |stacks| ==> i in stacks && stacks[i] != []
    ensures r.Some? ==> |r.value| == |stacks| && forall i :: 0 <= i < |stacks| ==> r.value[i] == Top(stacks, i)
  {
    if forall i :: 0 <= i < |stacks| ==> i in stacks && stacks[i] != [] then
      Some(seq(|stacks|, i requires 0 <= i < |stacks| && i in stacks && stacks[i] != [] => Top(stacks, i)))
    else None
  }

  /** `Problem::get_top_string`. The characters are collected into a
    * vector, then folded into a string of the same characters. */
  method GetTopString(problem: Problem) returns (r: Option<string>)
    ensures r == TopString(problem.stacks)
  {
    var stacks := problem.stacks;
    var chars: string := [];
    for i := 0 to |stacks|
      invariant |chars| == i
      invariant forall j :: 0 <= j < i ==> j in stacks && stacks[j] != [] && chars[j] == Top(stacks, j)
    {
      if i !in stacks || stacks[i] == [] {
        return None;
      }
      chars := chars + [stacks[i][|stacks[i]| - 1]];
    }
    assert chars == TopString(stacks).value;
    return Some(chars);
  }

  /** Stacks numbered from 1, as `parse_stacks` numbers them for an index
    * line `1 2 … n`, never have a top string: there is no stack 0. */
  lemma TopStringMissesStackZero(stacks: map<int, seq<char>>)
    requires stacks != map[] && 0 !in stacks
    ensures TopString(stacks).None?
  {
    assert |stacks| > 0;
  }

  /** The tops of stacks 1 to n, the numbering the drawing uses. */
  function TopsFromOne(stacks: map<int, seq<char>>): (r: Option<string>)
    ensures r.Some? <==> forall k :: 1 <= k <= |stacks| ==> k in stacks && stacks[k] != []
    ensures r.Some? ==>
      |r.value| == |stacks| && forall i :: 0 <= i < |stacks| ==> i + 1 in stacks && r.value[i] == Top(stacks, i + 1)
  {
    if forall k :: 1 <= k <= |stacks| ==> k in stacks && stacks[k] != [] then
      Some(seq(|stacks|, i requires 0 <= i < |stacks| && i + 1 in stacks && stacks[i + 1] != [] => Top(stacks, i + 1)))
    else None
  }

  /** The numbers 1 to n. */
  function Numbers(n: nat): (r: set<int>)
    ensures |r| == n && forall k :: k in r <==> 1 <= k <= n
  {
    if n == 0 then {} else Numbers(n - 1) + {n}
  }

  /** For stacks numbered 1 to n the tops exist exactly when no stack is
    * empty, and they are read in stack order. */
  lemma TopsFromOneMeaning(n: nat, stacks: map<int, seq<char>>)
    requires stacks.Keys == Numbers(n)
    ensures TopsFromOne(stacks).Some? <==> forall k :: k in stacks ==> stacks[k] != []
    ensures TopsFromOne(stacks).Some? ==>
      |TopsFromOne(stacks).value| == n && forall i :: 0 <= i < n ==> TopsFromOne(stacks).value[i] == Top(stacks, i + 1)
  {
    assert |stacks| == |stacks.Keys| == n;
    if forall k :: k in stacks ==> stacks[k] != [] {
      assert forall k :: 1 <= k <= n ==> k in stacks;
    } else {
      var k :| k in stacks && stacks[k] == [];
      assert 0 <= k - 1 < |stacks|;
    }
  }

  /** `get_top_crates`: it parses the input, then answers the empty string
    * whatever the drawing and the instructions are. */
  method GetTopCrates(input: string) returns (r: Option<string>)
    requires input != ""
    ensures r == Some("")
  {
    var problem := ParseInput(input);
    r := Some("");
  }

  // ---------------------------------------------------------------------
  // The rearrangement the `top_crates` test expects

  /** One crate taken off the top of stack `source` and put on top of stack
    * `destination`; `None` when a stack is missing or the source is empty. */
  function MoveOne(stacks: map<int, seq<char>>, source: int, destination: int): (r: Option<map<int, seq<char>>>)
    ensures r.Some? <==> source in stacks && destination in stacks && stacks[source] != []
    ensures r.Some? ==> r.value.Keys == stacks.Keys
  {
    if source in stacks && destination in stacks && stacks[source] != [] then
      var from := stacks[source];
      var lifted := stacks[source := from[..|from| - 1]];
      Some(lifted[destination := lifted[destination] + [from[|from| - 1]]])
    else None
  }

  /** `amount` crates moved one at a time, so they land in reverse order. */
  function MoveCrates(stacks: map<int, seq<char>>, amount: nat, source: int, destination: int): Option<map<int, seq<char>>>
  {
    if amount == 0 then Some(stacks)
    else match MoveOne(stacks, source, destination)
      case None => None
      case Some(m) => MoveCrates(m, amount - 1, source, destination)
  }

  /** Between two distinct stacks a move takes `amount` crates off the
    * source, reversed onto the destination, and keeps every other stack;
    * it fails exactly when a stack is missing or the source is short. */
  lemma {:induction false} MoveCratesMeaning(stacks: map<int, seq<char>>, amount: nat, source: int, destination: int)
    requires source != destination
    ensures MoveCrates(stacks, amount, source, destination).Some? <==>
      amount == 0 || (source in stacks && destination in stacks && amount <= |stacks[source]|)
    ensures amount > 0 && MoveCrates(stacks, amount, source, destination).Some? ==>
      var m, from := MoveCrates(stacks, amount, source, destination).value, stacks[source];
      m.Keys == stacks.Keys &&
      m[source] == from[..|from| - amount] &&
      m[destination] == stacks[destination] + Reversed(from[|from| - amount..]) &&
      forall k :: k in stacks && k != source && k != destination ==> m[k] == stacks[k]
    decreases amount
  {
    if amount > 0 && MoveOne(stacks, source, destination).Some? {
      var m1 := MoveOne(stacks, source, destination).value;
      var from := stacks[source];
      MoveCratesMeaning(m1, amount - 1, source, destination);
      if amount - 1 > 0 && MoveCrates(m1, amount - 1, source, destination).Some? {
        var m := MoveCrates(m1, amount - 1, source, destination).value;
        assert m1[source] == from[..|from| - 1];
        assert m1[source][..|m1[source]| - (amount - 1)] == from[..|from| - amount];
        assert m1[source][|m1[source]| - (amount - 1)..] == from[|from| - amount..|from| - 1];
        assert from[|from| - amount..] == from[|from| - amount..|from| - 1] + [from[|from| - 1]];
        ReversedSnoc(from[|from| - amount..|from| - 1], from[|from| - 1]);
      } else if amount - 1 == 0 {
        assert from[|from| - 1..] == [from[|from| - 1]];
      }
    }
  }

  function Reversed(s: seq<char>): (r: seq<char>)
    ensures |r| == |s| && forall i :: 0 <= i < |s| ==> r[i] == s[|s| - 1 - i]
  {
    if s == [] then [] else Reversed(s[1..]) + [s[0]]
  }

  lemma ReversedSnoc(s: seq<char>, c: char)
    ensures Reversed(s + [c]) == [c] + Reversed(s)
  {
  }

  /** The instructions carried out in order; a negative amount, or a move
    * that fails, gives `None`. */
  function Rearrange(stacks: map<int, seq<char>>, instructions: seq<Instruction>): Option<map<int, seq<char>>>
    decreases |instructions|
  {
    if instructions == [] then Some(stacks)
    else
      var i := instructions[0];
      if i.amount < 0 then None
      else match MoveCrates(stacks, i.amount, i.source, i.destination)
        case None => None
        case Some(m) => Rearrange(m, instructions[1..])
  }

  /** What `get_top_crates` is evidently meant to answer: the tops of stacks 1
    * to n once every instruction has been carried out. */
  function TopCrates(problem: Problem): Option<string>
  {
    match Rearrange(problem.stacks, problem.instructions)
    case None => None
    case Some(m) => TopsFromOne(m)
  }

  // ---------------------------------------------------------------------
  // The sample of the tests

  /** Lines that are all instructions give all of them, in order. */
  lemma {:induction false} GatherMoves(read: Reader, lines: seq<string>)
    requires forall i :: 0 <= i < |lines| ==> read(lines[i]).Move?
    ensures Gather(read, lines).Some?
    ensures |Gather(read, lines).value| == |lines|
    ensures forall i :: 0 <= i < |lines| ==> Gather(read, lines).value[i] == read(lines[i]).instruction
  {
    if lines != [] {
      var init := lines[..|lines| - 1];
      assert forall i :: 0 <= i < |init| ==> init[i] == lines[i];
      GatherMoves(read, init);
    }
  }

  /** One number of one digit. */
  lemma NumberOfDigit(c: char)
    requires RustText.IsDigit(c)
    ensures Number([c]) == Ok(RustText.DigitValue(c))
  {
    RustText.ParseOneChar(c, I32_MAX);
  }

  /** An instruction of one-digit numbers. */
  lemma ReadSmallMove(a: char, b: char, c: char)
    requires RustText.IsDigit(a) && RustText.IsDigit(b) && RustText.IsDigit(c)
    ensures ReadMove(Spelling([a], [b], [c])) ==
      Move(Instruction(RustText.DigitValue(a), RustText.DigitValue(b), RustText.DigitValue(c)))
  {
    var s := Spelling([a], [b], [c]);
    MoveAtSpelling([a], [b], [c], "");
    assert s + "" == s;
    assert FirstMove(s) == Some(Captures([a], [b], [c], ""));
    NumberOfDigit(a);
    NumberOfDigit(b);
    NumberOfDigit(c);
  }

  /** Four lines that are all instructions. */
  lemma GatherFour(read: Reader, lines: seq<string>, l0: string, l1: string, l2: string, l3: string)
    requires lines == [l0, l1, l2, l3]
    requires read(l0).Move? && read(l1).Move? && read(l2).Move? && read(l3).Move?
    ensures Gather(read, lines) ==
      Some([read(l0).instruction, read(l1).instruction, read(l2).instruction, read(l3).instruction])
  {
    GatherMoves(read, lines);
    var r := Gather(read, lines).value;
    assert r == [r[0], r[1], r[2], r[3]];
  }

  /** An instruction line of the sample, spelled out. */
  lemma SampleLine(l: string, a: char, b: char, c: char)
    requires RustText.IsDigit(a) && RustText.IsDigit(b) && RustText.IsDigit(c)
    requires l == "move " + [a] + " from " + [b] + " to " + [c]
    ensures ReadMove(l) ==
      Move(Instruction(RustText.DigitValue(a), RustText.DigitValue(b), RustText.DigitValue(c)))
  {
    ReadSmallMove(a, b, c);
  }

  /** `parse_instructions_test`: the four instructions of the sample. */
  lemma SampleInstructions(lines: seq<string>)
    requires lines == ["move 1 from 2 to 1", "move 3 from 1 to 3", "move 2 from 2 to 1", "move 1 from 1 to 2"]
    ensures Instructions(lines) ==
      Some([Instruction(1, 2, 1), Instruction(3, 1, 3), Instruction(2, 2, 1), Instruction(1, 1, 2)])
  {
    SampleMove0();
    SampleMove1();
    SampleMove2();
    SampleMove3();
    GatherFour(ReadMove, lines, lines[0], lines[1], lines[2], lines[3]);
  }

  lemma SampleMove0()
    ensures ReadMove("move 1 from 2 to 1") == Move(Instruction(1, 2, 1))
  {
    SampleLine("move 1 from 2 to 1", '1', '2', '1');
  }

  lemma SampleMove1()
    ensures ReadMove("move 3 from 1 to 3") == Move(Instruction(3, 1, 3))
  {
    SampleLine("move 3 from 1 to 3", '3', '1', '3');
  }

  lemma SampleMove2()
    ensures ReadMove("move 2 from 2 to 1") == Move(Instruction(2, 2, 1))
  {
    SampleLine("move 2 from 2 to 1", '2', '2', '1');
  }

  lemma SampleMove3()
    ensures ReadMove("move 1 from 1 to 2") == Move(Instruction(1, 1, 2))
  {
    SampleLine("move 1 from 1 to 2", '1', '1', '2');
  }

  /** A row three columns wide shows the characters at 1, 5 and 9. */
  lemma CratesOfRow(row: string)
    requires |row| == 11
    ensures Crates(row) == [row[1], row[5], row[9]]
  {
    var cs := Crates(row);
    assert |cs| == 3;
    assert cs == [cs[0], cs[1], cs[2]];
  }

  /** Column `k - 1` of a drawing three rows high, bottom row first. */
  lemma ColumnThree(rows: seq<string>, k: int)
    requires |rows| == 3
    ensures Column(rows, k) == Cell(Crates(rows[2]), k) + Cell(Crates(rows[1]), k) + Cell(Crates(rows[0]), k)
  {
    var two := rows[..2];
    var one := two[..1];
    assert two[1] == rows[1] && one[0] == rows[0];
    var a, b, c := Cell(Crates(rows[2]), k), Cell(Crates(rows[1]), k), Cell(Crates(rows[0]), k);
    assert Column(one[..0], k) == [];
    assert Column(one, k) == c + [] == c;
    assert Column(two, k) == b + c;
    assert Column(rows, k) == a + (b + c) == a + b + c;
  }

  /** An index line of three one-character names. */
  lemma IndexThree(line: string, a: char, b: char, c: char)
    requires !RustText.IsWhitespace(a) && !RustText.IsWhitespace(b) && !RustText.IsWhitespace(c)
    requires line == " " + [a] + ("   " + [b] + ("   " + [c] + " "))
    ensures RustText.SplitWhitespace(line) == [[a], [b], [c]]
  {
    var gap, end := "   ", " ";
    var third := gap + [c] + end;
    var second := gap + [b] + third;
    RustText.SplitBlank(end);
    RustText.SplitWhitespaceWord(gap, [c], end);
    assert RustText.SplitWhitespace(third) == [[c]];
    RustText.SplitWhitespaceWord(gap, [b], third);
    assert RustText.SplitWhitespace(second) == [[b], [c]];
    RustText.SplitWhitespaceWord(end, [a], second);
  }

  /** One more word of the index line. */
  lemma KeysSnoc(items: seq<string>, w: string)
    ensures Keys(items + [w]) ==
      if Keys(items).Some? && Number(w).Ok? then Some(Keys(items).value + {Number(w).value}) else None
  {
    var s := items + [w];
    assert s[..|s| - 1] == items && s[|s| - 1] == w;
  }

  /** Three one-digit names are the keys of three stacks. */
  lemma KeysThree(items: seq<string>, a: char, b: char, c: char)
    requires RustText.IsDigit(a) && RustText.IsDigit(b) && RustText.IsDigit(c)
    requires items == [[a], [b], [c]]
    ensures Keys(items) ==
      Some({RustText.DigitValue(a), RustText.DigitValue(b), RustText.DigitValue(c)})
  {
    NumberOfDigit(a);
    NumberOfDigit(b);
    NumberOfDigit(c);
    var x, y, z: int := RustText.DigitValue(a), RustText.DigitValue(b), RustText.DigitValue(c);
    KeysSnoc([], [a]);
    assert [] + [[a]] == [[a]];
    KeysSnoc([[a]], [b]);
    KeysSnoc([[a], [b]], [c]);
    assert [[a]] + [[b]] == [[a], [b]] && [[a], [b]] + [[c]] == items;
    assert {} + {x} + {y} + {z} == {x, y, z};
  }

  /** The index line of the sample names stacks 1, 2 and 3. */
  lemma SampleIndex(line: string)
    requires line == " 1   2   3 "
    ensures Keys(RustText.SplitWhitespace(line)) == Some({1, 2, 3})
  {
    IndexThree(line, '1', '2', '3');
    KeysThree(["1", "2", "3"], '1', '2', '3');
  }

  /** Any three columns fit stacks 1, 2 and 3. */
  lemma FitsThree(crates: seq<char>)
    requires |crates| == 3
    ensures Fits({1, 2, 3}, crates)
  {
  }

  /** What a row of three columns puts on each stack. */
  lemma CellsThree(a: char, b: char, c: char)
    ensures Cell([a, b, c], 1) == (if RustText.IsAlphabetic(a) then [a] else [])
    ensures Cell([a, b, c], 2) == (if RustText.IsAlphabetic(b) then [b] else [])
    ensures Cell([a, b, c], 3) == (if RustText.IsAlphabetic(c) then [c] else [])
  {
  }

  lemma SampleRow0(row: string)
    requires row == "    [D]    "
    ensures Crates(row) == [' ', 'D', ' ']
  {
    CratesOfRow(row);
  }

  lemma SampleRow1(row: string)
    requires row == "[N] [C]    "
    ensures Crates(row) == ['N', 'C', ' ']
  {
    CratesOfRow(row);
  }

  lemma SampleRow2(row: string)
    requires row == "[Z] [M] [P]"
    ensures Crates(row) == ['Z', 'M', 'P']
  {
    CratesOfRow(row);
  }

  /** The crate rows of the sample, top row first. */
  lemma SampleRows(rows: seq<string>)
    requires |rows| == 3 && rows[0] == "    [D]    " && rows[1] == "[N] [C]    " && rows[2] == "[Z] [M] [P]"
    ensures forall j :: 0 <= j < |rows| ==> Fits({1, 2, 3}, Crates(rows[j]))
    ensures Column(rows, 1) == "ZN" && Column(rows, 2) == "MCD" && Column(rows, 3) == "P"
  {
    var c0, c1, c2 := [' ', 'D', ' '], ['N', 'C', ' '], ['Z', 'M', 'P'];
    SampleRow0(rows[0]);
    SampleRow1(rows[1]);
    SampleRow2(rows[2]);
    forall j | 0 <= j < |rows|
      ensures Fits({1, 2, 3}, Crates(rows[j]))
    {
      FitsThree(Crates(rows[j]));
    }
    ColumnOf(rows, c0, c1, c2, 1);
    ColumnOf(rows, c0, c1, c2, 2);
    ColumnOf(rows, c0, c1, c2, 3);
    CellsThree(' ', 'D', ' ');
    CellsThree('N', 'C', ' ');
    CellsThree('Z', 'M', 'P');
  }

  /** Column `k - 1` of a drawing of three known rows. */
  lemma ColumnOf(rows: seq<string>, c0: seq<char>, c1: seq<char>, c2: seq<char>, k: int)
    requires |rows| == 3 && Crates(rows[0]) == c0 && Crates(rows[1]) == c1 && Crates(rows[2]) == c2
    ensures Column(rows, k) == Cell(c2, k) + Cell(c1, k) + Cell(c0, k)
  {
    ColumnThree(rows, k);
  }

  /** One stack per key, holding its column's letters. */
  function Drawn(ks: set<int>, rows: seq<string>): (m: map<int, seq<char>>)
    ensures m.Keys == ks && forall k :: k in m ==> m[k] == Column(rows, k)
  {
    map k | k in ks :: Column(rows, k)
  }

  /** The stacks of a drawing whose rows all fit. */
  lemma StacksOf(lines: seq<string>, rows: seq<string>, index: string, ks: set<int>)
    requires lines == rows + [index] && Keys(RustText.SplitWhitespace(index)) == Some(ks)
    requires forall j :: 0 <= j < |rows| ==> Fits(ks, Crates(rows[j]))
    ensures Stacks(lines) == Some(Drawn(ks, rows))
  {
    assert lines[..|lines| - 1] == rows && lines[|lines| - 1] == index;
    StacksMeaning(lines);
    var m := Stacks(lines).value;
    var n := Drawn(ks, rows);
    assert m.Keys == n.Keys;
    assert m == n;
  }

  /** `parse_stacks_test`: the sample's three stacks hold 2, 3 and 1
    * crates, bottom crate first. */
  lemma SampleStacks(lines: seq<string>)
    requires lines == ["    [D]    ", "[N] [C]    ", "[Z] [M] [P]", " 1   2   3 "]
    ensures Stacks(lines) == Some(map[1 := "ZN", 2 := "MCD", 3 := "P"])
  {
    var rows, index := lines[..3], lines[3];
    assert lines == rows + [index];
    SampleIndex(index);
    SampleRows(rows);
    StacksOf(lines, rows, index, {1, 2, 3});
    ThreeStacks(Drawn({1, 2, 3}, rows), "ZN", "MCD", "P");
  }

  /** A map of stacks 1, 2 and 3, written out. */
  lemma ThreeStacks(m: map<int, seq<char>>, a: seq<char>, b: seq<char>, c: seq<char>)
    requires m.Keys == {1, 2, 3} && m[1] == a && m[2] == b && m[3] == c
    ensures m == map[1 := a, 2 := b, 3 := c]
  {
  }

  /** The sample's stacks, as `parse_stacks` numbers them, have no top
    * string as `get_top_string` is written. */
  lemma SampleTopString(m: map<int, seq<char>>)
    requires m == map[1 := "ZN", 2 := "MCD", 3 := "P"]
    ensures TopString(m).None?
  {
    assert 1 in m;
    TopStringMissesStackZero(m);
  }

  /** The tops of the sample's stacks 1 to 3 read `NDP`. */
  lemma SampleTopsFromOne(m: map<int, seq<char>>)
    requires m == map[1 := "ZN", 2 := "MCD", 3 := "P"]
    ensures TopsFromOne(m) == Some("NDP")
  {
    NumbersThree();
    assert m.Keys == Numbers(3);
    TopsFromOneMeaning(3, m);
    var v := TopsFromOne(m).value;
    assert |v| == 3 && v == [v[0], v[1], v[2]];
    assert v[0] == Top(m, 1) == 'N' && v[1] == Top(m, 2) == 'D' && v[2] == Top(m, 3) == 'P';
  }

  /** Test `top_crates`: the sample's four instructions from its three
    * stacks leave `C`, `M` and `Z` on top. */
  lemma SampleTopCrates(m: map<int, seq<char>>, instructions: seq<Instruction>)
    requires m == map[1 := "ZN", 2 := "MCD", 3 := "P"]
    requires instructions == [Instruction(1, 2, 1), Instruction(3, 1, 3), Instruction(2, 2, 1), Instruction(1, 1, 2)]
    ensures TopCrates(Problem(m, instructions)) == Some("CMZ")
  {
    var m1, m2, m3, m4 := SampleMoves(m);
    RearrangeFour(m, instructions, m1, m2, m3, m4);
    SampleTopsCMZ(m4);
  }

  /** Four instructions carried out one after the other. */
  lemma RearrangeFour(m: map<int, seq<char>>, instructions: seq<Instruction>,
                      m1: map<int, seq<char>>, m2: map<int, seq<char>>, m3: map<int, seq<char>>, m4: map<int, seq<char>>)
    requires |instructions| == 4 && forall k :: 0 <= k < 4 ==> instructions[k].amount >= 0
    requires MoveCrates(m, instructions[0].amount, instructions[0].source, instructions[0].destination) == Some(m1)
    requires MoveCrates(m1, instructions[1].amount, instructions[1].source, instructions[1].destination) == Some(m2)
    requires MoveCrates(m2, instructions[2].amount, instructions[2].source, instructions[2].destination) == Some(m3)
    requires MoveCrates(m3, instructions[3].amount, instructions[3].source, instructions[3].destination) == Some(m4)
    ensures Rearrange(m, instructions) == Some(m4)
  {
    assert Rearrange(m4, instructions[4..]) == Some(m4);
    assert instructions[3..][1..] == instructions[4..];
    assert Rearrange(m3, instructions[3..]) == Some(m4);
    assert instructions[2..][1..] == instructions[3..];
    assert Rearrange(m2, instructions[2..]) == Some(m4);
    assert instructions[1..][1..] == instructions[2..];
    assert Rearrange(m1, instructions[1..]) == Some(m4);
  }

  /** The tops of the rearranged sample stacks read `CMZ`. */
  lemma SampleTopsCMZ(m: map<int, seq<char>>)
    requires m == map[1 := "C", 2 := "M", 3 := "PDNZ"]
    ensures TopsFromOne(m) == Some("CMZ")
  {
    NumbersThree();
    assert m.Keys == Numbers(3);
    TopsFromOneMeaning(3, m);
    var v := TopsFromOne(m).value;
    assert |v| == 3 && v == [v[0], v[1], v[2]];
    assert v[0] == Top(m, 1) == 'C' && v[1] == Top(m, 2) == 'M' && v[2] == Top(m, 3) == 'Z';
  }

  /** The stacks after each instruction of the sample. */
  lemma SampleMoves(m: map<int, seq<char>>) returns (m1: map<int, seq<char>>, m2: map<int, seq<char>>,
                                                     m3: map<int, seq<char>>, m4: map<int, seq<char>>)
    requires m == map[1 := "ZN", 2 := "MCD", 3 := "P"]
    ensures MoveCrates(m, 1, 2, 1) == Some(m1) && MoveCrates(m1, 3, 1, 3) == Some(m2)
    ensures MoveCrates(m2, 2, 2, 1) == Some(m3) && MoveCrates(m3, 1, 1, 2) == Some(m4)
    ensures m4 == map[1 := "C", 2 := "M", 3 := "PDNZ"]
  {
    m1 := SampleMove(m, 1, 2, 1, "ZN", "MCD", "P", "ZND", "MC", "P");
    m2 := SampleMove(m1, 3, 1, 3, "ZND", "MC", "P", "", "MC", "PDNZ");
    m3 := SampleMove(m2, 2, 2, 1, "", "MC", "PDNZ", "CM", "", "PDNZ");
    m4 := SampleMove(m3, 1, 1, 2, "CM", "", "PDNZ", "C", "M", "PDNZ");
  }

  /** One instruction on three stacks, with the stacks before and after
    * written out. */
  lemma SampleMove(m: map<int, seq<char>>, amount: nat, source: int, destination: int,
                   a: seq<char>, b: seq<char>, c: seq<char>, a': seq<char>, b': seq<char>, c': seq<char>)
    returns (m': map<int, seq<char>>)
    requires m == map[1 := a, 2 := b, 3 := c] && source in {1, 2, 3} && destination in {1, 2, 3}
    requires source != destination && 0 < amount <= |m[source]|
    requires var from := m[source]; var m2 := map[1 := a', 2 := b', 3 := c'];
      m2[source] == from[..|from| - amount] &&
      m2[destination] == m[destination] + Reversed(from[|from| - amount..]) &&
      forall k :: k in {1, 2, 3} && k != source && k != destination ==> m2[k] == m[k]
    ensures m' == map[1 := a', 2 := b', 3 := c'] && MoveCrates(m, amount, source, destination) == Some(m')
  {
    MoveCratesMeaning(m, amount, source, destination);
    m' := map[1 := a', 2 := b', 3 := c'];
    if amount > 0 {
      ThreeStacks(MoveCrates(m, amount, source, destination).value, a', b', c');
    }
  }

  lemma NumbersThree()
    ensures Numbers(3) == {1, 2, 3}
  {
    assert Numbers(0) == {};
  }
}
