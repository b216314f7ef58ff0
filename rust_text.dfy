/**
 * The parts of Rust's `str` and integer `FromStr` that the solutions lean on,
 * stated for ASCII text: `lines`, `split`, `trim`, `split_whitespace`, `find`, `match_indices`
 * and `parse` for unsigned and signed integers.
 */
module RustText {
  import opened Wrappers
  import MachineInt

  predicate IsDigit(c: char) { '0' <= c <= '9' }

  function DigitValue(c: char): (d: nat)
    requires IsDigit(c)
    ensures d < 10
  {
    c as int - '0' as int
  }

  function DigitChar(d: nat): (c: char)
    requires d < 10
    ensures IsDigit(c) && DigitValue(c) == d
  {
    ('0' as int + d) as char
  }

  predicate IsAlphabetic(c: char) { 'a' <= c <= 'z' || 'A' <= c <= 'Z' }

  predicate IsAlphanumeric(c: char) { IsAlphabetic(c) || IsDigit(c) }

  predicate IsWhitespace(c: char)
  {
    c == ' ' || c == '\t' || c == '\n' || c == '\r' || c == '\U{000B}' || c == '\U{000C}'
  }

  predicate AllDigits(s: string) { forall i :: 0 <= i < |s| ==> IsDigit(s[i]) }

  /** `pat` occurs in `s` at index `i`. */
  predicate OccursAt(s: string, pat: string, i: nat)
  {
    i + |pat| <= |s| && s[i..i + |pat|] == pat
  }

  /** `s.find(pat)`: the index of the first occurrence (see `FindIsFirst`). */
  function Find(s: string, pat: string): (r: Option<nat>)
    ensures r.Some? ==> OccursAt(s, pat, r.value)
    decreases |s|
  {
    if |s| < |pat| then None
    else if s[..|pat|] == pat then Some(0)
    else
      match Find(s[1..], pat)
      case None => None
      case Some(i) =>
        assert s[1..][i..i + |pat|] == s[i + 1..i + 1 + |pat|];
        Some(i + 1)
  }

  /** `Find` reports the leftmost occurrence, and `None` only when there is none. */
  lemma {:induction false} FindIsFirst(s: string, pat: string)
    ensures Find(s, pat).Some? ==> forall j :: 0 <= j < Find(s, pat).value ==> !OccursAt(s, pat, j)
    ensures Find(s, pat).None? ==> forall j :: 0 <= j ==> !OccursAt(s, pat, j)
    decreases |s|
  {
    if |s| >= |pat| && s[..|pat|] != pat {
      FindIsFirst(s[1..], pat);
      forall j | 1 <= j
        ensures OccursAt(s, pat, j) <==> OccursAt(s[1..], pat, j - 1)
      {
        if j + |pat| <= |s| {
          assert s[1..][j - 1..j - 1 + |pat|] == s[j..j + |pat|];
        }
      }
    }
  }

  /** Searching for one character: found exactly when it occurs, and at its first occurrence. */
  lemma FindChar(s: string, c: char)
    ensures Find(s, [c]).Some? <==> c in s
    ensures Find(s, [c]).Some? ==>
      var i := Find(s, [c]).value; i < |s| && s[i] == c && forall j :: 0 <= j < i ==> s[j] != c
  {
    FindIsFirst(s, [c]);
    forall j | 0 <= j < |s|
      ensures OccursAt(s, [c], j) <==> s[j] == c
    {
      assert s[j..j + 1] == [s[j]];
    }
    if Find(s, [c]).Some? {
      assert OccursAt(s, [c], Find(s, [c]).value);
    }
  }

  /** `s.match_indices(pat)`, for a non-empty `pat`, from index `k` on: the
    * leftmost occurrence, then the search goes on after its end, so matches
    * never overlap. */
  function MatchesFrom(s: string, pat: string, k: nat): (r: seq<nat>)
    requires |pat| > 0 && k <= |s|
    decreases |s| - k
  {
    if k + |pat| > |s| then []
    else if s[k..k + |pat|] == pat then [k] + MatchesFrom(s, pat, k + |pat|)
    else MatchesFrom(s, pat, k + 1)
  }

  /** `s.match_indices(pat)`; an empty pattern matches at every index from 0
    * to `|s|`. */
  function MatchIndices(s: string, pat: string): (r: seq<nat>)
  {
    if |pat| == 0 then seq(|s| + 1, i => i) else MatchesFrom(s, pat, 0)
  }

  /** Every index in `r` is an occurrence of `pat` at or after `k`. */
  predicate Occurrences(s: string, pat: string, r: seq<nat>, k: nat)
  {
    forall n :: 0 <= n < |r| ==> k <= r[n] && OccursAt(s, pat, r[n])
  }

  /** The indices in `r` increase by at least `len` each: the matches they
    * start do not overlap. */
  predicate Apart(r: seq<nat>, len: nat)
  {
    forall n :: 0 < n < |r| ==> r[n - 1] + len <= r[n]
  }

  /** Every occurrence of `pat` at or after `k` is in `r` or starts inside
    * the match of one that is. */
  predicate Covered(s: string, pat: string, r: seq<nat>, k: nat)
  {
    forall j: nat :: k <= j < |s| && OccursAt(s, pat, j) && j !in r ==>
      exists n :: 0 <= n < |r| && r[n] < j < r[n] + |pat|
  }

  /** The matches from `k` on are occurrences and do not overlap. */
  lemma {:induction false} MatchesFromSound(s: string, pat: string, k: nat)
    requires |pat| > 0 && k <= |s|
    ensures Occurrences(s, pat, MatchesFrom(s, pat, k), k)
    ensures Apart(MatchesFrom(s, pat, k), |pat|)
    decreases |s| - k
  {
    if k + |pat| <= |s| {
      if s[k..k + |pat|] == pat {
        var rest := MatchesFrom(s, pat, k + |pat|);
        MatchesFromSound(s, pat, k + |pat|);
        var r := [k] + rest;
        assert MatchesFrom(s, pat, k) == r;
        assert OccursAt(s, pat, k);
        assert forall n :: 0 < n < |r| ==> r[n] == rest[n - 1];
      } else {
        MatchesFromSound(s, pat, k + 1);
      }
    }
  }

  /** No occurrence from `k` on is skipped except inside a match. */
  lemma {:induction false} MatchesFromComplete(s: string, pat: string, k: nat)
    requires |pat| > 0 && k <= |s|
    ensures Covered(s, pat, MatchesFrom(s, pat, k), k)
    decreases |s| - k
  {
    var r := MatchesFrom(s, pat, k);
    if k + |pat| <= |s| {
      if s[k..k + |pat|] == pat {
        var rest := MatchesFrom(s, pat, k + |pat|);
        MatchesFromComplete(s, pat, k + |pat|);
        assert r == [k] + rest;
        forall j: nat | k <= j < |s| && OccursAt(s, pat, j) && j !in r
          ensures exists n :: 0 <= n < |r| && r[n] < j < r[n] + |pat|
        {
          if j < k + |pat| {
            assert r[0] < j < r[0] + |pat|;
          } else {
            var n :| 0 <= n < |rest| && rest[n] < j < rest[n] + |pat|;
            assert r[n + 1] == rest[n];
          }
        }
      } else {
        MatchesFromComplete(s, pat, k + 1);
        assert !OccursAt(s, pat, k);
      }
    } else {
      forall j: nat | k <= j
        ensures !OccursAt(s, pat, j)
      {
      }
    }
  }

  /** With a non-empty pattern, the matches are the leftmost non-overlapping
    * occurrences. */
  lemma MatchIndicesMeaning(s: string, pat: string)
    requires |pat| > 0
    ensures Occurrences(s, pat, MatchIndices(s, pat), 0)
    ensures Apart(MatchIndices(s, pat), |pat|)
    ensures Covered(s, pat, MatchIndices(s, pat), 0)
  {
    MatchesFromSound(s, pat, 0);
    MatchesFromComplete(s, pat, 0);
  }

  /** `s.split(sep)` for a non-empty separator. */
  function Split(s: string, sep: string): (r: seq<string>)
    requires |sep| > 0
    ensures |r| >= 1
    decreases |s|
  {
    match Find(s, sep)
    case None => [s]
    case Some(i) => [s[..i]] + Split(s[i + |sep|..], sep)
  }

  /** Text without the first character of `pat` does not contain it. */
  lemma FindNone(s: string, pat: string)
    requires |pat| > 0 && pat[0] !in s
    ensures Find(s, pat) == None
  {
  }

  /** Two pieces around one separator, when neither piece holds the
    * separator's first character, split back into those pieces. */
  lemma SplitAroundOne(x: string, sep: string, y: string)
    requires |sep| > 0 && sep[0] !in x && sep[0] !in y
    ensures Split(x + sep + y, sep) == [x, y]
  {
    var s := x + sep + y;
    FindIsFirst(s, sep);
    assert s[|x|..|x| + |sep|] == sep;
    assert OccursAt(s, sep, |x|);
    forall j | 0 <= j < |x|
      ensures !OccursAt(s, sep, j)
    {
      assert s[j] == x[j];
    }
    assert Find(s, sep) == Some(|x|);
    assert s[..|x|] == x && s[|x| + |sep|..] == y;
    FindNone(y, sep);
  }

  /** The inverse of `Split`: the pieces joined by the separator. */
  function Join(parts: seq<string>, sep: string): string
  {
    if |parts| == 0 then ""
    else if |parts| == 1 then parts[0]
    else parts[0] + sep + Join(parts[1..], sep)
  }

  lemma {:induction false} SplitJoin(s: string, sep: string)
    requires |sep| > 0
    ensures Join(Split(s, sep), sep) == s
    decreases |s|
  {
    var f := Find(s, sep);
    if f.Some? {
      var i := f.value;
      var rest := s[i + |sep|..];
      SplitJoin(rest, sep);
      var tail := Split(rest, sep);
      var parts := [s[..i]] + tail;
      assert Split(s, sep) == parts;
      assert parts[1..] == tail;
      assert Join(parts, sep) == s[..i] + sep + rest;
      assert s[i..i + |sep|] == sep;
      assert s == s[..i] + s[i..i + |sep|] + rest;
    }
  }

  /** In `first + [c] + rest` with no `c` in `first`, the first `c` is the
    * one between the two pieces. */
  lemma FindBetween(first: string, c: char, rest: string)
    requires c !in first
    ensures Find(first + [c] + rest, [c]) == Some(|first|)
    ensures (first + [c] + rest)[..|first|] == first
    ensures (first + [c] + rest)[|first| + 1..] == rest
  {
    var s := first + [c] + rest;
    FindChar(s, c);
    assert s[|first|] == c;
    assert forall j :: 0 <= j < |first| ==> s[j] == first[j];
    assert s[..|first|] == first;
    assert s[|first| + 1..] == rest;
  }

  /** `split` on a one-character separator undoes joining pieces that do
    * not contain it. */
  lemma {:induction false} JoinSplit(parts: seq<string>, c: char)
    requires |parts| >= 1 && forall i :: 0 <= i < |parts| ==> c !in parts[i]
    ensures Split(Join(parts, [c]), [c]) == parts
  {
    if |parts| == 1 {
      FindChar(parts[0], c);
    } else {
      var first, rest := parts[0], Join(parts[1..], [c]);
      assert Join(parts, [c]) == first + [c] + rest;
      FindBetween(first, c, rest);
      JoinSplit(parts[1..], c);
    }
  }

  /** `s.lines()`: pieces ended by `\n`, a `\r` before it dropped; no last empty line. */
  function Lines(s: string): (r: seq<string>)
    ensures s == "" <==> r == []
    decreases |s|
  {
    if s == "" then []
    else
      match Find(s, "\n")
      case None => [s]
      case Some(i) =>
        var line := s[..i];
        var line := if 0 < |line| && line[|line| - 1] == '\r' then line[..|line| - 1] else line;
        [line] + Lines(s[i + 1..])
  }

  /** A line `Lines` gives back unchanged: not empty, no `\n` in it and no
    * `\r` at its end. */
  predicate IsLine(l: string)
  {
    l != "" && '\n' !in l && l[|l| - 1] != '\r'
  }

  /** `lines()` undoes joining lines with `\n`. */
  lemma {:induction false} LinesJoin(lines: seq<string>)
    requires forall i :: 0 <= i < |lines| ==> IsLine(lines[i])
    ensures Lines(Join(lines, "\n")) == lines
  {
    if |lines| == 1 {
      FindChar(lines[0], '\n');
    } else if |lines| > 1 {
      var first, rest := lines[0], Join(lines[1..], "\n");
      assert Join(lines, "\n") == first + "\n" + rest;
      LinesCons(first, rest);
      assert forall i :: 0 <= i < |lines[1..]| ==> lines[1..][i] == lines[i + 1];
      LinesJoin(lines[1..]);
      assert [first] + lines[1..] == lines;
    }
  }

  /** A line is its own only line, with or without a final `\n`. */
  lemma LinesOfLine(l: string)
    requires IsLine(l)
    ensures Lines(l) == [l] && Lines(l + "\n") == [l]
  {
    FindChar(l, '\n');
    FindBetween(l, '\n', "");
    assert l + "\n" == l + ['\n'] + "";
  }

  function TrimStart(s: string): (r: string)
    ensures |r| <= |s|
    ensures r == "" || !IsWhitespace(r[0])
  {
    if s != "" && IsWhitespace(s[0]) then TrimStart(s[1..]) else s
  }

  /** What is left after the leading whitespace is a suffix of the text. */
  lemma {:induction false} TrimStartSuffix(s: string)
    ensures TrimStart(s) == s[|s| - |TrimStart(s)|..]
  {
    if s != "" && IsWhitespace(s[0]) {
      TrimStartSuffix(s[1..]);
    }
  }

  function TrimEnd(s: string): (r: string)
    ensures |r| <= |s| && r == s[..|r|]
    ensures r == "" || !IsWhitespace(r[|r| - 1])
  {
    if s != "" && IsWhitespace(s[|s| - 1]) then TrimEnd(s[..|s| - 1]) else s
  }

  /** `s.trim()`. */
  function Trim(s: string): string
  {
    TrimEnd(TrimStart(s))
  }

  /** Length of the leading run of non-whitespace characters. */
  function WordLength(s: string): (n: nat)
    ensures n <= |s|
    ensures forall i :: 0 <= i < n ==> !IsWhitespace(s[i])
    ensures n == |s| || IsWhitespace(s[n])
  {
    if s == "" || IsWhitespace(s[0]) then 0 else 1 + WordLength(s[1..])
  }

  /** `s.split_whitespace()`: the maximal runs of non-whitespace characters. */
  function SplitWhitespace(s: string): (r: seq<string>)
    ensures forall k :: 0 <= k < |r| ==> r[k] != ""
    decreases |s|
  {
    var t := TrimStart(s);
    if t == "" then []
    else
      var n := WordLength(t);
      var rest := SplitWhitespace(t[n..]);
      assert n > 0;
      var r := [t[..n]] + rest;
      assert forall k :: 0 < k < |r| ==> r[k] == rest[k - 1];
      r
  }

  /** Leading whitespace is skipped up to the first other character. */
  lemma {:induction false} TrimStartSkip(pre: string, s: string)
    requires forall i :: 0 <= i < |pre| ==> IsWhitespace(pre[i])
    requires s == "" || !IsWhitespace(s[0])
    ensures TrimStart(pre + s) == s
  {
    if pre != "" {
      assert (pre + s)[1..] == pre[1..] + s;
      TrimStartSkip(pre[1..], s);
    }
  }

  /** A word is measured up to the whitespace after it. */
  lemma {:induction false} WordLengthOf(w: string, rest: string)
    requires forall i :: 0 <= i < |w| ==> !IsWhitespace(w[i])
    requires rest == "" || IsWhitespace(rest[0])
    ensures WordLength(w + rest) == |w|
  {
    if w != "" {
      assert (w + rest)[1..] == w[1..] + rest;
      WordLengthOf(w[1..], rest);
    }
  }

  /** Whitespace alone holds no words. */
  lemma SplitBlank(pre: string)
    requires forall i :: 0 <= i < |pre| ==> IsWhitespace(pre[i])
    ensures SplitWhitespace(pre) == []
  {
    TrimStartSkip(pre, "");
    assert pre + "" == pre;
  }

  /** A word between whitespace is the first word of the text. */
  lemma SplitWhitespaceWord(pre: string, w: string, rest: string)
    requires forall i :: 0 <= i < |pre| ==> IsWhitespace(pre[i])
    requires w != "" && forall i :: 0 <= i < |w| ==> !IsWhitespace(w[i])
    requires rest == "" || IsWhitespace(rest[0])
    ensures SplitWhitespace(pre + w + rest) == [w] + SplitWhitespace(rest)
  {
    var s := pre + w + rest;
    assert s == pre + (w + rest);
    TrimStartSkip(pre, w + rest);
    WordLengthOf(w, rest);
    assert (w + rest)[..|w|] == w && (w + rest)[|w|..] == rest;
  }

  /** The number of digits `t` starts with. */
  function DigitRun(t: string): (n: nat)
    ensures n <= |t| && AllDigits(t[..n]) && (n < |t| ==> !IsDigit(t[n]))
  {
    if t == [] || !IsDigit(t[0]) then 0
    else
      var n := 1 + DigitRun(t[1..]);
      assert t[..n] == [t[0]] + t[1..][..n - 1];
      n
  }

  /** A digit run followed by a non-digit is measured exactly. */
  lemma {:induction false} DigitRunOf(xs: string, rest: string)
    requires AllDigits(xs) && (rest != [] ==> !IsDigit(rest[0]))
    ensures DigitRun(xs + rest) == |xs|
  {
    if xs != [] {
      assert (xs + rest)[1..] == xs[1..] + rest;
      DigitRunOf(xs[1..], rest);
    }
  }

  /** The ways `core::num` integer parsing can fail. */
  datatype IntErrorKind = Empty | InvalidDigit | PosOverflow | NegOverflow

  /** Decimal value of a digit string. */
  function DecimalValue(s: string): nat
    requires AllDigits(s)
  {
    if s == "" then 0 else 10 * DecimalValue(s[..|s| - 1]) + DigitValue(s[|s| - 1])
  }

  /** The digit loop of `from_str_radix` for a non-negative number: a bad digit
    * is reported before the overflow that the same step would cause. */
  function AccumulatePos(ds: string, acc: nat, max: nat): Result<nat, IntErrorKind>
    decreases |ds|
  {
    if ds == "" then Ok(acc)
    else if !IsDigit(ds[0]) then Err(InvalidDigit)
    else if acc * 10 + DigitValue(ds[0]) > max then Err(PosOverflow)
    else AccumulatePos(ds[1..], acc * 10 + DigitValue(ds[0]), max)
  }

  /** The digit loop for a negative number, accumulating downwards from 0. */
  function AccumulateNeg(ds: string, acc: int, min: int): Result<int, IntErrorKind>
    decreases |ds|
  {
    if ds == "" then Ok(acc)
    else if !IsDigit(ds[0]) then Err(InvalidDigit)
    else if acc * 10 - DigitValue(ds[0]) < min then Err(NegOverflow)
    else AccumulateNeg(ds[1..], acc * 10 - DigitValue(ds[0]), min)
  }

  /** `s.parse::<uN>()` for an unsigned type whose maximum is `max`. */
  function ParseUnsigned(s: string, max: nat): Result<nat, IntErrorKind>
  {
    if s == "" then Err(Empty)
    else if (s[0] == '+' || s[0] == '-') && |s| == 1 then Err(InvalidDigit)
    else if s[0] == '+' then AccumulatePos(s[1..], 0, max)
    else AccumulatePos(s, 0, max)
  }

  /** A parsed unsigned value never exceeds the type's maximum. */
  lemma ParseUnsignedBound(s: string, max: nat)
    ensures ParseUnsigned(s, max).Ok? ==> ParseUnsigned(s, max).value <= max
  {
    if s != "" {
      AccumulatePosBound(s, 0, max);
      AccumulatePosBound(s[1..], 0, max);
    }
  }

  /** A one-character string parses exactly when it is a digit. */
  lemma ParseOneChar(c: char, max: nat)
    requires max >= 9
    ensures ParseUnsigned([c], max) == if IsDigit(c) then Ok(DigitValue(c)) else Err(InvalidDigit)
  {
    if IsDigit(c) {
      assert [c][1..] == "";
      assert AccumulatePos([c][1..], DigitValue(c), max) == Ok(DigitValue(c));
      assert AccumulatePos([c], 0, max) == Ok(DigitValue(c));
    }
  }

  /** `s.parse::<iN>()` for a signed type with range `min..=max`. */
  function ParseSigned(s: string, min: int, max: int): Result<int, IntErrorKind>
    requires min <= 0 <= max
  {
    if s == "" then Err(Empty)
    else if (s[0] == '+' || s[0] == '-') && |s| == 1 then Err(InvalidDigit)
    else if s[0] == '+' then
      match AccumulatePos(s[1..], 0, max)
      case Ok(v) => Ok(v)
      case Err(e) => Err(e)
    else if s[0] == '-' then AccumulateNeg(s[1..], 0, min)
    else
      match AccumulatePos(s, 0, max)
      case Ok(v) => Ok(v)
      case Err(e) => Err(e)
  }

  /** `n.to_string()` for a non-negative integer. */
  function Decimal(n: nat): (s: string)
    ensures |s| >= 1 && AllDigits(s)
  {
    if n < 10 then [DigitChar(n)] else Decimal(n / 10) + [DigitChar(n % 10)]
  }

  lemma {:induction false} DecimalValueOfDecimal(n: nat)
    ensures DecimalValue(Decimal(n)) == n
  {
    var s := Decimal(n);
    if n >= 10 {
      DecimalValueOfDecimal(n / 10);
      assert s[..|s| - 1] == Decimal(n / 10);
    }
  }

  lemma {:induction false} DecimalValueAppend(a: string, b: string)
    requires AllDigits(a) && AllDigits(b)
    ensures AllDigits(a + b)
    ensures DecimalValue(a + b) == DecimalValue(a) * MachineInt.Pow(10, |b|) + DecimalValue(b)
    decreases |b|
  {
    assert AllDigits(a + b);
    if b == "" {
      assert a + b == a;
    } else {
      var b' := b[..|b| - 1];
      assert (a + b)[..|a + b| - 1] == a + b';
      DecimalValueAppend(a, b');
      var x, p, y, d := DecimalValue(a), MachineInt.Pow(10, |b'|), DecimalValue(b'), DigitValue(b[|b| - 1]);
      assert (a + b)[|a + b| - 1] == b[|b| - 1];
      assert DecimalValue(a + b) == 10 * DecimalValue(a + b') + d;
      assert DecimalValue(b) == 10 * y + d;
      assert MachineInt.Pow(10, |b|) == 10 * p;
      MachineInt.ShiftDigit(x, p, y, d);
    }
  }

  /** A digit string is its leading digit times a power of ten plus the
    * value of the rest. */
  lemma LeadingDigit(ds: string)
    requires AllDigits(ds) && ds != ""
    ensures DecimalValue(ds) == DigitValue(ds[0]) * MachineInt.Pow(10, |ds| - 1) + DecimalValue(ds[1..])
    ensures MachineInt.Pow(10, |ds|) == 10 * MachineInt.Pow(10, |ds| - 1)
    ensures MachineInt.Pow(10, |ds| - 1) >= 1
  {
    DecimalValueAppend([ds[0]], ds[1..]);
    assert [ds[0]] + ds[1..] == ds;
    assert DecimalValue([ds[0]]) == DigitValue(ds[0]) by {
      assert [ds[0]][..0] == "";
    }
    MachineInt.PowMonotone(10, 0, |ds| - 1);
  }

  /** The digit loop succeeds exactly when the final value fits, because the
    * running value never decreases. */
  lemma {:induction false} AccumulatePosDigits(ds: string, acc: nat, max: nat)
    requires AllDigits(ds) && acc <= max
    ensures AllDigits(ds)
    ensures AccumulatePos(ds, acc, max) ==
      (var v := acc * MachineInt.Pow(10, |ds|) + DecimalValue(ds); if v <= max then Ok(v) else Err(PosOverflow))
    decreases |ds|
  {
    if ds != "" {
      var d := DigitValue(ds[0]);
      var p := MachineInt.Pow(10, |ds| - 1);
      var rest := DecimalValue(ds[1..]);
      LeadingDigit(ds);
      MachineInt.Regroup(acc, p, d, rest);
      if acc * 10 + d <= max {
        AccumulatePosDigits(ds[1..], acc * 10 + d, max);
      } else {
        MachineInt.MulAtLeastSelf(acc * 10 + d, p);
      }
    }
  }

  /** The downward digit loop of a negative number: it succeeds exactly when
    * the final value stays at or above `min`. */
  lemma {:induction false} AccumulateNegDigits(ds: string, acc: int, min: int)
    requires AllDigits(ds) && min <= acc <= 0
    ensures AccumulateNeg(ds, acc, min) ==
      (var v := acc * MachineInt.Pow(10, |ds|) - DecimalValue(ds); if v >= min then Ok(v) else Err(NegOverflow))
    decreases |ds|
  {
    if ds != "" {
      var d := DigitValue(ds[0]);
      var p := MachineInt.Pow(10, |ds| - 1);
      var rest := DecimalValue(ds[1..]);
      LeadingDigit(ds);
      var next := acc * 10 - d;
      RegroupDown(acc, p, d, rest);
      if next >= min {
        AccumulateNegDigits(ds[1..], next, min);
      } else {
        ScaleDown(next, p, rest);
      }
    }
  }

  lemma RegroupDown(a: int, p: int, d: int, r: int)
    ensures a * (10 * p) - (d * p + r) == (a * 10 - d) * p - r
  {
  }

  /** Scaling a non-positive value by `p >= 1` and lowering it keeps it at or below itself. */
  lemma ScaleDown(x: int, p: nat, r: nat)
    requires x <= 0 && p >= 1
    ensures x * p - r <= x
  {
    MachineInt.MulAtLeastSelf(-x, p);
    assert x * p == -((-x) * p);
  }

  /** The digit loop never goes past its bound. */
  lemma {:induction false} AccumulatePosBound(ds: string, acc: nat, max: nat)
    requires acc <= max
    ensures AccumulatePos(ds, acc, max).Ok? ==> acc <= AccumulatePos(ds, acc, max).value <= max
    decreases |ds|
  {
    if ds != "" && IsDigit(ds[0]) && acc * 10 + DigitValue(ds[0]) <= max {
      AccumulatePosBound(ds[1..], acc * 10 + DigitValue(ds[0]), max);
    }
  }

  lemma {:induction false} AccumulateNegBound(ds: string, acc: int, min: int)
    requires min <= acc <= 0
    ensures AccumulateNeg(ds, acc, min).Ok? ==> min <= AccumulateNeg(ds, acc, min).value <= acc
    decreases |ds|
  {
    if ds != "" && IsDigit(ds[0]) && acc * 10 - DigitValue(ds[0]) >= min {
      AccumulateNegBound(ds[1..], acc * 10 - DigitValue(ds[0]), min);
    }
  }

  /** A non-digit anywhere in the digits makes the digit loop fail. */
  lemma {:induction false} AccumulatePosNonDigit(ds: string, k: nat, acc: nat, max: nat)
    requires k < |ds| && !IsDigit(ds[k])
    ensures AccumulatePos(ds, acc, max).Err?
    decreases k
  {
    if k > 0 && IsDigit(ds[0]) && acc * 10 + DigitValue(ds[0]) <= max {
      AccumulatePosNonDigit(ds[1..], k - 1, acc * 10 + DigitValue(ds[0]), max);
    }
  }

  lemma {:induction false} AccumulateNegNonDigit(ds: string, k: nat, acc: int, min: int)
    requires k < |ds| && !IsDigit(ds[k])
    ensures AccumulateNeg(ds, acc, min).Err?
    decreases k
  {
    if k > 0 && IsDigit(ds[0]) && acc * 10 - DigitValue(ds[0]) >= min {
      AccumulateNegNonDigit(ds[1..], k - 1, acc * 10 - DigitValue(ds[0]), min);
    }
  }

  /** A parsed unsigned value is the decimal value of the digits, and every
    * digit string whose value fits parses to it. */
  lemma ParseUnsignedDigits(s: string, max: nat)
    requires s != "" && AllDigits(s)
    ensures ParseUnsigned(s, max) == if DecimalValue(s) <= max then Ok(DecimalValue(s)) else Err(PosOverflow)
  {
    AccumulatePosDigits(s, 0, max);
  }

  /** A minus sign before a digit string parses to minus its decimal value,
    * when that reaches no lower than `min`. */
  lemma ParseSignedNegative(digits: string, min: int, max: int)
    requires digits != "" && AllDigits(digits) && min <= 0 <= max
    ensures ParseSigned("-" + digits, min, max) ==
      (var v := -(DecimalValue(digits) as int); if v >= min then Ok(v) else Err(NegOverflow))
  {
    var s := "-" + digits;
    assert s[1..] == digits;
    AccumulateNegDigits(digits, 0, min);
  }

  /** `n.to_string().parse()` gives `n` back. */
  lemma ParseDecimal(n: nat, max: nat)
    requires n <= max
    ensures ParseUnsigned(Decimal(n), max) == Ok(n)
  {
    ParseUnsignedDigits(Decimal(n), max);
    DecimalValueOfDecimal(n);
  }

  /** A plain decimal also parses as a signed number. */
  lemma ParseSignedDecimal(n: nat, min: int, max: int)
    requires min <= 0 <= max && n <= max
    ensures ParseSigned(Decimal(n), min, max) == Ok(n)
  {
    ParseDecimal(n, max);
  }

  /** A digit string parses as a signed number as it does as an unsigned one. */
  lemma ParseSignedDigits(s: string, min: int, max: int)
    requires s != "" && AllDigits(s) && min <= 0 <= max
    ensures ParseSigned(s, min, max) == if DecimalValue(s) <= max then Ok(DecimalValue(s)) else Err(PosOverflow)
  {
    ParseUnsignedDigits(s, max);
  }

  /** The value of four digits. */
  lemma DecimalValueFour(a: char, b: char, c: char, d: char)
    requires IsDigit(a) && IsDigit(b) && IsDigit(c) && IsDigit(d)
    ensures AllDigits([a, b, c, d])
    ensures DecimalValue([a, b, c, d]) ==
      1000 * DigitValue(a) + 100 * DigitValue(b) + 10 * DigitValue(c) + DigitValue(d)
  {
    assert [a][..0] == [];
    assert DecimalValue([a]) == DigitValue(a);
    assert [a, b][..1] == [a];
    assert DecimalValue([a, b]) == 10 * DigitValue(a) + DigitValue(b);
    assert [a, b, c][..2] == [a, b];
    assert DecimalValue([a, b, c]) == 100 * DigitValue(a) + 10 * DigitValue(b) + DigitValue(c);
    assert [a, b, c, d][..3] == [a, b, c];
  }

  /** Text that neither starts nor ends with whitespace is its own trim. */
  lemma TrimKeeps(s: string)
    requires s != "" && !IsWhitespace(s[0]) && !IsWhitespace(s[|s| - 1])
    ensures Trim(s) == s
  {
  }

  /** Digits hold no other character. */
  lemma DigitsLack(s: string, c: char)
    requires AllDigits(s) && !IsDigit(c)
    ensures c !in s
  {
  }

  /** `lines()` of text that starts with one line ended by `\n`; the line
    * may be empty. */
  lemma LinesCons(l: string, rest: string)
    requires '\n' !in l && (l == "" || l[|l| - 1] != '\r')
    ensures Lines(l + "\n" + rest) == [l] + Lines(rest)
  {
    assert l + "\n" + rest == l + ['\n'] + rest;
    FindBetween(l, '\n', rest);
  }

  /** Six lines joined with `\n`, written out. */
  lemma JoinSix(l0: string, l1: string, l2: string, l3: string, l4: string, l5: string)
    ensures Join([l0, l1, l2, l3, l4, l5], "\n") ==
      l0 + "\n" + l1 + "\n" + l2 + "\n" + l3 + "\n" + l4 + "\n" + l5
  {
    var s4: seq<string> := [l4, l5];
    assert s4[1..] == [l5];
    assert Join(s4, "\n") == l4 + "\n" + l5;
    var s3 := [l3] + s4;
    assert s3[1..] == s4;
    assert Join(s3, "\n") == l3 + "\n" + (l4 + "\n" + l5);
    var s2 := [l2] + s3;
    assert s2[1..] == s3;
    assert Join(s2, "\n") == l2 + "\n" + (l3 + "\n" + (l4 + "\n" + l5));
    var s1 := [l1] + s2;
    assert s1[1..] == s2;
    assert Join(s1, "\n") == l1 + "\n" + (l2 + "\n" + (l3 + "\n" + (l4 + "\n" + l5)));
    var s0 := [l0] + s1;
    assert s0[1..] == s1;
    assert Join(s0, "\n") == l0 + "\n" + (l1 + "\n" + (l2 + "\n" + (l3 + "\n" + (l4 + "\n" + l5))));
    assert s0 == [l0, l1, l2, l3, l4, l5];
  }
}
