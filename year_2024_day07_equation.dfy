/**
 * One calibration equation (`year_2024/day07/equation.rs`): a test value and
 * the numbers that operators are put between, strictly left to right, to
 * try to reach it.
 */
module Year2024Day07Equation {
  import opened Wrappers
  import MachineInt
  import RustText
  import opened Year2024Day07Error
  import opened Year2024Day07CheckedOp
  import opened Year2024Day07OperationSelection

  /** `Equation<T>`: every field is a value of the type `t` passed along. */
  datatype Equation = Equation(expected: int, testValues: seq<int>)

  predicate OfType(t: Integer, eq: Equation)
  {
    InRange(t, eq.expected) && forall i :: 0 <= i < |eq.testValues| ==> InRange(t, eq.testValues[i])
  }

  // ---------------------------------------------------------------------
  // Parsing
  // ---------------------------------------------------------------------

  /** The length of the run of ASCII digits that starts `s`. */
  function DigitRun(s: string): (n: nat)
    ensures n <= |s| && RustText.AllDigits(s[..n])
    ensures n == |s| || !RustText.IsDigit(s[n])
  {
    if s != "" && RustText.IsDigit(s[0]) then 1 + DigitRun(s[1..]) else 0
  }

  /** The length of the greedy match of `(?: \d+)*` at the start of `s`. */
  function ValueRun(s: string): (n: nat)
    ensures n <= |s|
    decreases |s|
  {
    if |s| >= 2 && s[0] == ' ' && RustText.IsDigit(s[1]) then
      var k := 1 + DigitRun(s[1..]);
      k + ValueRun(s[k..])
    else 0
  }

  /** The regex matches at the first character of `s`: a digit run, `:`, and
    * at least one ` \d+`. A match takes the whole digit run, since only the
    * full run can be followed by `:`. */
  predicate MatchesHere(s: string)
  {
    var e := DigitRun(s);
    0 < e < |s| && s[e] == ':' && ValueRun(s[e + 1..]) > 0
  }

  /** The groups `expected` and `test_values` of a match at the start of `s`. */
  function Groups(s: string): (string, string)
    requires MatchesHere(s)
  {
    var e := DigitRun(s);
    (s[..e], s[e + 1..e + 1 + ValueRun(s[e + 1..])])
  }

  /** The groups of the leftmost match of
    * `(?P<expected>\d+):(?P<test_values>(?: \d+)+)` in `s`, if any. */
  function Captures(s: string): Option<(string, string)>
    decreases |s|
  {
    if s == "" then None
    else if MatchesHere(s) then Some(Groups(s))
    else Captures(s[1..])
  }

  /** The `map(parse).collect::<Result<Vec<_>, _>>()` of the values: the
    * first that does not fit `T` gives `IntegerTypeTooSmall`. */
  function ParseValues(t: Integer, parts: seq<string>): (r: Result<seq<int>, Error>)
    ensures r.Err? ==> r.error == IntegerTypeTooSmall
    ensures r.Ok? ==> |r.value| == |parts| && forall i :: 0 <= i < |parts| ==> InRange(t, r.value[i])
  {
    if parts == [] then Ok([])
    else
      match Parse(t, parts[0])
      case Err(_) => Err(IntegerTypeTooSmall)
      case Ok(v) =>
        match ParseValues(t, parts[1..])
        case Err(e) => Err(e)
        case Ok(vs) => Ok([v] + vs)
  }

  /** `Equation::from_str`: `ParsingFailed` when the line has no match, and
    * `IntegerTypeTooSmall` when a number does not fit `T`. A parsed equation
    * has at least one value, and all of it is of type `T`. */
  function FromStr(t: Integer, s: string): (r: Result<Equation, Error>)
    ensures r.Ok? ==> OfType(t, r.value) && |r.value.testValues| >= 1
    ensures r.Err? ==> (r.error == ParsingFailed <==> Captures(s).None?)
    ensures r.Err? ==> r.error == ParsingFailed || r.error == IntegerTypeTooSmall
  {
    match Captures(s)
    case None => Err(ParsingFailed)
    case Some((e, vs)) =>
      match Parse(t, e)
      case Err(_) => Err(IntegerTypeTooSmall)
      case Ok(expected) =>
        match ParseValues(t, RustText.Split(RustText.Trim(vs), " "))
        case Err(err) => Err(err)
        case Ok(values) => Ok(Equation(expected, values))
  }

  /** An equation of non-negative numbers. */
  predicate Unsigned(eq: Equation)
  {
    eq.expected >= 0 && forall i :: 0 <= i < |eq.testValues| ==> eq.testValues[i] >= 0
  }

  /** The line an equation of non-negative numbers is written as: the test
    * value, `:`, and each number after a space. */
  function Format(eq: Equation): string
    requires Unsigned(eq)
  {
    RustText.Decimal(eq.expected) + ":" + FormatValues(eq.testValues)
  }

  function FormatValues(vs: seq<int>): (s: string)
    requires forall i :: 0 <= i < |vs| ==> vs[i] >= 0
    ensures vs == [] <==> s == ""
    ensures s != "" ==> s[0] == ' ' && RustText.IsDigit(s[|s| - 1])
  {
    if vs == [] then "" else " " + RustText.Decimal(vs[0]) + FormatValues(vs[1..])
  }

  function Decimals(vs: seq<int>): (ds: seq<string>)
    requires forall i :: 0 <= i < |vs| ==> vs[i] >= 0
    ensures |ds| == |vs| && forall i :: 0 <= i < |vs| ==> ds[i] == RustText.Decimal(vs[i])
  {
    if vs == [] then [] else [RustText.Decimal(vs[0])] + Decimals(vs[1..])
  }

  lemma {:induction false} FormatValuesChars(vs: seq<int>)
    requires forall i :: 0 <= i < |vs| ==> vs[i] >= 0
    ensures forall i :: 0 <= i < |FormatValues(vs)| ==> FormatValues(vs)[i] == ' ' || RustText.IsDigit(FormatValues(vs)[i])
  {
    if vs != [] {
      FormatValuesChars(vs[1..]);
      var d, rest := RustText.Decimal(vs[0]), FormatValues(vs[1..]);
      assert FormatValues(vs) == [' '] + d + rest;
      forall i | 0 <= i < |FormatValues(vs)|
        ensures FormatValues(vs)[i] == ' ' || RustText.IsDigit(FormatValues(vs)[i])
      {
        if 1 <= i < 1 + |d| {
          assert FormatValues(vs)[i] == d[i - 1];
        } else if i >= 1 + |d| {
          assert FormatValues(vs)[i] == rest[i - 1 - |d|];
        }
      }
    }
  }

  /** A formatted equation is one line of the puzzle input. */
  lemma FormatIsLine(eq: Equation)
    requires Unsigned(eq)
    requires |eq.testValues| >= 1
    ensures RustText.IsLine(Format(eq))
  {
    var d, f := RustText.Decimal(eq.expected), FormatValues(eq.testValues);
    FormatValuesChars(eq.testValues);
    assert Format(eq) == d + [':'] + f;
    forall i | 0 <= i < |Format(eq)|
      ensures Format(eq)[i] != '\n'
    {
      if i < |d| {
        assert Format(eq)[i] == d[i];
      } else if i > |d| {
        assert Format(eq)[i] == f[i - |d| - 1];
      }
    }
    assert Format(eq)[|Format(eq)| - 1] == f[|f| - 1];
  }

  /** A digit run stops where the digits stop. */
  lemma {:induction false} DigitRunPrefix(d: string, rest: string)
    requires RustText.AllDigits(d) && (rest == "" || !RustText.IsDigit(rest[0]))
    ensures DigitRun(d + rest) == |d|
    decreases |d|
  {
    if d != "" {
      assert (d + rest)[1..] == d[1..] + rest;
      DigitRunPrefix(d[1..], rest);
    } else {
      assert d + rest == rest;
    }
  }

  /** The value group of the regex takes a whole formatted value list. */
  lemma {:induction false} ValueRunFormat(vs: seq<int>)
    requires forall i :: 0 <= i < |vs| ==> vs[i] >= 0
    ensures ValueRun(FormatValues(vs)) == |FormatValues(vs)|
    decreases |vs|
  {
    if vs != [] {
      var d, rest := RustText.Decimal(vs[0]), FormatValues(vs[1..]);
      var s := " " + d + rest;
      assert s[1..] == d + rest;
      DigitRunPrefix(d, rest);
      assert s[1 + |d|..] == rest;
      ValueRunFormat(vs[1..]);
    }
  }

  lemma CapturesFormat(eq: Equation)
    requires Unsigned(eq)
    requires |eq.testValues| >= 1
    ensures Captures(Format(eq)) == Some((RustText.Decimal(eq.expected), FormatValues(eq.testValues)))
  {
    ValueRunFormat(eq.testValues);
    CapturesLine(RustText.Decimal(eq.expected), FormatValues(eq.testValues));
  }

  /** Digits, `:`, and a value group that runs to the end are captured whole. */
  lemma {:induction false} CapturesLine(d: string, f: string)
    requires d != "" && RustText.AllDigits(d)
    requires f != "" && f[0] == ' ' && ValueRun(f) == |f|
    ensures Captures(d + ":" + f) == Some((d, f))
  {
    var s := d + ":" + f;
    assert MatchesHere(s) && DigitRun(s) == |d| && ValueRun(s[|d| + 1..]) == |f| by {
      DigitsThenColon(d, f);
      ColonSplit(d, f);
      ColonMatch(s, |d|, f);
    }
    assert s[..|d|] == d && s[|d| + 1..|d| + 1 + |f|] == f by {
      ColonSplit(d, f);
    }
    GroupsAt(s, d, f);
  }

  lemma DigitsThenColon(d: string, f: string)
    requires RustText.AllDigits(d)
    ensures DigitRun(d + ":" + f) == |d|
  {
    assert d + ":" + f == d + (":" + f);
    DigitRunPrefix(d, ":" + f);
  }

  lemma ColonMatch(s: string, e: nat, f: string)
    requires DigitRun(s) == e && 0 < e < |s| && s[e] == ':'
    requires s[e + 1..] == f && f != "" && f[0] == ' ' && ValueRun(f) == |f|
    ensures MatchesHere(s) && ValueRun(s[e + 1..]) == |f|
  {
  }

  lemma GroupsAt(s: string, d: string, f: string)
    requires MatchesHere(s) && DigitRun(s) == |d| && ValueRun(s[|d| + 1..]) == |f|
    requires s[..|d|] == d && s[|d| + 1..|d| + 1 + |f|] == f
    ensures Captures(s) == Some((d, f))
  {
  }

  lemma ColonSplit(d: string, f: string)
    ensures d + ":" + f == d + (":" + f)
    ensures (d + ":" + f)[..|d|] == d && (d + ":" + f)[|d|] == ':'
    ensures (d + ":" + f)[|d| + 1..] == f && f[..|f|] == f
    ensures (d + ":" + f)[|d| + 1..|d| + 1 + |f|] == f
  {
  }

  /** The formatted values are a space followed by the decimals joined by spaces. */
  lemma {:induction false} FormatValuesJoin(vs: seq<int>)
    requires forall i :: 0 <= i < |vs| ==> vs[i] >= 0
    requires |vs| >= 1
    ensures FormatValues(vs) == " " + RustText.Join(Decimals(vs), " ")
    decreases |vs|
  {
    if |vs| > 1 {
      FormatValuesJoin(vs[1..]);
      assert Decimals(vs)[1..] == Decimals(vs[1..]);
    }
  }

  /** `trim` removes just the leading space of the value group. */
  lemma TrimFormat(vs: seq<int>)
    requires forall i :: 0 <= i < |vs| ==> vs[i] >= 0
    requires |vs| >= 1
    ensures RustText.Trim(FormatValues(vs)) == RustText.Join(Decimals(vs), " ")
  {
    FormatValuesJoin(vs);
    var f := FormatValues(vs);
    var j := RustText.Join(Decimals(vs), " ");
    assert f[1..] == j;
    JoinFirst(Decimals(vs), " ");
    assert j[|j| - 1] == f[|f| - 1];
    TrimOneSpace(f);
  }

  /** Trimming a space followed by a string that starts and ends in a digit. */
  lemma TrimOneSpace(f: string)
    requires |f| >= 2 && f[0] == ' ' && RustText.IsDigit(f[1]) && RustText.IsDigit(f[|f| - 1])
    ensures RustText.Trim(f) == f[1..]
  {
    var j := f[1..];
    assert RustText.TrimStart(f) == RustText.TrimStart(j);
    assert RustText.TrimStart(j) == j;
    assert RustText.TrimEnd(j) == j;
  }

  lemma JoinFirst(parts: seq<string>, sep: string)
    requires |parts| >= 1 && parts[0] != ""
    ensures RustText.Join(parts, sep)[0] == parts[0][0]
  {
  }

  /** Splitting at single spaces takes apart pieces joined by single spaces,
    * when no piece is empty or holds a space. */
  lemma {:induction false} SplitJoinDigits(parts: seq<string>)
    requires |parts| >= 1
    requires forall i :: 0 <= i < |parts| ==> parts[i] != "" && RustText.AllDigits(parts[i])
    ensures RustText.Split(RustText.Join(parts, " "), " ") == parts
    decreases |parts|
  {
    var p := parts[0];
    assert ' ' !in p;
    if |parts| == 1 {
      RustText.FindChar(p, ' ');
    } else {
      var rest := RustText.Join(parts[1..], " ");
      var s := p + " " + rest;
      assert RustText.Join(parts, " ") == s;
      RustText.FindChar(s, ' ');
      assert s[|p|] == ' ';
      assert RustText.Find(s, " ").value == |p|;
      assert s[..|p|] == p;
      assert s[|p| + 1..] == rest;
      SplitJoinDigits(parts[1..]);
    }
  }

  predicate AllOfType(t: Integer, vs: seq<int>)
  {
    forall i :: 0 <= i < |vs| ==> InRange(t, vs[i])
  }

  lemma ParseDecimal(t: Integer, v: nat)
    ensures Parse(t, RustText.Decimal(v)) == if InRange(t, v) then Ok(v as int) else Err(RustText.PosOverflow)
  {
    ParseDigits(t, RustText.Decimal(v));
    RustText.DecimalValueOfDecimal(v);
  }

  lemma {:induction false} ParseValuesDecimals(t: Integer, vs: seq<int>)
    requires forall i :: 0 <= i < |vs| ==> vs[i] >= 0
    ensures ParseValues(t, Decimals(vs)) == if AllOfType(t, vs) then Ok(vs) else Err(IntegerTypeTooSmall)
    decreases |vs|
  {
    if vs != [] {
      var ds, rest := Decimals(vs), vs[1..];
      assert ds[0] == RustText.Decimal(vs[0]) && ds[1..] == Decimals(rest) && vs == [vs[0]] + rest by {
        assert ds[1..] == Decimals(rest);
      }
      ParseDecimal(t, vs[0]);
      ParseValuesDecimals(t, rest);
      AllOfTypeCons(t, vs);
    }
  }

  lemma AllOfTypeCons(t: Integer, vs: seq<int>)
    requires vs != []
    ensures AllOfType(t, vs) <==> InRange(t, vs[0]) && AllOfType(t, vs[1..])
  {
    if InRange(t, vs[0]) && AllOfType(t, vs[1..]) {
      forall i | 0 <= i < |vs| ensures InRange(t, vs[i]) {
        if i > 0 {
          assert vs[i] == vs[1..][i - 1];
        }
      }
    }
  }

  /** Parsing a formatted equation gives it back when all of it fits `T`,
    * and `IntegerTypeTooSmall` otherwise. */
  lemma FromStrFormat(t: Integer, eq: Equation)
    requires Unsigned(eq)
    requires |eq.testValues| >= 1
    ensures FromStr(t, Format(eq)) == if OfType(t, eq) then Ok(eq) else Err(IntegerTypeTooSmall)
  {
    CapturesFormat(eq);
    ParseDecimal(t, eq.expected);
    TrimFormat(eq.testValues);
    SplitJoinDigits(Decimals(eq.testValues));
    ParseValuesDecimals(t, eq.testValues);
  }

  /** The cases of the `parse` test. */
  lemma ParseExample190()
    ensures FromStr(U8, "190: 10 19") == Ok(Equation(190, [10, 19]))
  {
    var eq := Equation(190, [10, 19]);
    assert FormatValues([10, 19]) == " 10 19" by {
      assert RustText.Decimal(10) == "10";
      assert RustText.Decimal(19) == "19";
      assert [10, 19][1..] == [19];
    }
    assert Format(eq) == "190: 10 19" by {
      assert RustText.Decimal(190) == "190";
    }
    assert OfType(U8, eq);
    FromStrFormat(U8, eq);
  }

  lemma FormatValuesCons(v: nat, vs: seq<int>)
    requires forall i :: 0 <= i < |vs| ==> vs[i] >= 0
    ensures FormatValues([v] + vs) == " " + RustText.Decimal(v) + FormatValues(vs)
  {
    assert ([v] + vs)[1..] == vs;
  }

  lemma Decimals3267()
    ensures RustText.Decimal(81) == "81" && RustText.Decimal(40) == "40" && RustText.Decimal(27) == "27"
    ensures RustText.Decimal(3267) == "3267"
  {
  }

  lemma Decimals161011()
    ensures RustText.Decimal(16) == "16" && RustText.Decimal(10) == "10" && RustText.Decimal(13) == "13"
    ensures RustText.Decimal(161011) == "161011"
  {
    assert RustText.Decimal(1610) == "1610";
  }

  /** The three numbers of `3267: 81 40 27` are written out as in the line. */
  lemma Format3267()
    ensures Format(Equation(3267, [81, 40, 27])) == "3267: 81 40 27"
  {
    Decimals3267();
    FormatValues3267();
  }

  lemma FormatValues3267()
    ensures FormatValues([81, 40, 27]) == " 81 40 27"
  {
    Decimals3267();
    assert FormatValues([27]) == " 27" by {
      FormatValuesCons(27, []);
      assert [27] + [] == [27];
    }
    assert FormatValues([40, 27]) == " 40 27" by {
      FormatValuesCons(40, [27]);
      assert [40] + [27] == [40, 27];
    }
    FormatValuesCons(81, [40, 27]);
    assert [81] + [40, 27] == [81, 40, 27];
  }

  lemma Format161011()
    ensures Format(Equation(161011, [16, 10, 13])) == "161011: 16 10 13"
  {
    Decimals161011();
    FormatValues161011();
  }

  lemma FormatValues161011()
    ensures FormatValues([16, 10, 13]) == " 16 10 13"
  {
    Decimals161011();
    assert FormatValues([13]) == " 13" by {
      FormatValuesCons(13, []);
      assert [13] + [] == [13];
    }
    assert FormatValues([10, 13]) == " 10 13" by {
      FormatValuesCons(10, [13]);
      assert [10] + [13] == [10, 13];
    }
    FormatValuesCons(16, [10, 13]);
    assert [16] + [10, 13] == [16, 10, 13];
  }

  lemma ParseExample3267()
    ensures FromStr(U8, "3267: 81 40 27") == Err(IntegerTypeTooSmall)
    ensures FromStr(U16, "3267: 81 40 27") == Ok(Equation(3267, [81, 40, 27]))
  {
    var eq := Equation(3267, [81, 40, 27]);
    Format3267();
    assert !OfType(U8, eq);
    assert OfType(U16, eq);
    FromStrFormat(U8, eq);
    FromStrFormat(U16, eq);
  }

  lemma ParseExample161011()
    ensures FromStr(U8, "161011: 16 10 13") == Err(IntegerTypeTooSmall)
    ensures FromStr(U16, "161011: 16 10 13") == Err(IntegerTypeTooSmall)
    ensures FromStr(U32, "161011: 16 10 13") == Ok(Equation(161011, [16, 10, 13]))
  {
    var eq := Equation(161011, [16, 10, 13]);
    Format161011();
    assert !OfType(U8, eq) && !OfType(U16, eq);
    assert OfType(U32, eq);
    FromStrFormat(U8, eq);
    FromStrFormat(U16, eq);
    FromStrFormat(U32, eq);
  }

  /** A line whose value list is missing has no match. */
  lemma ParseExampleNoValues()
    ensures FromStr(U8, "123:") == Err(ParsingFailed)
  {
    assert !MatchesHere("123:") by {
      assert DigitRun("123:") == 3;
      assert "123:"[4..] == "";
    }
    assert !MatchesHere("23:") by {
      assert DigitRun("23:") == 2;
      assert "23:"[3..] == "";
    }
    assert !MatchesHere("3:") by {
      assert DigitRun("3:") == 1;
      assert "3:"[2..] == "";
    }
    assert Captures("123:") == Captures("23:") == Captures("3:") == Captures(":") == Captures("");
  }

  // ---------------------------------------------------------------------
  // Solving
  // ---------------------------------------------------------------------

  /** One operation of `CheckedOp` on two values of `T`. */
  function Apply(t: Integer, op: Operation, a: int, b: int): Option<int>
  {
    match op
    case Addition => CheckedAdd(t, a, b)
    case Multiplication => CheckedMul(t, a, b)
    case Concatenation => Concat(t, a, b)
  }

  /** The accumulator `val` after the zip loop: `acc` combined with each of
    * `values` in turn by the matching operation, strictly left to right, and
    * `None` for good once a step fails. */
  function Evaluate(t: Integer, acc: Option<int>, values: seq<int>, ops: seq<Operation>): Option<int>
    requires |values| == |ops|
    decreases |ops|
  {
    if ops == [] then acc
    else
      var next := if acc.None? then None else Apply(t, ops[0], acc.value, values[0]);
      Evaluate(t, next, values[1..], ops[1..])
  }

  /** What an equation's values give under one operator per gap. */
  function Value(t: Integer, eq: Equation, ops: seq<Operation>): Option<int>
    requires |eq.testValues| >= 1 && |ops| == |eq.testValues| - 1
  {
    Evaluate(t, Some(eq.testValues[0]), eq.testValues[1..], ops)
  }

  predicate AddMulOnly(ops: seq<Operation>)
  {
    forall i :: 0 <= i < |ops| ==> ops[i] != Concatenation
  }

  /** Some choice of `+` and `*` reaches the test value. */
  ghost predicate SolvableAddMul(t: Integer, eq: Equation)
    requires |eq.testValues| >= 1
  {
    exists ops: seq<Operation> :: |ops| == |eq.testValues| - 1 && AddMulOnly(ops) && Value(t, eq, ops) == Some(eq.expected)
  }

  /** Some choice of `+`, `*` and `||` reaches the test value. */
  ghost predicate SolvableAddMulConcat(t: Integer, eq: Equation)
    requires |eq.testValues| >= 1
  {
    exists ops: seq<Operation> :: |ops| == |eq.testValues| - 1 && Value(t, eq, ops) == Some(eq.expected)
  }

  /** A bit vector read as operators: a set bit adds, a clear one multiplies. */
  function AddMulOps(bits: seq<bool>): (ops: seq<Operation>)
    ensures |ops| == |bits| && AddMulOnly(ops)
  {
    seq(|bits|, i requires 0 <= i < |bits| => if bits[i] then Addition else Multiplication)
  }

  function AdditionBits(ops: seq<Operation>): (bits: seq<bool>)
    ensures |bits| == |ops|
  {
    seq(|ops|, i requires 0 <= i < |ops| => ops[i] == Addition)
  }

  lemma AddMulOpsRoundTrip(ops: seq<Operation>)
    requires AddMulOnly(ops)
    ensures AddMulOps(AdditionBits(ops)) == ops
  {
  }

  lemma {:induction false} EvaluateNone(t: Integer, values: seq<int>, ops: seq<Operation>)
    requires |values| == |ops|
    ensures Evaluate(t, None, values, ops) == None
    decreases |ops|
  {
    if ops != [] {
      EvaluateNone(t, values[1..], ops[1..]);
    }
  }

  /** The zip loop of both solvers: the first value, then each later value
    * combined into it by its operator, stopping once a step fails. */
  method EvaluateLeftToRight(t: Integer, values: seq<int>, ops: seq<Operation>) returns (val: Option<int>)
    requires |values| >= 1 && |ops| == |values| - 1
    ensures val == Evaluate(t, Some(values[0]), values[1..], ops)
  {
    val := Some(values[0]);
    var k := 0;
    while k < |ops|
      invariant 0 <= k <= |ops|
      invariant Evaluate(t, val, values[1 + k..], ops[k..]) == Evaluate(t, Some(values[0]), values[1..], ops)
    {
      if val.None? {
        EvaluateNone(t, values[1 + k..], ops[k..]);
        break;
      }
      assert values[1 + k..][1..] == values[2 + k..];
      assert ops[k..][1..] == ops[k + 1..];
      val := Apply(t, ops[k], val.value, values[1 + k]);
      k := k + 1;
    }
  }

  /** `1 << 63` still fits a `usize`. */
  lemma PowTwoUsize(n: nat)
    requires n < 64
    ensures MachineInt.Pow(2, n) - 1 <= MachineInt.USIZE_MAX
  {
    assert MachineInt.Pow(2, 4) == 16;
    MachineInt.PowAdd(2, 4, 4);
    assert MachineInt.Pow(2, 8) == 0x100;
    MachineInt.PowAdd(2, 8, 8);
    assert MachineInt.Pow(2, 16) == 0x1_0000;
    MachineInt.PowAdd(2, 16, 16);
    assert MachineInt.Pow(2, 32) == 0x1_0000_0000;
    MachineInt.PowAdd(2, 32, 32);
    assert MachineInt.Pow(2, 64) == 0x1_0000_0000_0000_0000;
    MachineInt.PowMonotone(2, n, 64);
  }

  /** `is_solvable_add_mul`: with one value, whether it is the test value;
    * otherwise whether one of the `2^(len - 1)` bit vectors, read as
    * operators, reaches it. The loop bound `1 << (len - 1)` is a `usize`
    * shift, so an equation of more than 64 values panics. */
  method IsSolvableAddMul(t: Integer, eq: Equation) returns (b: bool)
    requires 1 <= |eq.testValues| <= 64
    ensures b == SolvableAddMul(t, eq)
  {
    var len := |eq.testValues|;
    if len == 1 {
      assert Value(t, eq, []) == Some(eq.testValues[0]);
      assert forall ops: seq<Operation> | |ops| == 0 :: ops == [];
      return eq.expected == eq.testValues[0];
    }
    var gaps: nat := len - 1;
    var count := MachineInt.Pow(2, gaps);
    PowTwoUsize(gaps);
    for i := 0 to count
      invariant forall k: nat :: k < i ==> Value(t, eq, AddMulOps(Bits(k, gaps))) != Some(eq.expected)
    {
      var shouldAddBitVector := GetBitVector(i, gaps);
      var val := EvaluateLeftToRight(t, eq.testValues, AddMulOps(shouldAddBitVector.value));
      if val == Some(eq.expected) {
        return true;
      }
    }
    forall ops: seq<Operation> | |ops| == len - 1 && AddMulOnly(ops)
      ensures Value(t, eq, ops) != Some(eq.expected)
    {
      var bits := AdditionBits(ops);
      BitsOfBitsValue(bits);
      AddMulOpsRoundTrip(ops);
      assert Bits(BitsValue(bits), len - 1) == bits;
    }
    return false;
  }

  /** The panic of `is_solvable_add_mul_concat`: `3u32.pow(len - 1)`
    * leaving `u32`, and `len - 1` on no values. */
  predicate EnumerationFits(eq: Equation)
  {
    |eq.testValues| >= 1 && MachineInt.Pow(3, |eq.testValues| - 1) <= MachineInt.U32_MAX
  }

  /** `is_solvable_add_mul_concat`: the same search over the `3^(len - 1)`
    * base-3 operator vectors. `3u32.pow(len - 1)` panics once it leaves `u32`. */
  method IsSolvableAddMulConcat(t: Integer, eq: Equation) returns (b: bool)
    requires EnumerationFits(eq)
    ensures b == SolvableAddMulConcat(t, eq)
  {
    var len := |eq.testValues|;
    if len == 1 {
      assert Value(t, eq, []) == Some(eq.testValues[0]);
      assert forall ops: seq<Operation> | |ops| == 0 :: ops == [];
      return eq.expected == eq.testValues[0];
    }
    EnumerationLengthLimit(len - 1);
    var gaps: nat := len - 1;
    var count := MachineInt.Pow(3, gaps);
    for i := 0 to count
      invariant forall k: nat :: k < i ==> Value(t, eq, Trits(k, gaps)) != Some(eq.expected)
    {
      var operationVector := GetEnumerationVector(i, gaps);
      var val := EvaluateLeftToRight(t, eq.testValues, operationVector.value);
      if val == Some(eq.expected) {
        return true;
      }
    }
    forall ops: seq<Operation> | |ops| == len - 1
      ensures Value(t, eq, ops) != Some(eq.expected)
    {
      TritsOfTritsValue(ops);
      assert Trits(TritsValue(ops), len - 1) == ops;
    }
    return false;
  }

  /** The `+`/`*` choices are among the three-operator choices. */
  lemma AddMulImpliesConcat(t: Integer, eq: Equation)
    requires |eq.testValues| >= 1
    ensures SolvableAddMul(t, eq) ==> SolvableAddMulConcat(t, eq)
  {
  }

  // ---------------------------------------------------------------------
  // An independent definition of solvability
  // ---------------------------------------------------------------------

  /** A depth-first search that branches on the operator of each gap in
    * turn, dropping a branch once its accumulator overflows. */
  function Reachable(t: Integer, acc: Option<int>, rest: seq<int>, target: int, withConcat: bool): bool
    decreases |rest|
  {
    if rest == [] then acc == Some(target)
    else
      acc.Some? &&
      (Reachable(t, CheckedAdd(t, acc.value, rest[0]), rest[1..], target, withConcat) ||
       Reachable(t, CheckedMul(t, acc.value, rest[0]), rest[1..], target, withConcat) ||
       (withConcat && Reachable(t, Concat(t, acc.value, rest[0]), rest[1..], target, withConcat)))
  }

  predicate Allowed(ops: seq<Operation>, withConcat: bool)
  {
    withConcat || AddMulOnly(ops)
  }

  lemma {:induction false} ReachableSound(t: Integer, acc: Option<int>, rest: seq<int>, target: int, withConcat: bool)
    requires Reachable(t, acc, rest, target, withConcat)
    ensures exists ops: seq<Operation> :: |ops| == |rest| && Allowed(ops, withConcat) && Evaluate(t, acc, rest, ops) == Some(target)
    decreases |rest|
  {
    if rest == [] {
      assert Evaluate(t, acc, rest, []) == Some(target);
    } else {
      var op :=
        if Reachable(t, CheckedAdd(t, acc.value, rest[0]), rest[1..], target, withConcat) then Addition
        else if Reachable(t, CheckedMul(t, acc.value, rest[0]), rest[1..], target, withConcat) then Multiplication
        else Concatenation;
      var next := Apply(t, op, acc.value, rest[0]);
      ReachableSound(t, next, rest[1..], target, withConcat);
      var tail: seq<Operation> :| |tail| == |rest| - 1 && Allowed(tail, withConcat) && Evaluate(t, next, rest[1..], tail) == Some(target);
      var ops := [op] + tail;
      assert ops[1..] == tail;
      assert Evaluate(t, acc, rest, ops) == Some(target);
      assert Allowed(ops, withConcat) by {
        if !withConcat {
          assert forall i :: 1 <= i < |ops| ==> ops[i] == tail[i - 1];
        }
      }
    }
  }

  lemma {:induction false} ReachableComplete(t: Integer, acc: Option<int>, rest: seq<int>, target: int, withConcat: bool, ops: seq<Operation>)
    requires |ops| == |rest| && Allowed(ops, withConcat) && Evaluate(t, acc, rest, ops) == Some(target)
    ensures Reachable(t, acc, rest, target, withConcat)
    decreases |rest|
  {
    if rest != [] {
      EvaluateNone(t, rest[1..], ops[1..]);
      assert acc.Some?;
      assert Allowed(ops[1..], withConcat) by {
        if !withConcat {
          assert forall i :: 0 <= i < |ops[1..]| ==> ops[1..][i] == ops[i + 1];
        }
      }
      ReachableComplete(t, Apply(t, ops[0], acc.value, rest[0]), rest[1..], target, withConcat, ops[1..]);
    }
  }

  /** `is_solvable_add_mul`'s verdict is the search without concatenation. */
  lemma SolvableAddMulIsReachable(t: Integer, eq: Equation)
    requires |eq.testValues| >= 1
    ensures SolvableAddMul(t, eq) <==> Reachable(t, Some(eq.testValues[0]), eq.testValues[1..], eq.expected, false)
  {
    var acc, rest := Some(eq.testValues[0]), eq.testValues[1..];
    if SolvableAddMul(t, eq) {
      var ops: seq<Operation> :| |ops| == |eq.testValues| - 1 && AddMulOnly(ops) && Value(t, eq, ops) == Some(eq.expected);
      ReachableComplete(t, acc, rest, eq.expected, false, ops);
    }
    if Reachable(t, acc, rest, eq.expected, false) {
      ReachableSound(t, acc, rest, eq.expected, false);
      var ops: seq<Operation> :| |ops| == |rest| && Allowed(ops, false) && Evaluate(t, acc, rest, ops) == Some(eq.expected);
      assert Value(t, eq, ops) == Some(eq.expected);
    }
  }

  /** `is_solvable_add_mul_concat`'s verdict is the search with concatenation. */
  lemma SolvableAddMulConcatIsReachable(t: Integer, eq: Equation)
    requires |eq.testValues| >= 1
    ensures SolvableAddMulConcat(t, eq) <==> Reachable(t, Some(eq.testValues[0]), eq.testValues[1..], eq.expected, true)
  {
    var acc, rest := Some(eq.testValues[0]), eq.testValues[1..];
    if SolvableAddMulConcat(t, eq) {
      var ops: seq<Operation> :| |ops| == |eq.testValues| - 1 && Value(t, eq, ops) == Some(eq.expected);
      ReachableComplete(t, acc, rest, eq.expected, true, ops);
    }
    if Reachable(t, acc, rest, eq.expected, true) {
      ReachableSound(t, acc, rest, eq.expected, true);
      var ops: seq<Operation> :| |ops| == |rest| && Allowed(ops, true) && Evaluate(t, acc, rest, ops) == Some(eq.expected);
      assert Value(t, eq, ops) == Some(eq.expected);
    }
  }

  /** Either solver's verdict, by `withConcat`. */
  ghost predicate Solvable(t: Integer, eq: Equation, withConcat: bool)
    requires |eq.testValues| >= 1
  {
    if withConcat then SolvableAddMulConcat(t, eq) else SolvableAddMul(t, eq)
  }

  // ---------------------------------------------------------------------
  // The sample verdicts
  // ---------------------------------------------------------------------

  /** One operator on non-negative values, concatenation being the
    * arithmetic `a * 10^digits(b) + b`. */
  function Combine(op: Operation, a: nat, b: nat): nat
  {
    match op
    case Addition => a + b
    case Multiplication => a * b
    case Concatenation => a * MachineInt.Pow(10, Digits(b)) + b
  }

  /** The search on non-negative values from position `k` of `values` on,
    * overflow being a result above `max`. */
  function Search(max: nat, acc: nat, values: seq<nat>, k: nat, target: nat, withConcat: bool): bool
    requires k <= |values|
    decreases |values| - k
  {
    if k == |values| then acc == target
    else
      var sum, product, joined := Combine(Addition, acc, values[k]), Combine(Multiplication, acc, values[k]),
        Combine(Concatenation, acc, values[k]);
      (sum <= max && Search(max, sum, values, k + 1, target, withConcat)) ||
      (product <= max && Search(max, product, values, k + 1, target, withConcat)) ||
      (withConcat && joined <= max && Search(max, joined, values, k + 1, target, withConcat))
  }

  /** A wider type, or one more operator, only adds solutions. */
  lemma {:induction false} SearchMonotone(max: nat, wider: nat, acc: nat, values: seq<nat>, k: nat, target: nat, c: bool, more: bool)
    requires k <= |values| && max <= wider && (c ==> more)
    ensures Search(max, acc, values, k, target, c) ==> Search(wider, acc, values, k, target, more)
    decreases |values| - k
  {
    if k < |values| {
      var b := values[k];
      SearchMonotone(max, wider, Combine(Addition, acc, b), values, k + 1, target, c, more);
      SearchMonotone(max, wider, Combine(Multiplication, acc, b), values, k + 1, target, c, more);
      SearchMonotone(max, wider, Combine(Concatenation, acc, b), values, k + 1, target, c, more);
    }
  }

  lemma ApplyIsCombine(t: Integer, op: Operation, a: nat, b: nat)
    ensures Apply(t, op, a, b) == (var v := Combine(op, a, b); if v <= Max(t) then Some(v) else None)
  {
    if op == Concatenation {
      ConcatNonNegative(t, a, b);
    }
  }

  lemma {:induction false} ReachableIsSearch(t: Integer, acc: nat, values: seq<nat>, k: nat, target: nat, withConcat: bool)
    requires k <= |values|
    ensures Reachable(t, Some(acc), values[k..], target, withConcat) == Search(Max(t), acc, values, k, target, withConcat)
    decreases |values| - k
  {
    if k < |values| {
      var b := values[k];
      assert values[k..][0] == b && values[k..][1..] == values[k + 1..];
      ApplyIsCombine(t, Addition, acc, b);
      ApplyIsCombine(t, Multiplication, acc, b);
      ApplyIsCombine(t, Concatenation, acc, b);
      ReachableIsSearch(t, Combine(Addition, acc, b), values, k + 1, target, withConcat);
      ReachableIsSearch(t, Combine(Multiplication, acc, b), values, k + 1, target, withConcat);
      ReachableIsSearch(t, Combine(Concatenation, acc, b), values, k + 1, target, withConcat);
      assert !Reachable(t, None, values[k + 1..], target, withConcat);
    }
  }

  /** Either verdict on non-negative values is the arithmetic search. */
  lemma VerdictIsSearch(t: Integer, eq: Equation, withConcat: bool, values: seq<nat>, expected: nat)
    requires eq == Equation(expected, values) && |values| >= 1
    ensures Solvable(t, eq, withConcat) == Search(Max(t), values[0], values, 1, expected, withConcat)
  {
    SolvableAddMulIsReachable(t, eq);
    SolvableAddMulConcatIsReachable(t, eq);
    ReachableIsSearch(t, values[0], values, 1, expected, withConcat);
  }

  /** The nine equations of the puzzle's sample. */
  const Sample: seq<Equation> := [
    Equation(190, [10, 19]),
    Equation(3267, [81, 40, 27]),
    Equation(83, [17, 5]),
    Equation(156, [15, 6]),
    Equation(7290, [6, 8, 6, 15]),
    Equation(161011, [16, 10, 13]),
    Equation(192, [17, 8, 14]),
    Equation(21037, [9, 7, 18, 13]),
    Equation(292, [11, 6, 16, 20])
  ]

  /** Which sample lines a solver accepts. */
  ghost function SampleVerdicts(t: Integer, withConcat: bool): seq<bool>
  {
    [Solvable(t, Sample[0], withConcat), Solvable(t, Sample[1], withConcat), Solvable(t, Sample[2], withConcat),
     Solvable(t, Sample[3], withConcat), Solvable(t, Sample[4], withConcat), Solvable(t, Sample[5], withConcat),
     Solvable(t, Sample[6], withConcat), Solvable(t, Sample[7], withConcat), Solvable(t, Sample[8], withConcat)]
  }

  /** The 64-bit and the 128-bit types, the only ones the sample is
    * solved in. */
  predicate Wide(t: Integer)
  {
    t == Usize || t == U64 || t == U128
  }

  /** A line solved in 64 bits, without concatenation when `c` is false,
    * is solved in every wide type with every operator set beside it. */
  lemma Accepted(t: Integer, eq: Equation, values: seq<nat>, c: bool, more: bool)
    requires Wide(t) && eq == Equation(eq.expected, values) && |values| >= 1 && eq.expected >= 0 && (c ==> more)
    requires Search(0xffff_ffff_ffff_ffff, values[0], values, 1, eq.expected, c)
    ensures Solvable(t, eq, more)
  {
    VerdictIsSearch(t, eq, more, values, eq.expected);
    SearchMonotone(0xffff_ffff_ffff_ffff, Max(t), values[0], values, 1, eq.expected, c, more);
  }

  /** A line the 128-bit search rejects, with `c` deciding whether
    * concatenation is tried, is rejected in every wide type with every
    * smaller operator set. */
  lemma Rejected(t: Integer, eq: Equation, values: seq<nat>, c: bool, fewer: bool)
    requires Wide(t) && eq == Equation(eq.expected, values) && |values| >= 1 && eq.expected >= 0 && (fewer ==> c)
    requires !Search(0xffff_ffff_ffff_ffff_ffff_ffff_ffff_ffff, values[0], values, 1, eq.expected, c)
    ensures !Solvable(t, eq, fewer)
  {
    VerdictIsSearch(t, eq, fewer, values, eq.expected);
    SearchMonotone(Max(t), 0xffff_ffff_ffff_ffff_ffff_ffff_ffff_ffff, values[0], values, 1, eq.expected, fewer, c);
  }

  lemma SampleLine0(t: Integer, c: bool)
    requires Wide(t)
    ensures Solvable(t, Sample[0], c)
  {
    assert Search(0xffff_ffff_ffff_ffff, 10, [10, 19], 1, 190, false);
    Accepted(t, Sample[0], [10, 19], false, c);
  }

  lemma SampleLine1(t: Integer, c: bool)
    requires Wide(t)
    ensures Solvable(t, Sample[1], c)
  {
    assert Search(0xffff_ffff_ffff_ffff, 81, [81, 40, 27], 1, 3267, false);
    Accepted(t, Sample[1], [81, 40, 27], false, c);
  }

  lemma SampleLine2(t: Integer, c: bool)
    requires Wide(t)
    ensures !Solvable(t, Sample[2], c)
  {
    assert !Search(0xffff_ffff_ffff_ffff_ffff_ffff_ffff_ffff, 17, [17, 5], 1, 83, true);
    Rejected(t, Sample[2], [17, 5], true, c);
  }

  lemma SampleLine3(t: Integer, c: bool)
    requires Wide(t)
    ensures Solvable(t, Sample[3], c) == c
  {
    if c {
      assert Search(0xffff_ffff_ffff_ffff, 15, [15, 6], 1, 156, true);
      Accepted(t, Sample[3], [15, 6], true, true);
    } else {
      assert !Search(0xffff_ffff_ffff_ffff_ffff_ffff_ffff_ffff, 15, [15, 6], 1, 156, false);
      Rejected(t, Sample[3], [15, 6], false, false);
    }
  }

  lemma SampleLine4(t: Integer, c: bool)
    requires Wide(t)
    ensures Solvable(t, Sample[4], c) == c
  {
    if c {
      assert Search(0xffff_ffff_ffff_ffff, 6, [6, 8, 6, 15], 1, 7290, true);
      Accepted(t, Sample[4], [6, 8, 6, 15], true, true);
    } else {
      assert !Search(0xffff_ffff_ffff_ffff_ffff_ffff_ffff_ffff, 6, [6, 8, 6, 15], 1, 7290, false);
      Rejected(t, Sample[4], [6, 8, 6, 15], false, false);
    }
  }

  lemma SampleLine5(t: Integer, c: bool)
    requires Wide(t)
    ensures !Solvable(t, Sample[5], c)
  {
    assert !Search(0xffff_ffff_ffff_ffff_ffff_ffff_ffff_ffff, 16, [16, 10, 13], 1, 161011, true);
    Rejected(t, Sample[5], [16, 10, 13], true, c);
  }

  lemma SampleLine6(t: Integer, c: bool)
    requires Wide(t)
    ensures Solvable(t, Sample[6], c) == c
  {
    if c {
      assert Search(0xffff_ffff_ffff_ffff, 17, [17, 8, 14], 1, 192, true);
      Accepted(t, Sample[6], [17, 8, 14], true, true);
    } else {
      assert !Search(0xffff_ffff_ffff_ffff_ffff_ffff_ffff_ffff, 17, [17, 8, 14], 1, 192, false);
      Rejected(t, Sample[6], [17, 8, 14], false, false);
    }
  }

  // The three accumulators after the first gap of line 7 miss.
  lemma SampleLine7AfterSum()
    ensures !Search(0xffff_ffff_ffff_ffff_ffff_ffff_ffff_ffff, 16, [9, 7, 18, 13], 2, 21037, true)
  {
  }

  lemma SampleLine7AfterProduct()
    ensures !Search(0xffff_ffff_ffff_ffff_ffff_ffff_ffff_ffff, 63, [9, 7, 18, 13], 2, 21037, true)
  {
  }

  lemma SampleLine7AfterJoined()
    ensures !Search(0xffff_ffff_ffff_ffff_ffff_ffff_ffff_ffff, 97, [9, 7, 18, 13], 2, 21037, true)
  {
  }

  lemma SampleLine7(t: Integer, c: bool)
    requires Wide(t)
    ensures !Solvable(t, Sample[7], c)
  {
    SampleLine7AfterSum();
    SampleLine7AfterProduct();
    SampleLine7AfterJoined();
    assert !Search(0xffff_ffff_ffff_ffff_ffff_ffff_ffff_ffff, 9, [9, 7, 18, 13], 1, 21037, true);
    Rejected(t, Sample[7], [9, 7, 18, 13], true, c);
  }

  lemma SampleLine8(t: Integer, c: bool)
    requires Wide(t)
    ensures Solvable(t, Sample[8], c)
  {
    assert Search(0xffff_ffff_ffff_ffff, 11, [11, 6, 16, 20], 1, 292, false);
    Accepted(t, Sample[8], [11, 6, 16, 20], false, c);
  }

  lemma SampleLines(t: Integer, c: bool)
    requires Wide(t)
    ensures SampleVerdicts(t, c) == [true, true, false, c, c, false, c, false, true]
  {
    SampleLine0(t, c);
    SampleLine1(t, c);
    SampleLine2(t, c);
    SampleLine3(t, c);
    SampleLine4(t, c);
    SampleLine5(t, c);
    SampleLine6(t, c);
    SampleLine7(t, c);
    SampleLine8(t, c);
  }

  /** Three sample lines are solvable with `+` and `*`, six once `||` is
    * allowed, in every 64- and 128-bit type. */
  lemma SampleVerdictCounts(t: Integer)
    requires Wide(t)
    ensures SampleVerdicts(t, false) == [true, true, false, false, false, false, false, false, true]
    ensures SampleVerdicts(t, true) == [true, true, false, true, true, false, true, false, true]
  {
    SampleLines(t, false);
    SampleLines(t, true);
  }
}
