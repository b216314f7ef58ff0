/**
 * 2024 day 3 (`year_2024/day03.rs`): corrupted memory holds instructions
 * `mul(X,Y)` with one to three digits per operand. The plain version adds
 * up the products of every well-formed instruction; the conditional one
 * skips the text from each `don't()` up to the next `do()`.
 */
module Year2024Day03 {
  import opened Wrappers
  import MachineInt
  import opened RustText

  const U32_MAX: nat := MachineInt.U32_MAX
  const DO_STR: string := "do()"
  const DONT_STR: string := "don't()"

  // The regular expression `mul\((?P<X>\d{1,3}),(?P<Y>\d{1,3})\)`

  /** An operand the expression accepts: one to three digits. */
  predicate Operand(x: string)
  {
    1 <= |x| <= 3 && AllDigits(x)
  }

  /** What the expression captures: the groups `X` and `Y`. */
  datatype Capture = Capture(x: string, y: string)

  /** Both groups are operands. */
  predicate Valid(c: Capture)
  {
    Operand(c.x) && Operand(c.y)
  }

  /** The instruction text of a capture. */
  function Spelling(c: Capture): string
  {
    "mul(" + c.x + "," + c.y + ")"
  }

  /** The match of the expression at the start of `t`, with its length. The
    * digit repetitions are followed by a character that is not a digit, so
    * a match takes the whole run of digits or does not exist. */
  function Token(t: string): (r: Option<(Capture, nat)>)
    ensures r.Some? ==> |t| >= 4 && t[..4] == "mul("
    ensures r.Some? ==> var (c, n) := r.value;
      Valid(c) && n == |Spelling(c)| && n <= |t| && t[..n] == Spelling(c)
  {
    if |t| < 4 || t[..4] != "mul(" then None
    else
      var u := t[4..];
      var k := DigitRun(u);
      if k < 1 || k > 3 || k == |u| || u[k] != ',' then None
      else
        var v := u[k + 1..];
        var l := DigitRun(v);
        if l < 1 || l > 3 || l == |v| || v[l] != ')' then None
        else
          var c := Capture(u[..k], v[..l]);
          assert t[..6 + k + l] == Spelling(c) by {
            assert t[..6 + k + l] == t[..4] + u[..k] + [u[k]] + v[..l] + [v[l]];
          }
          Some((c, 6 + k + l))
  }

  /** Every well-formed instruction at the start of the text is matched,
    * whatever follows it: with the contract of `Token`, the match exists
    * exactly when the text starts with an instruction. */
  lemma TokenComplete(c: Capture, rest: string)
    requires Valid(c)
    ensures Token(Spelling(c) + rest) == Some((c, |Spelling(c)|))
  {
    var t := Spelling(c) + rest;
    assert t[..4] == "mul(";
    var u := t[4..];
    assert u == c.x + ("," + c.y + ")" + rest);
    DigitRunOf(c.x, "," + c.y + ")" + rest);
    assert u[|c.x|] == ',' && u[..|c.x|] == c.x;
    var v := u[|c.x| + 1..];
    assert v == c.y + (")" + rest);
    DigitRunOf(c.y, ")" + rest);
    assert v[|c.y|] == ')' && v[..|c.y|] == c.y;
  }

  /** `captures_iter`: the leftmost match, then the search goes on after
    * its end, so matches never overlap. */
  function Captures(s: string): (cs: seq<Capture>)
    ensures forall i :: 0 <= i < |cs| ==> Valid(cs[i])
    decreases |s|
  {
    if s == "" then []
    else
      match Token(s)
      case Some((c, n)) => [c] + Captures(s[n..])
      case None => Captures(s[1..])
  }

  // The products and their sum

  function ParseU32(s: string): Result<nat, IntErrorKind>
  {
    ParseUnsigned(s, U32_MAX)
  }

  function CheckedMul(a: nat, b: nat): Option<nat>
  {
    if a * b <= U32_MAX then Some(a * b) else None
  }

  function CheckedAdd(a: nat, b: nat): Option<nat>
  {
    if a + b <= U32_MAX then Some(a + b) else None
  }

  /** The `map` step: parse both groups as `u32` and multiply them. */
  function Op(c: Capture): Option<nat>
  {
    match ParseU32(c.x)
    case Err(_) => None
    case Ok(x) =>
      match ParseU32(c.y)
      case Err(_) => None
      case Ok(y) => CheckedMul(x, y)
  }

  /** The `fold` step: a missing value leaves the other as it is; two values
    * add up, or give none on overflow. */
  function Accumulate(acc: Option<nat>, op: Option<nat>): Option<nat>
  {
    match (acc, op)
    case (Some(v), Some(u)) => CheckedAdd(v, u)
    case (None, Some(v)) => Some(v)
    case (Some(v), None) => Some(v)
    case (None, None) => None
  }

  function FoldOps(acc: Option<nat>, ops: seq<Option<nat>>): Option<nat>
    decreases |ops|
  {
    if ops == [] then acc else FoldOps(Accumulate(acc, ops[0]), ops[1..])
  }

  function Ops(cs: seq<Capture>): (ops: seq<Option<nat>>)
    ensures |ops| == |cs| && forall i :: 0 <= i < |cs| ==> ops[i] == Op(cs[i])
  {
    if cs == [] then [] else [Op(cs[0])] + Ops(cs[1..])
  }

  /** `parse_and_execute_multiplication`. */
  function ParseAndExecuteMultiplication(instructions: string): Option<nat>
  {
    FoldOps(None, Ops(Captures(instructions)))
  }

  /** An operand of at most three digits is below 1000. */
  lemma {:induction false} OperandBound(x: string)
    requires AllDigits(x) && |x| <= 3
    ensures DecimalValue(x) < MachineInt.Pow(10, |x|) <= 1000
  {
    if x != "" {
      OperandBound(x[..|x| - 1]);
    }
    MachineInt.PowMonotone(10, |x|, 3);
  }

  /** Every captured instruction yields its product: the operands parse and
    * their product fits `u32`. */
  lemma OpIsProduct(c: Capture)
    requires Valid(c)
    ensures Op(c) == Some(Product(c))
  {
    OperandBound(c.x);
    OperandBound(c.y);
    ParseUnsignedDigits(c.x, U32_MAX);
    ParseUnsignedDigits(c.y, U32_MAX);
    ProductBound(DecimalValue(c.x), DecimalValue(c.y));
  }

  lemma ProductBound(a: nat, b: nat)
    requires a < 1000 && b < 1000
    ensures a * b < 1000000
  {
    assert a * b <= a * 1000 <= 1000 * 1000;
  }

  /** The product an instruction stands for. */
  function Product(c: Capture): nat
  {
    if Valid(c) then DecimalValue(c.x) * DecimalValue(c.y) else 0
  }

  /** The sum of the products. */
  function Total(cs: seq<Capture>): nat
  {
    if cs == [] then 0 else Product(cs[0]) + Total(cs[1..])
  }

  /** Folding splits at any point. */
  lemma {:induction false} FoldOpsAppend(acc: Option<nat>, a: seq<Option<nat>>, b: seq<Option<nat>>)
    ensures FoldOps(acc, a + b) == FoldOps(FoldOps(acc, a), b)
    decreases |a|
  {
    if a != [] {
      assert (a + b)[0] == a[0] && (a + b)[1..] == a[1..] + b;
      FoldOpsAppend(Accumulate(acc, a[0]), a[1..], b);
    } else {
      assert a + b == b;
    }
  }

  /** An overflow makes the accumulator none, so what follows is summed
    * afresh. */
  lemma OverflowRestarts(acc: Option<nat>, a: seq<Option<nat>>, b: seq<Option<nat>>)
    requires FoldOps(acc, a) == None
    ensures FoldOps(acc, a + b) == FoldOps(None, b)
  {
    FoldOpsAppend(acc, a, b);
  }

  /** Without an overflow the fold adds the products to the value it
    * starts from. */
  lemma {:induction false} FoldOpsSum(v: nat, cs: seq<Capture>)
    requires forall i :: 0 <= i < |cs| ==> Valid(cs[i])
    requires v + Total(cs) <= U32_MAX
    ensures FoldOps(Some(v), Ops(cs)) == Some(v + Total(cs))
    decreases |cs|
  {
    if cs != [] {
      OpIsProduct(cs[0]);
      assert Ops(cs)[1..] == Ops(cs[1..]);
      FoldOpsSum(v + Product(cs[0]), cs[1..]);
    }
  }

  /** Folding from none adds up the products, when they fit. */
  lemma {:induction false} FoldOpsTotal(cs: seq<Capture>)
    requires cs != [] && forall i :: 0 <= i < |cs| ==> Valid(cs[i])
    requires Total(cs) <= U32_MAX
    ensures FoldOps(None, Ops(cs)) == Some(Total(cs))
  {
    OpIsProduct(cs[0]);
    var ops := Ops(cs);
    assert ops[0] == Some(Product(cs[0])) && ops[1..] == Ops(cs[1..]);
    FoldOpsSum(Product(cs[0]), cs[1..]);
  }

  /** The result is none when the text holds no instruction, and the sum of
    * the products when there is one and the sum fits `u32`. */
  lemma {:induction false} ParseAndExecuteMeaning(instructions: string)
    ensures Captures(instructions) == [] ==> ParseAndExecuteMultiplication(instructions) == None
    ensures Captures(instructions) != [] && Total(Captures(instructions)) <= U32_MAX ==>
      ParseAndExecuteMultiplication(instructions) == Some(Total(Captures(instructions)))
  {
    var cs := Captures(instructions);
    if cs == [] {
      assert Ops(cs) == [];
    } else if Total(cs) <= U32_MAX {
      FoldOpsTotal(cs);
    }
  }

  // Scanning lemmas

  /** Text without an `m` holds no instruction. */
  lemma {:induction false} CapturesWithoutM(a: string, b: string)
    requires 'm' !in a
    ensures Captures(a + b) == Captures(b)
  {
    if a != "" {
      NoTokenWithoutM(a + b);
      assert (a + b)[1..] == a[1..] + b;
      CapturesWithoutM(a[1..], b);
    } else {
      assert a + b == b;
    }
  }

  lemma NoTokenWithoutM(t: string)
    requires t != "" && t[0] != 'm'
    ensures Token(t) == None
  {
    if |t| >= 4 {
      assert t[..4][0] == t[0];
    }
  }

  /** An instruction is captured, and the search goes on after it. */
  lemma CapturesInstruction(c: Capture, b: string)
    requires Valid(c)
    ensures Captures(Spelling(c) + b) == [c] + Captures(b)
  {
    TokenComplete(c, b);
    assert (Spelling(c) + b)[|Spelling(c)|..] == b;
  }

  /** Text that does not match at its start is searched from its next
    * character. */
  lemma CapturesSkip(t: string)
    requires t != "" && Token(t) == None
    ensures Captures(t) == Captures(t[1..])
  {
  }

  /** `mul` followed by anything but `(` does not match. */
  lemma NoOpenParenthesis(ch: char, rest: string)
    requires ch != '('
    ensures Token("mul" + [ch] + rest) == None
  {
    assert ("mul" + [ch] + rest)[3] == ch;
  }

  /** The first operand must be followed by a comma. */
  lemma NoComma(x: string, ch: char, rest: string)
    requires AllDigits(x) && !IsDigit(ch) && ch != ','
    ensures Token("mul(" + x + [ch] + rest) == None
  {
    var t := "mul(" + x + [ch] + rest;
    assert t[..4] == "mul(" && t[4..] == x + ([ch] + rest);
    DigitRunOf(x, [ch] + rest);
    assert t[4..][|x|] == ch;
  }

  /** The second operand must be followed by a closing parenthesis. */
  lemma NoCloseParenthesis(x: string, y: string, ch: char, rest: string)
    requires Operand(x) && AllDigits(y) && !IsDigit(ch) && ch != ')'
    ensures Token("mul(" + x + "," + y + [ch] + rest) == None
  {
    var t := "mul(" + x + "," + y + [ch] + rest;
    assert t[..4] == "mul(";
    var u := t[4..];
    assert u == x + ("," + y + [ch] + rest);
    DigitRunOf(x, "," + y + [ch] + rest);
    assert u[|x|] == ',';
    var v := u[|x| + 1..];
    assert v == y + ([ch] + rest);
    DigitRunOf(y, [ch] + rest);
    assert v[|y|] == ch;
  }

  // The conditional version

  /** The text after a `don't()`: nothing if no `do()` follows, otherwise
    * the enabled pieces after that `do()`. */
  function AfterDont(t: string): seq<string>
    decreases |t|, 0
  {
    match Find(t, DO_STR)
    case None => []
    case Some(x) => Segments(t[x + |DO_STR|..])
  }

  /** The enabled pieces of `t`, which starts enabled: everything up to and
    * including the first `don't()`, then the pieces after the next `do()`. */
  function Segments(t: string): seq<string>
    decreases |t|, 1
  {
    if t == "" then []
    else
      match Find(t, DONT_STR)
      case None => [t]
      case Some(x) => [t[..x + |DONT_STR|]] + AfterDont(t[x + |DONT_STR|..])
  }

  function Results(segments: seq<string>): (rs: seq<Option<nat>>)
    ensures |rs| == |segments| && forall i :: 0 <= i < |segments| ==> rs[i] == ParseAndExecuteMultiplication(segments[i])
  {
    seq(|segments|, i requires 0 <= i < |segments| => ParseAndExecuteMultiplication(segments[i]))
  }

  /** What `parse_and_execute_multiplication_with_conditionals` returns: the
    * results of the enabled pieces, folded like the products. */
  function Conditional(instructions: string): Option<nat>
  {
    FoldOps(None, Results(Segments(instructions)))
  }

  /** Where the enabled stretch from the start of `t` ends: after the
    * first `don't()`, or at the end of the text. */
  function EnabledEnd(t: string): (e: nat)
    ensures e <= |t|
  {
    match Find(t, DONT_STR)
    case None => |t|
    case Some(x) => x + |DONT_STR|
  }

  /** Where the disabled stretch from the start of `t` ends: after the
    * first `do()`, or at the end of the text. */
  function DisabledEnd(t: string): (e: nat)
    ensures e <= |t|
  {
    match Find(t, DO_STR)
    case None => |t|
    case Some(x) => x + |DO_STR|
  }

  /** One enabled stretch of the loop, from `start` to `end`. */
  lemma EnabledStep(s: string, start: nat, end: nat)
    requires start < |s| && end == start + EnabledEnd(s[start..])
    ensures Segments(s[start..]) == [s[start..end]] + AfterDont(s[end..])
  {
    var t := s[start..];
    var e := EnabledEnd(t);
    assert t[..e] == s[start..end] && t[e..] == s[end..];
    if Find(t, DONT_STR).None? {
      assert s[end..] == "" && t[..e] == t;
      assert AfterDont("") == [];
    }
  }

  /** One disabled stretch of the loop, from `end` to `start`. */
  lemma DisabledStep(s: string, end: nat, start: nat)
    requires end <= |s| && start == end + DisabledEnd(s[end..])
    ensures AfterDont(s[end..]) == Segments(s[start..])
  {
    var t := s[end..];
    assert t[DisabledEnd(t)..] == s[start..];
    if Find(t, DO_STR).None? {
      assert s[start..] == "";
    }
  }

  /** Folding the results of a stretch and those after it. */
  lemma FoldResultsCons(acc: Option<nat>, seg: string, rest: seq<string>)
    ensures FoldOps(acc, Results([seg] + rest)) == FoldOps(Accumulate(acc, ParseAndExecuteMultiplication(seg)), Results(rest))
  {
    assert Results([seg] + rest)[1..] == Results(rest);
  }

  /** `parse_and_execute_multiplication_with_conditionals`: alternate
    * between an enabled stretch, which ends after the next `don't()`, and a
    * disabled one, which ends after the next `do()`. */
  method ParseAndExecuteMultiplicationWithConditionals(instructions: string) returns (result: Option<nat>)
    ensures result == Conditional(instructions)
  {
    var enabled := true;
    var startIndex: nat := 0;
    var endIndex: nat := |instructions|;
    var coveredIndex: nat := 0;
    result := None;
    assert instructions[0..] == instructions;
    while coveredIndex < |instructions|
      invariant startIndex <= |instructions| && endIndex <= |instructions|
      invariant enabled ==> (endIndex == |instructions| && coveredIndex == startIndex &&
        FoldOps(result, Results(Segments(instructions[startIndex..]))) == Conditional(instructions))
      invariant !enabled ==> (coveredIndex == endIndex &&
        FoldOps(result, Results(AfterDont(instructions[endIndex..]))) == Conditional(instructions))
      decreases |instructions| - coveredIndex
    {
      if enabled {
        var found := Find(instructions[startIndex..], DONT_STR);
        if found.Some? {
          endIndex := found.value + |DONT_STR| + startIndex;
        }
        EnabledStep(instructions, startIndex, endIndex);
        FoldResultsCons(result, instructions[startIndex..endIndex], AfterDont(instructions[endIndex..]));
        result := Accumulate(result, ParseAndExecuteMultiplication(instructions[startIndex..endIndex]));
        coveredIndex := endIndex;
      } else {
        var found := Find(instructions[endIndex..], DO_STR);
        if found.Some? {
          startIndex := found.value + |DO_STR| + endIndex;
        } else {
          startIndex := |instructions|;
        }
        DisabledStep(instructions, endIndex, startIndex);
        endIndex := |instructions|;
        coveredIndex := startIndex;
      }
      enabled := !enabled;
    }
    if enabled {
      assert instructions[startIndex..] == "";
    } else {
      assert instructions[endIndex..] == "";
    }
  }

  /** Without a `don't()` the conditions change nothing. */
  lemma WithoutDont(instructions: string)
    requires Find(instructions, DONT_STR) == None
    ensures Conditional(instructions) == ParseAndExecuteMultiplication(instructions)
  {
    if instructions == "" {
      assert Captures(instructions) == [];
    } else {
      assert Segments(instructions) == [instructions] + [];
      FoldResultsCons(None, instructions, []);
      assert Results([]) == [];
    }
  }

  /** The text from a `don't()` up to the next `do()` is left out: the
    * enabled piece ends with the `don't()`, and those after it are those of
    * the text after the `do()`. */
  lemma DisabledTextExcluded(a: string, b: string, c: string)
    requires 'd' !in a && 'd' !in b
    ensures Segments(a + DONT_STR + b + DO_STR + c) == [a + DONT_STR] + Segments(c)
  {
    var t := a + DONT_STR + b + DO_STR + c;
    FindOnce(a, DONT_STR, b + DO_STR + c);
    assert t == a + DONT_STR + (b + DO_STR + c);
    var u := t[|a| + |DONT_STR|..];
    assert t[..|a| + |DONT_STR|] == a + DONT_STR;
    assert u == b + DO_STR + c;
    FindOnce(b, DO_STR, c);
    assert u[|b| + |DO_STR|..] == c;
  }

  /** After a `don't()` that no `do()` follows, nothing is enabled. */
  lemma TrailingDisabledExcluded(a: string, b: string)
    requires 'd' !in a && 'd' !in b
    ensures Segments(a + DONT_STR + b) == [a + DONT_STR]
  {
    var t := a + DONT_STR + b;
    FindOnce(a, DONT_STR, b);
    assert t[..|a| + |DONT_STR|] == a + DONT_STR;
    assert t[|a| + |DONT_STR|..] == b;
    FindNone(b, DO_STR);
  }

  /** The first occurrence of a pattern after text without its first
    * character. */
  lemma FindOnce(a: string, pat: string, b: string)
    requires |pat| > 0 && pat[0] !in a
    ensures Find(a + pat + b, pat) == Some(|a|)
  {
    var s := a + pat + b;
    FindIsFirst(s, pat);
    assert s[|a|..|a| + |pat|] == pat;
    assert OccursAt(s, pat, |a|);
    forall j | 0 <= j < |a|
      ensures !OccursAt(s, pat, j)
    {
      assert s[j] == a[j];
    }
  }

  // The examples

  /** Text whose start does not match and whose rest holds no `m` holds no
    * instruction. */
  lemma CapturesSpoilt(t: string, b: string)
    requires t != "" && Token(t + b) == None && 'm' !in t[1..]
    ensures Captures(t + b) == Captures(b)
  {
    CapturesSkip(t + b);
    DropFirst(t, b);
    CapturesWithoutM(t[1..], b);
  }

  lemma DropFirst(t: string, b: string)
    requires t != ""
    ensures (t + b)[1..] == t[1..] + b
  {
  }

  /** `mul` followed by anything but `(`, then text without an `m`, holds
    * no instruction. */
  lemma CapturesBadOpen(t: string, b: string)
    requires |t| >= 4 && t[..3] == "mul" && t[3] != '(' && 'm' !in t[1..]
    ensures Captures(t + b) == Captures(b)
  {
    assert t + b == "mul" + [t[3]] + (t[4..] + b);
    NoOpenParenthesis(t[3], t[4..] + b);
    CapturesSpoilt(t, b);
  }

  /** A second operand followed by anything but `)` spoils the
    * instruction. */
  lemma CapturesBadClose(x: string, y: string, ch: char, a: string, b: string)
    requires Operand(x) && AllDigits(y) && !IsDigit(ch) && ch != ')' && ch != 'm' && 'm' !in a
    ensures Captures("mul(" + x + "," + y + [ch] + a + b) == Captures(b)
  {
    var t := "mul(" + x + "," + y + [ch] + a;
    NoCloseParenthesis(x, y, ch, a + b);
    assert t + b == "mul(" + x + "," + y + [ch] + (a + b);
    forall i | 0 <= i < |t| - 1
      ensures t[1..][i] != 'm'
    {
      if 3 <= i < 3 + |x| {
        assert t[1..][i] == x[i - 3] && IsDigit(x[i - 3]);
      } else if 4 + |x| <= i < 4 + |x| + |y| {
        assert t[1..][i] == y[i - 4 - |x|] && IsDigit(y[i - 4 - |x|]);
      }
    }
    CapturesSpoilt(t, b);
  }

  lemma TotalCons(c: Capture, cs: seq<Capture>)
    ensures Total([c] + cs) == Product(c) + Total(cs)
  {
    assert ([c] + cs)[1..] == cs;
  }

  /** A text that is one instruction gives its product. */
  lemma SingleInstruction(c: Capture)
    requires Valid(c) && Product(c) <= U32_MAX
    ensures ParseAndExecuteMultiplication(Spelling(c)) == Some(Product(c))
  {
    CapturesInstruction(c, "");
    assert Spelling(c) + "" == Spelling(c);
    TotalCons(c, []);
    ParseAndExecuteMeaning(Spelling(c));
  }

  /** The valid examples: 44 * 46 and 123 * 4. */
  lemma ValidExample1(valid: string)
    requires valid == "mul(44,46)"
    ensures ParseAndExecuteMultiplication(valid) == Some(2024)
  {
    var c := Capture(Decimal(44), Decimal(46));
    assert Decimal(44) == "44" && Decimal(46) == "46";
    assert Spelling(c) == valid;
    DecimalValueOfDecimal(44);
    DecimalValueOfDecimal(46);
    SingleInstruction(c);
  }

  lemma ValidExample2(valid: string)
    requires valid == "mul(123,4)"
    ensures ParseAndExecuteMultiplication(valid) == Some(492)
  {
    var c := Capture(Decimal(123), Decimal(4));
    assert Decimal(123) == "123" && Decimal(4) == "4";
    assert Spelling(c) == valid;
    DecimalValueOfDecimal(123);
    DecimalValueOfDecimal(4);
    SingleInstruction(c);
  }

  /** Text whose start does not match and whose rest holds no `m` holds no
    * instruction at all. */
  lemma NoCaptures(t: string)
    requires t != "" && Token(t) == None && 'm' !in t[1..]
    ensures Captures(t) == []
  {
    assert t + "" == t;
    CapturesSpoilt(t, "");
  }

  /** The invalid examples hold no instruction: a `*` where the comma
    * belongs, a `!` where the parenthesis belongs, no `mul`, and spaces. */
  lemma InvalidComma(invalid: string)
    requires invalid == "mul(4*"
    ensures ParseAndExecuteMultiplication(invalid) == None
  {
    assert invalid[..4] == "mul(" && invalid[4..] == "4*";
    NoCaptures(invalid);
    ParseAndExecuteMeaning(invalid);
  }

  lemma InvalidParenthesis(invalid: string)
    requires invalid == "mul(6,9!"
    ensures ParseAndExecuteMultiplication(invalid) == None
  {
    assert invalid[..4] == "mul(" && invalid[4..] == "6,9!" && invalid[4..][2..] == "9!";
    NoCaptures(invalid);
    ParseAndExecuteMeaning(invalid);
  }

  lemma InvalidName(invalid: string)
    requires invalid == "?(12,34)"
    ensures ParseAndExecuteMultiplication(invalid) == None
  {
    assert invalid + "" == invalid;
    CapturesWithoutM(invalid, "");
    ParseAndExecuteMeaning(invalid);
  }

  lemma InvalidSpaces(invalid: string)
    requires invalid == "mul ( 2 , 4 )"
    ensures ParseAndExecuteMultiplication(invalid) == None
  {
    assert invalid[3] == ' ';
    NoCaptures(invalid);
    ParseAndExecuteMeaning(invalid);
  }

  /** The pieces of the longer example that do not match. */
  lemma SquareBracket(b: string)
    ensures Captures("mul[3,7]!@^do_not_" + b) == Captures(b)
  {
    BracketFacts("mul[3,7]!@^do_not_");
    CapturesBadOpen("mul[3,7]!@^do_not_", b);
  }

  lemma BadClose(b: string)
    ensures Captures("mul(32,64]then(" + b) == Captures(b)
  {
    assert "mul(32,64]then(" == "mul(" + "32" + "," + "64" + [']'] + "then(";
    CapturesBadClose("32", "64", ']', "then(", b);
  }

  /** The products of the instructions of the examples. */
  lemma ExampleProducts()
    ensures Product(Capture("2", "4")) == 8 && Product(Capture("5", "5")) == 25
    ensures Product(Capture("11", "8")) == 88 && Product(Capture("8", "5")) == 40
  {
    assert Decimal(2) == "2" && Decimal(4) == "4" && Decimal(5) == "5";
    assert Decimal(11) == "11" && Decimal(8) == "8";
    DecimalValueOfDecimal(2);
    DecimalValueOfDecimal(4);
    DecimalValueOfDecimal(5);
    DecimalValueOfDecimal(11);
    DecimalValueOfDecimal(8);
  }

  /** The pieces of the longer example, each with one instruction. */
  lemma LongerPiece1(b: string)
    ensures Captures("x" + ("mul(2,4)" + ("%&" + b))) == [Capture("2", "4")] + Captures(b)
  {
    var c := Capture("2", "4");
    assert "mul(2,4)" == Spelling(c);
    CapturesWithoutM("x", "mul(2,4)" + ("%&" + b));
    CapturesInstruction(c, "%&" + b);
    CapturesWithoutM("%&", b);
  }

  lemma LongerPiece2(b: string)
    ensures Captures("mul[3,7]!@^do_not_" + ("mul(5,5)" + ("+" + b))) == [Capture("5", "5")] + Captures(b)
  {
    var c := Capture("5", "5");
    assert "mul(5,5)" == Spelling(c);
    SquareBracket("mul(5,5)" + ("+" + b));
    CapturesInstruction(c, "+" + b);
    CapturesWithoutM("+", b);
  }

  lemma LongerPiece3(b: string)
    ensures Captures("mul(32,64]then(" + ("mul(11,8)" + b)) == [Capture("11", "8")] + Captures(b)
  {
    var c := Capture("11", "8");
    assert "mul(11,8)" == Spelling(c);
    BadClose("mul(11,8)" + b);
    CapturesInstruction(c, b);
  }

  lemma LongerPiece4()
    ensures Captures("mul(8,5)" + ")") == [Capture("8", "5")]
  {
    var c := Capture("8", "5");
    assert "mul(8,5)" == Spelling(c);
    CapturesInstruction(c, ")");
    assert ")" + "" == ")";
    CapturesWithoutM(")", "");
  }

  /** The instructions of the longer example: `mul[3,7]` and `mul(32,64]`
    * are not instructions. */
  lemma LongerExampleCaptures(s: string)
    requires s == "x" + ("mul(2,4)" + ("%&" + ("mul[3,7]!@^do_not_" + ("mul(5,5)" + ("+" +
      ("mul(32,64]then(" + ("mul(11,8)" + ("mul(8,5)" + ")"))))))))
    ensures Captures(s) == [Capture("2", "4")] + ([Capture("5", "5")] + ([Capture("11", "8")] + [Capture("8", "5")]))
  {
    var r3 := "mul(8,5)" + ")";
    var r2 := "mul(32,64]then(" + ("mul(11,8)" + r3);
    var r1 := "mul[3,7]!@^do_not_" + ("mul(5,5)" + ("+" + r2));
    var c1, c2, c3, c4 := Capture("2", "4"), Capture("5", "5"), Capture("11", "8"), Capture("8", "5");
    LongerPiece4();
    LongerPiece3(r3);
    LongerPiece2(r2);
    LongerPiece1(r1);
  }

  lemma TotalFour(c1: Capture, c2: Capture, c3: Capture, c4: Capture)
    ensures Total([c1] + ([c2] + ([c3] + [c4]))) == Product(c1) + Product(c2) + Product(c3) + Product(c4)
  {
    TotalCons(c4, []);
    assert [c4] + [] == [c4];
    TotalCons(c3, [c4]);
    TotalCons(c2, [c3] + [c4]);
    TotalCons(c1, [c2] + ([c3] + [c4]));
  }

  /** The longer example: 2 * 4 + 5 * 5 + 11 * 8 + 8 * 5. */
  lemma LongerExample(s: string)
    requires s == "x" + ("mul(2,4)" + ("%&" + ("mul[3,7]!@^do_not_" + ("mul(5,5)" + ("+" +
      ("mul(32,64]then(" + ("mul(11,8)" + ("mul(8,5)" + ")"))))))))
    ensures ParseAndExecuteMultiplication(s) == Some(161)
  {
    LongerExampleCaptures(s);
    TotalFour(Capture("2", "4"), Capture("5", "5"), Capture("11", "8"), Capture("8", "5"));
    ExampleProducts();
    ParseAndExecuteMeaning(s);
  }

  /** A text with one instruction gives its product. */
  lemma OneCapture(t: string, c: Capture)
    requires Captures(t) == [c] && Product(c) <= U32_MAX
    ensures ParseAndExecuteMultiplication(t) == Some(Product(c))
  {
    TotalCons(c, []);
    ParseAndExecuteMeaning(t);
  }

  /** The spoilt instructions of the examples. */
  lemma BracketFacts(t: string)
    requires t == "mul[3,7]!^" || t == "mul[3,7]!@^do_not_"
    ensures |t| >= 4 && t[..3] == "mul" && t[3] != '(' && 'm' !in t[1..]
  {
  }

  /** The enabled text before the `don't()` of the conditional example,
    * with what follows it. */
  lemma ConditionalPiece1(b: string)
    requires 'm' !in b
    ensures Captures("x" + ("mul(2,4)" + ("&" + ("mul[3,7]!^" + b)))) == [Capture("2", "4")]
  {
    var c := Capture("2", "4");
    assert "mul(2,4)" == Spelling(c);
    CapturesWithoutM("x", "mul(2,4)" + ("&" + ("mul[3,7]!^" + b)));
    CapturesInstruction(c, "&" + ("mul[3,7]!^" + b));
    CapturesWithoutM("&", "mul[3,7]!^" + b);
    BracketFacts("mul[3,7]!^");
    CapturesBadOpen("mul[3,7]!^", b);
    assert b + "" == b;
    CapturesWithoutM(b, "");
  }

  /** The text after the `do()` of the conditional example. */
  lemma ConditionalPiece2(t: string)
    requires t == "?mul(8,5))"
    ensures Captures(t) == [Capture("8", "5")]
  {
    var c := Capture("8", "5");
    assert t == "?" + (Spelling(c) + (")" + ""));
    CapturesWithoutM("?", Spelling(c) + (")" + ""));
    CapturesInstruction(c, ")" + "");
    CapturesWithoutM(")", "");
  }

  lemma AppendAssociates(a: string, b: string, c: string)
    ensures (a + b) + c == a + (b + c)
  {
  }

  /** The enabled pieces of the conditional example: `mul(5,5)` and
    * `mul(11,8)` come after a `don't()` and before the next `do()`. */
  lemma ConditionalExampleSegments(s: string)
    requires s == "x" + ("mul(2,4)" + ("&" + "mul[3,7]!^")) + DONT_STR + "_mul(5,5)+mul(32,64](mul(11,8)un" + DO_STR + "?mul(8,5))"
    ensures Segments(s) == ["x" + ("mul(2,4)" + ("&" + "mul[3,7]!^")) + DONT_STR] + ["?mul(8,5))"]
  {
    var a, b, c := "x" + ("mul(2,4)" + ("&" + "mul[3,7]!^")), "_mul(5,5)+mul(32,64](mul(11,8)un", "?mul(8,5))";
    DisabledTextExcluded(a, b, c);
    FindNone(c, DONT_STR);
    assert Segments(c) == [c] + [];
  }

  /** The conditional example: only 2 * 4 + 8 * 5 is enabled. */
  lemma ConditionalExample(s: string)
    requires s == "x" + ("mul(2,4)" + ("&" + "mul[3,7]!^")) + DONT_STR + "_mul(5,5)+mul(32,64](mul(11,8)un" + DO_STR + "?mul(8,5))"
    ensures Conditional(s) == Some(48)
  {
    var a, c := "x" + ("mul(2,4)" + ("&" + "mul[3,7]!^")), "?mul(8,5))";
    ConditionalExampleSegments(s);
    ConditionalPiece1(DONT_STR);
    AppendAssociates("&", "mul[3,7]!^", DONT_STR);
    AppendAssociates("mul(2,4)", "&" + "mul[3,7]!^", DONT_STR);
    AppendAssociates("x", "mul(2,4)" + ("&" + "mul[3,7]!^"), DONT_STR);
    ConditionalPiece2(c);
    ExampleProducts();
    OneCapture(a + DONT_STR, Capture("2", "4"));
    OneCapture(c, Capture("8", "5"));
    FoldResultsCons(None, a + DONT_STR, [c]);
    FoldResultsCons(Some(8), c, []);
    assert Results([]) == [];
  }
}
