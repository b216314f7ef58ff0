/**
 * 2024 day 5 (`year_2024/day05.rs`): page-ordering rules `a|b`, print
 * orders `a,b,c,…`, the sum of the middle pages of the orders that every
 * rule accepts, and the swap repair of the orders that some rule rejects.
 * Pages are `u32` values.
 */
module Year2024Day05 {
  import opened Wrappers
  import MachineInt
  import RustText

  datatype Error =
    | OrderingRuleParsingFailed
    | InvalidOrderingRule
    | PrintOrderParsingFailed
    | InvalidPrintOrder
    | InputSplitFailed
    | IntOverflow
    | OrderFixFailed

  /** Page `first` has to be printed before page `second`. */
  datatype OrderingRule = OrderingRule(first: nat, second: nat)

  const PAGE_MAX: nat := MachineInt.U32_MAX

  // ---------------------------------------------------------------------
  // Rules
  // ---------------------------------------------------------------------

  /** `iter().position(|x| x == y)`: the first index holding `y`. */
  function IndexOf<T(==)>(xs: seq<T>, y: T): (r: Option<nat>)
    ensures r.None? <==> y !in xs
    ensures r.Some? ==> r.value < |xs| && xs[r.value] == y && forall j :: 0 <= j < r.value ==> xs[j] != y
  {
    IndexFromMeaning(xs, y, 0);
    IndexFrom(xs, y, 0)
  }

  /** The search of `position` from index `k` on. */
  function IndexFrom<T(==)>(xs: seq<T>, y: T, k: nat): Option<nat>
    requires k <= |xs|
    decreases |xs| - k
  {
    if k == |xs| then None
    else if xs[k] == y then Some(k)
    else IndexFrom(xs, y, k + 1)
  }

  lemma {:induction false} IndexFromMeaning<T>(xs: seq<T>, y: T, k: nat)
    requires k <= |xs|
    ensures var r := IndexFrom(xs, y, k);
      && (r.None? <==> forall j :: k <= j < |xs| ==> xs[j] != y)
      && (r.Some? ==> k <= r.value < |xs| && xs[r.value] == y && forall j :: k <= j < r.value ==> xs[j] != y)
    decreases |xs| - k
  {
    if k < |xs| && xs[k] != y {
      IndexFromMeaning(xs, y, k + 1);
    }
  }

  /** `is_satisfied`: a rule holds when one of its pages is missing, and
    * otherwise when the first `first` comes before the first `second`. */
  predicate IsSatisfied(rule: OrderingRule, order: seq<nat>)
  {
    match (IndexOf(order, rule.first), IndexOf(order, rule.second))
    case (Some(i), Some(j)) => i < j
    case _ => true
  }

  /** A rule holds exactly when, if `first` is printed at all, every copy
    * of `second` has a `first` somewhere before it. */
  lemma IsSatisfiedMeaning(rule: OrderingRule, order: seq<nat>)
    ensures IsSatisfied(rule, order) <==>
      (rule.first in order ==>
        forall j :: 0 <= j < |order| && order[j] == rule.second ==>
          exists i :: 0 <= i < j && order[i] == rule.first)
  {
    var pf, ps := IndexOf(order, rule.first), IndexOf(order, rule.second);
    if pf.Some? && ps.Some? {
      var i0, j0 := pf.value, ps.value;
      if i0 < j0 {
        forall j | 0 <= j < |order| && order[j] == rule.second
          ensures exists i :: 0 <= i < j && order[i] == rule.first
        {
          assert order[i0] == rule.first;
        }
      } else {
        assert order[j0] == rule.second;
        assert !exists i :: 0 <= i < j0 && order[i] == rule.first;
      }
    }
  }

  /** `rules.iter().all(|r| r.is_satisfied(order))`. */
  predicate AllSatisfied(rules: seq<OrderingRule>, order: seq<nat>)
  {
    |rules| == 0 || (IsSatisfied(rules[0], order) && AllSatisfied(rules[1..], order))
  }

  lemma {:induction false} AllSatisfiedMeaning(rules: seq<OrderingRule>, order: seq<nat>)
    ensures AllSatisfied(rules, order) <==> forall i :: 0 <= i < |rules| ==> IsSatisfied(rules[i], order)
  {
    if |rules| > 0 {
      AllSatisfiedMeaning(rules[1..], order);
      assert forall i :: 1 <= i < |rules| ==> rules[i] == rules[1..][i - 1];
    }
  }

  /** The cases of the `check_rule` test, for the rule `1|2`. */
  lemma IsSatisfiedExamples()
    ensures IsSatisfied(OrderingRule(1, 2), [1, 2, 3])
    ensures IsSatisfied(OrderingRule(1, 2), [1, 3, 2])
    ensures IsSatisfied(OrderingRule(1, 2), [3, 2])
    ensures IsSatisfied(OrderingRule(1, 2), [1, 3])
    ensures !IsSatisfied(OrderingRule(1, 2), [2, 1, 3])
    ensures !IsSatisfied(OrderingRule(1, 2), [2, 3, 1])
  {
  }

  // ---------------------------------------------------------------------
  // Parsing a rule: the first match of `(\d+)\|(\d+)`
  // ---------------------------------------------------------------------

  /** The length of the run of digits from index `i`. */
  function DigitRun(s: string, i: nat): (n: nat)
    requires i <= |s|
    ensures i + n <= |s|
    decreases |s| - i
  {
    if i < |s| && RustText.IsDigit(s[i]) then 1 + DigitRun(s, i + 1) else 0
  }

  /** The run is all digits, and a non-digit or the end of the text ends it. */
  lemma {:induction false} DigitRunDigits(s: string, i: nat)
    requires i <= |s|
    ensures forall k :: i <= k < i + DigitRun(s, i) ==> RustText.IsDigit(s[k])
    ensures i + DigitRun(s, i) < |s| ==> !RustText.IsDigit(s[i + DigitRun(s, i)])
    decreases |s| - i
  {
    if i < |s| && RustText.IsDigit(s[i]) {
      DigitRunDigits(s, i + 1);
    }
  }

  /** A run of `n` digits from `i` that ends the text or a non-digit ends
    * is what `DigitRun` measures. */
  lemma {:induction false} DigitRunIs(s: string, i: nat, n: nat)
    requires i + n <= |s| && forall k :: i <= k < i + n ==> RustText.IsDigit(s[k])
    requires i + n < |s| ==> !RustText.IsDigit(s[i + n])
    ensures DigitRun(s, i) == n
    decreases n
  {
    if n > 0 {
      DigitRunIs(s, i + 1, n - 1);
    }
  }

  /** The pattern matches from `i`: digits, `|`, and a digit. */
  predicate MatchesAt(s: string, i: nat)
    requires i <= |s|
  {
    var j := i + DigitRun(s, i);
    j > i && j + 1 < |s| && s[j] == '|' && RustText.IsDigit(s[j + 1])
  }

  /** Where the leftmost match at or after `i` starts. */
  function MatchStart(s: string, i: nat): (r: Option<nat>)
    requires i <= |s|
    ensures r.Some? ==> i <= r.value < |s| && MatchesAt(s, r.value)
    decreases |s| - i
  {
    if i == |s| then None
    else if MatchesAt(s, i) then Some(i)
    else MatchStart(s, i + 1)
  }

  /** The search finds the leftmost match, and `None` only when there is
    * none. */
  lemma {:induction false} MatchStartIsLeftmost(s: string, i: nat)
    requires i <= |s|
    ensures MatchStart(s, i).Some? ==> forall k :: i <= k < MatchStart(s, i).value ==> !MatchesAt(s, k)
    ensures MatchStart(s, i).None? ==> forall k :: i <= k <= |s| ==> !MatchesAt(s, k)
    decreases |s| - i
  {
    if i < |s| && !MatchesAt(s, i) {
      MatchStartIsLeftmost(s, i + 1);
    }
  }

  /** The two groups of the leftmost match: both are runs of digits. */
  function Captures(s: string): (r: Option<(string, string)>)
    ensures r.Some? ==> r.value.0 != "" && RustText.AllDigits(r.value.0)
    ensures r.Some? ==> r.value.1 != "" && RustText.AllDigits(r.value.1)
    ensures r.None? <==> MatchStart(s, 0).None?
  {
    match MatchStart(s, 0)
    case None => None
    case Some(i) =>
      var j := i + DigitRun(s, i);
      var e := j + 1 + DigitRun(s, j + 1);
      DigitRunDigits(s, i);
      DigitRunDigits(s, j + 1);
      Some((s[i..j], s[j + 1..e]))
  }

  /** `OrderingRule::try_from`: both numbers must be `u32` values and must
    * differ. */
  function RuleFromStr(s: string): (r: Result<OrderingRule, Error>)
    ensures r.Ok? ==> r.value.first != r.value.second && r.value.first <= PAGE_MAX && r.value.second <= PAGE_MAX
    ensures r.Err? ==> r.error == OrderingRuleParsingFailed || r.error == InvalidOrderingRule
    ensures Captures(s).None? ==> r == Err(OrderingRuleParsingFailed)
  {
    match Captures(s)
    case None => Err(OrderingRuleParsingFailed)
    case Some((a, b)) =>
      match RustText.ParseUnsigned(a, PAGE_MAX)
      case Err(_) => Err(OrderingRuleParsingFailed)
      case Ok(p1) =>
        match RustText.ParseUnsigned(b, PAGE_MAX)
        case Err(_) => Err(OrderingRuleParsingFailed)
        case Ok(p2) =>
          if p1 == p2 then Err(InvalidOrderingRule)
          else
            RustText.ParseUnsignedDigits(a, PAGE_MAX);
            RustText.ParseUnsignedDigits(b, PAGE_MAX);
            Ok(OrderingRule(p1, p2))
  }

  /** The text of a rule. */
  function RuleText(rule: OrderingRule): string
  {
    RustText.Decimal(rule.first) + "|" + RustText.Decimal(rule.second)
  }

  /** Parsing the text of a rule gives it back, unless its pages are equal
    * or do not fit `u32`. */
  lemma RuleRoundTrip(rule: OrderingRule)
    ensures RuleFromStr(RuleText(rule)) ==
      if rule.first > PAGE_MAX || rule.second > PAGE_MAX then Err(OrderingRuleParsingFailed)
      else if rule.first == rule.second then Err(InvalidOrderingRule)
      else Ok(rule)
  {
    var a, b := RustText.Decimal(rule.first), RustText.Decimal(rule.second);
    var s := RuleText(rule);
    RuleTextCaptures(a, b);
    ParsedRule(s, a, b);
    RustText.DecimalValueOfDecimal(rule.first);
    RustText.DecimalValueOfDecimal(rule.second);
  }

  /** The rule of the captured digit strings. */
  lemma ParsedRule(s: string, a: string, b: string)
    requires Captures(s) == Some((a, b))
    ensures RuleFromStr(s) ==
      if DecimalValue(a) > PAGE_MAX || DecimalValue(b) > PAGE_MAX then Err(OrderingRuleParsingFailed)
      else if DecimalValue(a) == DecimalValue(b) then Err(InvalidOrderingRule)
      else Ok(OrderingRule(DecimalValue(a), DecimalValue(b)))
  {
    RustText.ParseUnsignedDigits(a, PAGE_MAX);
    RustText.ParseUnsignedDigits(b, PAGE_MAX);
  }

  function DecimalValue(s: string): nat
    requires RustText.AllDigits(s)
  {
    RustText.DecimalValue(s)
  }

  /** The cases of the `parse_rule` test: the pattern may sit anywhere in
    * the text. */
  lemma RuleExamples()
    ensures RuleFromStr("891|23") == Ok(OrderingRule(891, 23))
    ensures RuleFromStr("1|2") == Ok(OrderingRule(1, 2))
    ensures RuleFromStr("2|2") == Err(InvalidOrderingRule)
  {
    assert RuleText(OrderingRule(891, 23)) == "891|23";
    RuleRoundTrip(OrderingRule(891, 23));
    assert RuleText(OrderingRule(1, 2)) == "1|2";
    RuleRoundTrip(OrderingRule(1, 2));
    assert RuleText(OrderingRule(2, 2)) == "2|2";
    RuleRoundTrip(OrderingRule(2, 2));
  }

  lemma RuleInTextExample()
    ensures RuleFromStr(" 12|2 ") == Ok(OrderingRule(12, 2))
  {
  }

  lemma RuleBeforeNewlineExample()
    ensures RuleFromStr("9|4\n") == Ok(OrderingRule(9, 4))
  {
  }

  lemma RuleMismatchExamples()
    ensures RuleFromStr("123") == Err(OrderingRuleParsingFailed)
    ensures RuleFromStr("123|") == Err(OrderingRuleParsingFailed)
    ensures RuleFromStr("|123") == Err(OrderingRuleParsingFailed)
  {
  }

  /** The groups of the text of a rule are its two numbers. */
  lemma RuleTextCaptures(a: string, b: string)
    requires a != "" && b != "" && RustText.AllDigits(a) && RustText.AllDigits(b)
    ensures Captures(a + "|" + b) == Some((a, b))
  {
    var s := a + "|" + b;
    var j := |a|;
    assert forall k :: 0 <= k < j ==> s[k] == a[k];
    assert s[j] == '|';
    assert forall k :: j + 1 <= k < |s| ==> s[k] == b[k - j - 1];
    DigitRunIs(s, 0, |a|);
    DigitRunIs(s, j + 1, |b|);
    assert MatchStart(s, 0) == Some(0);
    CapturesAt(s, 0, |a|, |b|);
    assert s[0..j] == a;
    assert s[j + 1..|s|] == b;
  }

  /** The groups of a match found at `i`. */
  lemma CapturesAt(s: string, i: nat, n: nat, m: nat)
    requires i <= |s| && MatchStart(s, 0) == Some(i)
    requires DigitRun(s, i) == n && i + n + 1 <= |s| && DigitRun(s, i + n + 1) == m
    ensures Captures(s) == Some((s[i..i + n], s[i + n + 1..i + n + 1 + m]))
  {
  }

  // ---------------------------------------------------------------------
  // Parsing a print order
  // ---------------------------------------------------------------------

  /** The values of a sequence, as a `HashSet` of them holds them. */
  function Elements<T>(xs: seq<T>): set<T>
  {
    set x | x in xs
  }

  predicate Distinct<T(==)>(xs: seq<T>)
  {
    forall i, j :: 0 <= i < j < |xs| ==> xs[i] != xs[j]
  }

  lemma {:induction false} ElementsCount<T>(xs: seq<T>)
    ensures |Elements(xs)| <= |xs|
    ensures |Elements(xs)| == |xs| <==> Distinct(xs)
  {
    if xs != [] {
      var init, last := xs[..|xs| - 1], xs[|xs| - 1];
      ElementsCount(init);
      assert xs == init + [last];
      assert Elements(xs) == Elements(init) + {last};
      if last in init {
        assert Elements(xs) == Elements(init);
        var k :| 0 <= k < |init| && init[k] == last;
        assert xs[k] == xs[|xs| - 1];
      } else {
        assert |Elements(xs)| == |Elements(init)| + 1;
        assert Distinct(xs) <==> Distinct(init) by {
          if Distinct(init) {
            forall i, j | 0 <= i < j < |xs|
              ensures xs[i] != xs[j]
            {
              if j < |xs| - 1 {
                assert xs[i] == init[i] && xs[j] == init[j];
              } else {
                assert xs[i] == init[i];
              }
            }
          }
          if Distinct(xs) {
            forall i, j | 0 <= i < j < |init|
              ensures init[i] != init[j]
            {
              assert xs[i] == init[i] && xs[j] == init[j];
            }
          }
        }
      }
    }
  }

  /** `item.parse::<u32>().ok()` for each item. */
  function ParsedItems(items: seq<string>): (r: seq<Option<nat>>)
    ensures |r| == |items|
    ensures forall i :: 0 <= i < |items| ==> r[i] == ParseItem(items[i])
  {
    seq(|items|, i requires 0 <= i < |items| => ParseItem(items[i]))
  }

  function ParseItem(item: string): (r: Option<nat>)
    ensures r.Some? ==> r.value <= PAGE_MAX
  {
    match RustText.ParseUnsigned(item, PAGE_MAX)
    case Ok(v) =>
      RustText.ParseUnsignedBound(item, PAGE_MAX);
      Some(v)
    case Err(_) => None
  }

  /** `parse_print_order`: the comma-separated `u32` pages, of which there
    * must be an odd number, all different. */
  function ParsePrintOrder(s: string): (r: Result<seq<nat>, Error>)
  {
    var parsed := ParsedItems(RustText.Split(s, ","));
    if forall i :: 0 <= i < |parsed| ==> parsed[i].Some? then
      if |parsed| % 2 == 1 && |parsed| == |Elements(parsed)| then
        Ok(seq(|parsed|, i requires 0 <= i < |parsed| => parsed[i].value))
      else Err(InvalidPrintOrder)
    else Err(PrintOrderParsingFailed)
  }

  /** A parsed print order: an odd number of different pages. */
  predicate WellFormed(order: seq<nat>)
  {
    |order| % 2 == 1 && Distinct(order)
  }

  /** The pages of items that all parse. */
  function Pages(items: seq<string>): (pages: seq<nat>)
    requires forall i :: 0 <= i < |items| ==> ParseItem(items[i]).Some?
    ensures |pages| == |items| && forall i :: 0 <= i < |items| ==> ParseItem(items[i]) == Some(pages[i])
  {
    seq(|items|, i requires 0 <= i < |items| => ParseItem(items[i]).value)
  }

  /** What `parse_print_order` decides, with the `HashSet` size check read
    * as "no page repeats": an item that is no `u32` is reported first,
    * then an order of even length or with a repeated page. */
  lemma ParsePrintOrderCases(s: string)
    ensures var items := RustText.Split(s, ",");
      ParsePrintOrder(s) ==
        if exists i :: 0 <= i < |items| && ParseItem(items[i]).None? then Err(PrintOrderParsingFailed)
        else if WellFormed(Pages(items)) then Ok(Pages(items))
        else Err(InvalidPrintOrder)
  {
    var items := RustText.Split(s, ",");
    var parsed := ParsedItems(items);
    if forall i :: 0 <= i < |parsed| ==> parsed[i].Some? {
      var pages := Pages(items);
      ElementsCount(parsed);
      assert Distinct(parsed) <==> Distinct(pages) by {
        assert forall i :: 0 <= i < |parsed| ==> parsed[i] == Some(pages[i]);
      }
      assert seq(|parsed|, i requires 0 <= i < |parsed| => parsed[i].value) == pages;
    } else {
      var i :| 0 <= i < |parsed| && parsed[i].None?;
      assert ParseItem(items[i]).None?;
    }
  }

  /** The text of a print order. */
  function OrderText(order: seq<nat>): string
  {
    RustText.Join(DecimalItems(order), ",")
  }

  function DecimalItems(order: seq<nat>): (items: seq<string>)
    ensures |items| == |order| && forall i :: 0 <= i < |order| ==> items[i] == RustText.Decimal(order[i])
  {
    seq(|order|, i requires 0 <= i < |order| => RustText.Decimal(order[i]))
  }

  /** Parsing the text of a well-formed order of `u32` pages gives it
    * back. */
  lemma PrintOrderRoundTrip(order: seq<nat>)
    requires WellFormed(order)
    requires forall i :: 0 <= i < |order| ==> order[i] <= PAGE_MAX
    ensures ParsePrintOrder(OrderText(order)) == Ok(order)
  {
    var items := DecimalItems(order);
    forall i | 0 <= i < |items|
      ensures ',' !in items[i]
    {
      assert RustText.AllDigits(items[i]);
    }
    RustText.JoinSplit(items, ',');
    forall i | 0 <= i < |items|
      ensures ParseItem(items[i]) == Some(order[i])
    {
      RustText.ParseDecimal(order[i], PAGE_MAX);
    }
    assert Pages(items) == order;
    ParsePrintOrderCases(OrderText(order));
  }

  /** A text whose items all parse gives their pages, or
    * `InvalidPrintOrder` when they are not well formed. */
  lemma ParsePrintOrderOf(s: string, items: seq<string>, order: seq<nat>)
    requires RustText.Split(s, ",") == items && |items| == |order|
    requires forall i :: 0 <= i < |items| ==> ParseItem(items[i]) == Some(order[i])
    ensures ParsePrintOrder(s) == if WellFormed(order) then Ok(order) else Err(InvalidPrintOrder)
  {
    ParsePrintOrderCases(s);
    assert Pages(items) == order;
  }

  lemma ExamplePages()
    ensures ParseItem("11") == Some(11) && ParseItem("2") == Some(2) && ParseItem("4") == Some(4)
    ensures ParseItem("8") == Some(8) && ParseItem("12") == Some(12) && ParseItem("3") == Some(3)
    ensures ParseItem("") == None
  {
  }

  /** The cases of the `parse_order` test, one by one. */
  lemma PrintOrderExample(s: string)
    requires s == "11,2,4"
    ensures ParsePrintOrder(s) == Ok([11, 2, 4])
  {
    ItemsOf(s, ["11", "2", "4"]);
    ExamplePages();
    ParsePrintOrderOf(s, ["11", "2", "4"], [11, 2, 4]);
    assert WellFormed([11, 2, 4]);
  }

  lemma EvenPrintOrderExample(s: string)
    requires s == "8,12,3,4"
    ensures ParsePrintOrder(s) == Err(InvalidPrintOrder)
  {
    ItemsOf(s, ["8", "12", "3", "4"]);
    ExamplePages();
    ParsePrintOrderOf(s, ["8", "12", "3", "4"], [8, 12, 3, 4]);
  }

  lemma RepeatedPageExample(s: string)
    requires s == "8,4,4"
    ensures ParsePrintOrder(s) == Err(InvalidPrintOrder)
  {
    ItemsOf(s, ["8", "4", "4"]);
    ExamplePages();
    ParsePrintOrderOf(s, ["8", "4", "4"], [8, 4, 4]);
    assert !Distinct([8, 4, 4]) by {
      assert [8, 4, 4][1] == [8, 4, 4][2];
    }
  }

  lemma TrailingCommaExample(s: string)
    requires s == "12,3,4,"
    ensures ParsePrintOrder(s) == Err(PrintOrderParsingFailed)
  {
    ItemsOf(s, ["12", "3", "4", ""]);
    ExamplePages();
    ParsePrintOrderCases(s);
    assert ["12", "3", "4", ""][3] == "";
  }

  lemma LeadingCommaExample(s: string)
    requires s == ",12,3,4"
    ensures ParsePrintOrder(s) == Err(PrintOrderParsingFailed)
  {
    ItemsOf(s, ["", "12", "3", "4"]);
    ExamplePages();
    ParsePrintOrderCases(s);
    assert ["", "12", "3", "4"][0] == "";
  }

  lemma ItemsOf(s: string, items: seq<string>)
    requires |items| >= 1 && forall i :: 0 <= i < |items| ==> ',' !in items[i]
    requires RustText.Join(items, ",") == s
    ensures RustText.Split(s, ",") == items
  {
    RustText.JoinSplit(items, ',');
  }

  // ---------------------------------------------------------------------
  // Parsing the input
  // ---------------------------------------------------------------------

  function RuleResults(lines: seq<string>): (rs: seq<Result<OrderingRule, Error>>)
    ensures |rs| == |lines| && forall i :: 0 <= i < |lines| ==> rs[i] == RuleFromStr(lines[i])
  {
    seq(|lines|, i requires 0 <= i < |lines| => RuleFromStr(lines[i]))
  }

  function OrderResults(lines: seq<string>): (rs: seq<Result<seq<nat>, Error>>)
    ensures |rs| == |lines| && forall i :: 0 <= i < |lines| ==> rs[i] == ParsePrintOrder(lines[i])
  {
    seq(|lines|, i requires 0 <= i < |lines| => ParsePrintOrder(lines[i]))
  }


  /** The rules and print orders of the input. */
  datatype Manual = Manual(rules: seq<OrderingRule>, orders: seq<seq<nat>>)

  /** `parse_input`: the rules up to the first empty line, the print
    * orders after it; the first line that fails decides the error, rules
    * before orders. */
  function ParseInput(input: string): (r: Result<Manual, Error>)
    ensures r == Err(InputSplitFailed) <==> "" !in RustText.Lines(input)
  {
    ParseLines(RustText.Lines(input))
  }

  function ParseLines(lines: seq<string>): (r: Result<Manual, Error>)
    ensures r == Err(InputSplitFailed) <==> "" !in lines
  {
    match IndexOf(lines, "")
    case None => Err(InputSplitFailed)
    case Some(p) =>
      var rules := Collect(RuleResults(lines[..p]));
      if rules.Err? then
        RuleErrors(lines[..p]);
        Err(rules.error)
      else
        var orders := Collect(OrderResults(lines[p + 1..]));
        if orders.Err? then
          OrderErrors(lines[p + 1..]);
          Err(orders.error)
        else Ok(Manual(rules.value, orders.value))
  }

  lemma RuleErrors(lines: seq<string>)
    requires Collect(RuleResults(lines)).Err?
    ensures Collect(RuleResults(lines)).error in {OrderingRuleParsingFailed, InvalidOrderingRule}
  {
    CollectError(RuleResults(lines));
  }

  lemma OrderErrors(lines: seq<string>)
    requires Collect(OrderResults(lines)).Err?
    ensures Collect(OrderResults(lines)).error in {PrintOrderParsingFailed, InvalidPrintOrder}
  {
    CollectError(OrderResults(lines));
  }

  /** What a successful parse holds, for the first empty line `p`: the
    * rules of the lines before it and the orders of the lines after it. */
  lemma ParseLinesMeaning(lines: seq<string>, p: nat)
    requires IndexOf(lines, "") == Some(p) && ParseLines(lines).Ok?
    ensures var m := ParseLines(lines).value;
      && |m.rules| == p && |m.orders| == |lines| - p - 1
      && (forall i :: 0 <= i < p ==> RuleFromStr(lines[i]) == Ok(m.rules[i]))
      && (forall i :: 0 <= i < |m.orders| ==> ParsePrintOrder(lines[p + 1 + i]) == Ok(m.orders[i]))
  {
    var m := ParseLines(lines).value;
    forall i | 0 <= i < p
      ensures RuleFromStr(lines[i]) == Ok(m.rules[i])
    {
      assert lines[..p][i] == lines[i];
    }
    forall i | 0 <= i < |m.orders|
      ensures ParsePrintOrder(lines[p + 1 + i]) == Ok(m.orders[i])
    {
      assert lines[p + 1..][i] == lines[p + 1 + i];
    }
  }

  /** Parsed rules join two different pages, and parsed orders are well
    * formed. */
  lemma ParsedWellFormed(lines: seq<string>)
    requires ParseLines(lines).Ok?
    ensures var m := ParseLines(lines).value;
      && (forall i :: 0 <= i < |m.rules| ==> m.rules[i].first != m.rules[i].second)
      && (forall i :: 0 <= i < |m.orders| ==> WellFormed(m.orders[i]))
  {
    var p := IndexOf(lines, "").value;
    ParseLinesMeaning(lines, p);
    var m := ParseLines(lines).value;
    forall i | 0 <= i < |m.orders|
      ensures WellFormed(m.orders[i])
    {
      ParsePrintOrderCases(lines[p + 1 + i]);
    }
  }

  // ---------------------------------------------------------------------
  // The middle pages of the accepted orders
  // ---------------------------------------------------------------------

  /** The page in the middle of an order, at `len / 2`. */
  function Middle(order: seq<nat>): nat
    requires |order| >= 1
  {
    order[|order| / 2]
  }

  /** The `filter` of the orders every rule accepts, in input order. */
  function Accepted(rules: seq<OrderingRule>, orders: seq<seq<nat>>): seq<seq<nat>>
  {
    if orders == [] then []
    else
      var init, last := orders[..|orders| - 1], orders[|orders| - 1];
      Accepted(rules, init) + (if AllSatisfied(rules, last) then [last] else [])
  }

  /** The `filter` of the orders some rule rejects, in input order. */
  function Rejected(rules: seq<OrderingRule>, orders: seq<seq<nat>>): seq<seq<nat>>
  {
    if orders == [] then []
    else
      var init, last := orders[..|orders| - 1], orders[|orders| - 1];
      Rejected(rules, init) + (if AllSatisfied(rules, last) then [] else [last])
  }

  /** The two filters keep exactly the accepted and the rejected orders. */
  lemma {:induction false} FiltersMeaning(rules: seq<OrderingRule>, orders: seq<seq<nat>>)
    ensures forall o :: o in Accepted(rules, orders) <==> o in orders && AllSatisfied(rules, o)
    ensures forall o :: o in Rejected(rules, orders) <==> o in orders && !AllSatisfied(rules, o)
  {
    if orders != [] {
      var init, last := orders[..|orders| - 1], orders[|orders| - 1];
      assert orders == init + [last];
      FiltersMeaning(rules, init);
    }
  }

  /** Every order is kept by exactly one of the filters, so together they
    * hold as many orders as the input. */
  lemma {:induction false} FiltersPartition(rules: seq<OrderingRule>, orders: seq<seq<nat>>)
    ensures |Accepted(rules, orders)| + |Rejected(rules, orders)| == |orders|
  {
    if orders != [] {
      FiltersPartition(rules, orders[..|orders| - 1]);
    }
  }

  predicate NonEmpty(orders: seq<seq<nat>>)
  {
    forall o :: o in orders ==> |o| >= 1
  }

  /** The `fold` of `checked_add` over the middle pages, from `Some(0)`:
    * `None` from the first sum past `u32` on. */
  function MiddleFold(orders: seq<seq<nat>>): Option<nat>
    requires NonEmpty(orders)
  {
    if orders == [] then Some(0)
    else
      var init, last := orders[..|orders| - 1], orders[|orders| - 1];
      match MiddleFold(init)
      case None => None
      case Some(x) => if x + Middle(last) <= PAGE_MAX then Some(x + Middle(last)) else None
  }

  /** The true total of the middle pages. */
  function MiddleTotal(orders: seq<seq<nat>>): nat
    requires NonEmpty(orders)
  {
    if orders == [] then 0
    else MiddleTotal(orders[..|orders| - 1]) + Middle(orders[|orders| - 1])
  }

  /** The fold overflows exactly when the true total does not fit `u32`,
    * and gives that total otherwise. */
  lemma {:induction false} MiddleFoldIsTotal(orders: seq<seq<nat>>)
    requires NonEmpty(orders)
    ensures MiddleFold(orders) == if MiddleTotal(orders) <= PAGE_MAX then Some(MiddleTotal(orders)) else None
  {
    if orders != [] {
      MiddleFoldIsTotal(orders[..|orders| - 1]);
    }
  }

  /** `sum_middle_page_numbers_of_valid_print_orders`. */
  function SumMiddlePagesOfValidOrders(input: string): (r: Result<nat, Error>)
  {
    match ParseInput(input)
    case Err(e) => Err(e)
    case Ok(m) =>
      ParsedNonEmpty(RustText.Lines(input));
      match MiddleFold(Accepted(m.rules, m.orders))
      case None => Err(IntOverflow)
      case Some(v) => Ok(v)
  }

  /** Parsed orders, and so the orders either filter keeps, are not empty. */
  lemma ParsedNonEmpty(lines: seq<string>)
    requires ParseLines(lines).Ok?
    ensures var m := ParseLines(lines).value;
      NonEmpty(m.orders) && NonEmpty(Accepted(m.rules, m.orders)) && NonEmpty(Rejected(m.rules, m.orders))
  {
    ParsedWellFormed(lines);
    var m := ParseLines(lines).value;
    FiltersMeaning(m.rules, m.orders);
  }

  /** The valid-order answer: a parse error, or the total of the middle
    * pages of the accepted orders, or `IntOverflow` past `u32`. */
  lemma SumMiddlePagesOfValidOrdersMeaning(input: string)
    ensures var p := ParseInput(input);
      p.Err? ==> SumMiddlePagesOfValidOrders(input) == Err(p.error)
    ensures var p := ParseInput(input);
      p.Ok? ==> NonEmpty(Accepted(p.value.rules, p.value.orders)) &&
                (var total := MiddleTotal(Accepted(p.value.rules, p.value.orders));
                 SumMiddlePagesOfValidOrders(input) == if total <= PAGE_MAX then Ok(total) else Err(IntOverflow))
  {
    var p := ParseInput(input);
    if p.Ok? {
      ParsedNonEmpty(RustText.Lines(input));
      MiddleFoldIsTotal(Accepted(p.value.rules, p.value.orders));
    }
  }

  // ---------------------------------------------------------------------
  // Fixing an order
  // ---------------------------------------------------------------------

  /** `Vec::swap`: the values at `a` and `b` trade places. */
  function Swap(s: seq<nat>, a: nat, b: nat): (r: seq<nat>)
    requires a < |s| && b < |s|
    ensures |r| == |s| && multiset(r) == multiset(s)
  {
    s[a := s[b]][b := s[a]]
  }

  /** The swap one rule makes in `fixed` inside a round: none if the rule
    * holds in the round's starting `order`, else at the places its pages
    * have in `order`. */
  function Step(order: seq<nat>, fixed: seq<nat>, rule: OrderingRule): (r: seq<nat>)
    requires |fixed| == |order|
    ensures |r| == |fixed| && multiset(r) == multiset(fixed)
  {
    if IsSatisfied(rule, order) then fixed
    else Swap(fixed, IndexOf(order, rule.first).value, IndexOf(order, rule.second).value)
  }

  /** The swaps of the first rules of a round, applied in turn to a copy of
    * `order`. */
  function RoundOver(order: seq<nat>, rules: seq<OrderingRule>): (r: seq<nat>)
    ensures |r| == |order| && multiset(r) == multiset(order)
  {
    if rules == [] then order
    else Step(order, RoundOver(order, rules[..|rules| - 1]), rules[|rules| - 1])
  }

  lemma RoundOverStep(order: seq<nat>, rules: seq<OrderingRule>, i: nat)
    requires i < |rules|
    ensures RoundOver(order, rules[..i + 1]) == Step(order, RoundOver(order, rules[..i]), rules[i])
  {
    assert rules[..i + 1][..i] == rules[..i];
  }

  /** One pass of the `while` loop of `fix_order`. */
  function Round(order: seq<nat>, rules: seq<OrderingRule>): seq<nat>
  {
    RoundOver(order, rules)
  }

  /** `k` rounds. */
  function Iterate(order: seq<nat>, rules: seq<OrderingRule>, k: nat): (r: seq<nat>)
    ensures |r| == |order| && multiset(r) == multiset(order)
    decreases k
  {
    if k == 0 then order else Iterate(Round(order, rules), rules, k - 1)
  }

  /** The most rounds `fix_order` runs: it gives up once the count of
    * rounds done exceeds 1 << 10. */
  const MAX_ROUNDS: nat := 1025

  /** `fix_order` from a count of `iterations` rounds already done: the
    * order once every rule holds, or `None` once the count passes 1 << 10.
    * What it returns holds every rule and is a permutation of `order`. */
  function Fix(order: seq<nat>, rules: seq<OrderingRule>, iterations: nat): Option<seq<nat>>
    requires iterations <= MAX_ROUNDS
    decreases MAX_ROUNDS - iterations
  {
    if AllSatisfied(rules, order) then Some(order)
    else if iterations > 1024 then None
    else Fix(Round(order, rules), rules, iterations + 1)
  }

  /** What `fix_order` returns holds every rule and is a permutation of
    * the order it was given. */
  lemma {:induction false} FixSound(order: seq<nat>, rules: seq<OrderingRule>, iterations: nat)
    requires iterations <= MAX_ROUNDS
    ensures var r := Fix(order, rules, iterations);
      r.Some? ==> AllSatisfied(rules, r.value) && multiset(r.value) == multiset(order) && |r.value| == |order|
    decreases MAX_ROUNDS - iterations
  {
    if !AllSatisfied(rules, order) && iterations <= 1024 {
      FixSound(Round(order, rules), rules, iterations + 1);
    }
  }

  /** The number of rounds `fix_order` runs from a count of `n` rounds
    * already done. */
  function Rounds(order: seq<nat>, rules: seq<OrderingRule>, n: nat): nat
    requires n <= MAX_ROUNDS
    decreases MAX_ROUNDS - n
  {
    if AllSatisfied(rules, order) || n > 1024 then 0
    else 1 + Rounds(Round(order, rules), rules, n + 1)
  }

  /** `fix_order` runs at most `MAX_ROUNDS - n` rounds. */
  lemma {:induction false} RoundsBound(order: seq<nat>, rules: seq<OrderingRule>, n: nat)
    requires n <= MAX_ROUNDS
    ensures Rounds(order, rules, n) <= MAX_ROUNDS - n
    decreases MAX_ROUNDS - n
  {
    if !AllSatisfied(rules, order) && n <= 1024 {
      RoundsBound(Round(order, rules), rules, n + 1);
    }
  }

  /** No round before the last one `fix_order` runs reaches an order that
    * holds every rule. */
  lemma {:induction false} RoundsFirst(order: seq<nat>, rules: seq<OrderingRule>, n: nat, j: nat)
    requires n <= MAX_ROUNDS
    ensures j < Rounds(order, rules, n) ==> !AllSatisfied(rules, Iterate(order, rules, j))
    decreases MAX_ROUNDS - n
  {
    if j > 0 && j < Rounds(order, rules, n) {
      var next := Round(order, rules);
      RoundsFirst(next, rules, n + 1, j - 1);
      assert Iterate(order, rules, j) == Iterate(next, rules, j - 1);
    }
  }

  /** `fix_order` returns the order its last round reached if that order
    * holds every rule, and `None` otherwise, which happens only after the
    * whole allowance of rounds. */
  lemma {:induction false} FixIsIterate(order: seq<nat>, rules: seq<OrderingRule>, n: nat)
    requires n <= MAX_ROUNDS
    ensures var last := Iterate(order, rules, Rounds(order, rules, n));
      Fix(order, rules, n) == if AllSatisfied(rules, last) then Some(last) else None
    ensures Fix(order, rules, n).None? ==> Rounds(order, rules, n) == MAX_ROUNDS - n
    decreases MAX_ROUNDS - n
  {
    assert Iterate(order, rules, 0) == order;
    if !AllSatisfied(rules, order) && n <= 1024 {
      var next := Round(order, rules);
      FixIsIterate(next, rules, n + 1);
      var k := Rounds(next, rules, n + 1);
      assert Iterate(order, rules, k + 1) == Iterate(next, rules, k);
    }
  }

  /** Hence `fix_order` fails exactly when none of the first `MAX_ROUNDS`
    * rounds reaches an order that holds every rule, and otherwise returns
    * the first of them that does. */
  lemma FixFailsIff(order: seq<nat>, rules: seq<OrderingRule>)
    ensures Fix(order, rules, 0).None? <==>
      forall k: nat :: k <= MAX_ROUNDS ==> !AllSatisfied(rules, Iterate(order, rules, k))
  {
    var k := Rounds(order, rules, 0);
    RoundsBound(order, rules, 0);
    FixIsIterate(order, rules, 0);
    if Fix(order, rules, 0).None? {
      forall j: nat | j <= MAX_ROUNDS
        ensures !AllSatisfied(rules, Iterate(order, rules, j))
      {
        RoundsFirst(order, rules, 0, j);
        if j >= k {
          assert j == k;
        }
      }
    }
  }

  lemma FixIsFirst(order: seq<nat>, rules: seq<OrderingRule>, k: nat)
    requires k <= MAX_ROUNDS && AllSatisfied(rules, Iterate(order, rules, k))
    requires forall j: nat :: j < k ==> !AllSatisfied(rules, Iterate(order, rules, j))
    ensures Fix(order, rules, 0) == Some(Iterate(order, rules, k))
  {
    var m := Rounds(order, rules, 0);
    RoundsBound(order, rules, 0);
    FixIsIterate(order, rules, 0);
    RoundsFirst(order, rules, 0, k);
    assert m <= k;
    assert AllSatisfied(rules, Iterate(order, rules, m)) || m == MAX_ROUNDS;
    assert m == k;
  }

  /** `fix_order`. The `break` of its inner loop tests the round's starting
    * `order`, which the `while` condition has just found unsatisfied, so it
    * is never taken and every round visits every rule. */
  method FixOrder(order: seq<nat>, rules: seq<OrderingRule>) returns (r: Option<seq<nat>>)
    ensures r == Fix(order, rules, 0)
  {
    var current := order;
    var iterations: nat := 0;
    while !AllSatisfied(rules, current)
      invariant iterations <= MAX_ROUNDS
      invariant Fix(current, rules, iterations) == Fix(order, rules, 0)
      decreases MAX_ROUNDS - iterations
    {
      if iterations > 1024 {
        return None;
      }
      var fixed := current;
      var i := 0;
      while i < |rules|
        invariant 0 <= i <= |rules|
        invariant fixed == RoundOver(current, rules[..i])
      {
        var rule := rules[i];
        RoundOverStep(current, rules, i);
        if !IsSatisfied(rule, current) {
          fixed := Swap(fixed, IndexOf(current, rule.first).value, IndexOf(current, rule.second).value);
        }
        i := i + 1;
        if AllSatisfied(rules, current) {
          break;
        }
      }
      assert rules[..|rules|] == rules;
      current := fixed;
      iterations := iterations + 1;
    }
    return Some(current);
  }

  // ---------------------------------------------------------------------
  // The middle pages of the fixed orders
  // ---------------------------------------------------------------------

  /** `fix_order` of every order, in order. */
  function FixAll(rules: seq<OrderingRule>, orders: seq<seq<nat>>): (fixes: seq<Option<seq<nat>>>)
    ensures |fixes| == |orders|
  {
    if orders == [] then []
    else FixAll(rules, orders[..|orders| - 1]) + [Fix(orders[|orders| - 1], rules, 0)]
  }

  lemma {:induction false} FixAllAt(rules: seq<OrderingRule>, orders: seq<seq<nat>>, i: nat)
    requires i < |orders|
    ensures FixAll(rules, orders)[i] == Fix(orders[i], rules, 0)
  {
    var init := orders[..|orders| - 1];
    assert FixAll(rules, orders) == FixAll(rules, init) + [Fix(orders[|orders| - 1], rules, 0)];
    if i < |init| {
      FixAllAt(rules, init, i);
      assert orders[i] == init[i];
    }
  }

  /** Every fixed order is nonempty, so has a middle page. */
  predicate Filled(fixes: seq<Option<seq<nat>>>)
  {
    forall i :: 0 <= i < |fixes| && fixes[i].Some? ==> |fixes[i].value| >= 1
  }

  lemma FixAllFilled(rules: seq<OrderingRule>, orders: seq<seq<nat>>)
    requires NonEmpty(orders)
    ensures Filled(FixAll(rules, orders))
  {
    forall i | 0 <= i < |orders|
      ensures var r := FixAll(rules, orders)[i]; r.Some? ==> |r.value| >= 1
    {
      FixAllAt(rules, orders, i);
      FixSound(orders[i], rules, 0);
    }
  }

  /** The `fold` of `sum_middle_page_numbers_of_fixed_invalid_print_orders`
    * from `Ok(0)` over the fixed orders: a failed fix is `OrderFixFailed`,
    * else the middle page is added with `checked_add`; the first error
    * sticks. */
  function FixedFold(fixes: seq<Option<seq<nat>>>): Result<nat, Error>
    requires Filled(fixes)
  {
    if fixes == [] then Ok(0)
    else
      var init, last := fixes[..|fixes| - 1], fixes[|fixes| - 1];
      match FixedFold(init)
      case Err(e) => Err(e)
      case Ok(x) =>
        match last
        case None => Err(OrderFixFailed)
        case Some(fixed) =>
          if x + Middle(fixed) <= PAGE_MAX then Ok(x + Middle(fixed)) else Err(IntOverflow)
  }

  predicate AllFixed(fixes: seq<Option<seq<nat>>>)
  {
    forall i :: 0 <= i < |fixes| ==> fixes[i].Some?
  }

  /** The true total of the middle pages of the fixed orders. */
  function FixedTotal(fixes: seq<Option<seq<nat>>>): nat
    requires Filled(fixes) && AllFixed(fixes)
  {
    if fixes == [] then 0
    else FixedTotal(fixes[..|fixes| - 1]) + Middle(fixes[|fixes| - 1].value)
  }

  /** When every order was fixed, the fold gives the true total of their
    * middle pages, or `IntOverflow` when that total does not fit `u32`. */
  lemma {:induction false} FixedFoldIsTotal(fixes: seq<Option<seq<nat>>>)
    requires Filled(fixes) && AllFixed(fixes)
    ensures FixedFold(fixes) == if FixedTotal(fixes) <= PAGE_MAX then Ok(FixedTotal(fixes)) else Err(IntOverflow)
  {
    if fixes != [] {
      FixedFoldIsTotal(fixes[..|fixes| - 1]);
    }
  }

  /** A fold that does not fail had every order fixed. */
  lemma {:induction false} FixedFoldOk(fixes: seq<Option<seq<nat>>>)
    requires Filled(fixes) && FixedFold(fixes).Ok?
    ensures AllFixed(fixes)
  {
    if fixes != [] {
      var init := fixes[..|fixes| - 1];
      FixedFoldOk(init);
      assert forall i :: 0 <= i < |init| ==> fixes[i] == init[i];
    }
  }

  /** Every order was fixed exactly when `fix_order` succeeds on each. */
  lemma AllFixedMeaning(rules: seq<OrderingRule>, orders: seq<seq<nat>>)
    ensures AllFixed(FixAll(rules, orders)) <==> forall o :: o in orders ==> Fix(o, rules, 0).Some?
  {
    var fixes := FixAll(rules, orders);
    if AllFixed(fixes) {
      forall o | o in orders
        ensures Fix(o, rules, 0).Some?
      {
        var i :| 0 <= i < |orders| && orders[i] == o;
        FixAllAt(rules, orders, i);
        assert fixes[i].Some?;
      }
    } else {
      var i :| 0 <= i < |fixes| && fixes[i].None?;
      FixAllAt(rules, orders, i);
      assert orders[i] in orders && Fix(orders[i], rules, 0).None?;
    }
  }

  /** `sum_middle_page_numbers_of_fixed_invalid_print_orders`. */
  function SumMiddlePagesOfFixedOrders(input: string): (r: Result<nat, Error>)
  {
    match ParseInput(input)
    case Err(e) => Err(e)
    case Ok(m) =>
      ParsedNonEmpty(RustText.Lines(input));
      FixAllFilled(m.rules, Rejected(m.rules, m.orders));
      FixedFold(FixAll(m.rules, Rejected(m.rules, m.orders)))
  }

  /** The fixed-order answer: a parse error; else `OrderFixFailed` only if
    * some rejected order cannot be fixed; else the total of the middle
    * pages of the fixed orders, or `IntOverflow` past `u32`. */
  lemma SumMiddlePagesOfFixedOrdersMeaning(input: string)
    ensures var p := ParseInput(input);
      p.Err? ==> SumMiddlePagesOfFixedOrders(input) == Err(p.error)
    ensures var p := ParseInput(input);
      p.Ok? ==> (var fixes := FixAll(p.value.rules, Rejected(p.value.rules, p.value.orders));
                 var r := SumMiddlePagesOfFixedOrders(input);
                 && Filled(fixes)
                 && (r.Ok? ==> AllFixed(fixes) && r.value == FixedTotal(fixes))
                 && (AllFixed(fixes) ==> r != Err(OrderFixFailed))
                 && (AllFixed(fixes) && FixedTotal(fixes) <= PAGE_MAX ==> r.Ok?))
  {
    var p := ParseInput(input);
    if p.Ok? {
      var rejected := Rejected(p.value.rules, p.value.orders);
      ParsedNonEmpty(RustText.Lines(input));
      FixAllFilled(p.value.rules, rejected);
      var fixes := FixAll(p.value.rules, rejected);
      if SumMiddlePagesOfFixedOrders(input).Ok? {
        FixedFoldOk(fixes);
      }
      if AllFixed(fixes) {
        FixedFoldIsTotal(fixes);
      }
    }
  }

  // ---------------------------------------------------------------------
  // The example manual
  // ---------------------------------------------------------------------

  /** The 21 rules of the example manual. */
  const SAMPLE_RULES: seq<OrderingRule> := [OrderingRule(47, 53), OrderingRule(97, 13), OrderingRule(97, 61), OrderingRule(97, 47), OrderingRule(75, 29), OrderingRule(61, 13), OrderingRule(75, 53), OrderingRule(29, 13), OrderingRule(97, 29), OrderingRule(53, 29), OrderingRule(61, 53), OrderingRule(97, 53), OrderingRule(61, 29), OrderingRule(47, 13), OrderingRule(75, 47), OrderingRule(97, 75), OrderingRule(47, 61), OrderingRule(75, 61), OrderingRule(47, 29), OrderingRule(75, 13), OrderingRule(53, 13)]

  /** Rules that hold in a round's starting order make no swap. */
  lemma {:induction false} RoundOverSatisfied(order: seq<nat>, rules: seq<OrderingRule>, i: nat, j: nat)
    requires i <= j <= |rules|
    requires forall k :: i <= k < j ==> IsSatisfied(rules[k], order)
    ensures RoundOver(order, rules[..j]) == RoundOver(order, rules[..i])
    decreases j - i
  {
    if i < j {
      RoundOverSatisfied(order, rules, i, j - 1);
      RoundOverStep(order, rules, j - 1);
    }
  }

  /** A stretch of a round: the rules from `i` to `j - 1` hold and make no
    * swap, then the rule at `j` turns `before` into `after`. */
  lemma RoundOverSegment(order: seq<nat>, rules: seq<OrderingRule>, i: nat, j: nat, before: seq<nat>, after: seq<nat>)
    requires i <= j < |rules| && |before| == |order|
    requires forall k :: i <= k < j ==> IsSatisfied(rules[k], order)
    requires RoundOver(order, rules[..i]) == before && Step(order, before, rules[j]) == after
    ensures RoundOver(order, rules[..j + 1]) == after
  {
    RoundOverSatisfied(order, rules, i, j);
    RoundOverStep(order, rules, j);
  }

  /** The end of a round: the rules from `i` on hold. */
  lemma RoundOverRest(order: seq<nat>, rules: seq<OrderingRule>, i: nat, fixed: seq<nat>)
    requires i <= |rules|
    requires forall k :: i <= k < |rules| ==> IsSatisfied(rules[k], order)
    requires RoundOver(order, rules[..i]) == fixed
    ensures Round(order, rules) == fixed
  {
    RoundOverSatisfied(order, rules, i, |rules|);
    assert rules[..|rules|] == rules;
  }

  lemma RoundOverStart(order: seq<nat>, rules: seq<OrderingRule>)
    ensures RoundOver(order, rules[..0]) == order
  {
    assert rules[..0] == [];
  }

  /** An order that one round fixes. */
  lemma FixedInOneRound(order: seq<nat>, rules: seq<OrderingRule>, fixed: seq<nat>)
    requires !AllSatisfied(rules, order) && Round(order, rules) == fixed && AllSatisfied(rules, fixed)
    ensures Fix(order, rules, 0) == Some(fixed)
  {
    assert Fix(fixed, rules, 1) == Some(fixed);
  }

  lemma Broken(rules: seq<OrderingRule>, order: seq<nat>, k: nat)
    requires k < |rules| && !IsSatisfied(rules[k], order)
    ensures !AllSatisfied(rules, order)
  {
    AllSatisfiedMeaning(rules, order);
  }

  lemma Holds(rules: seq<OrderingRule>, order: seq<nat>)
    requires forall k :: 0 <= k < |rules| ==> IsSatisfied(rules[k], order)
    ensures AllSatisfied(rules, order)
  {
    AllSatisfiedMeaning(rules, order);
  }

  /** Which example rules hold in `[75, 97, 47, 61, 53]`: all but `97|75`. */
  lemma Checks1()
    ensures forall k :: 0 <= k < 15 ==> IsSatisfied(SAMPLE_RULES[k], [75, 97, 47, 61, 53])
    ensures forall k :: 16 <= k < |SAMPLE_RULES| ==> IsSatisfied(SAMPLE_RULES[k], [75, 97, 47, 61, 53])
    ensures !IsSatisfied(SAMPLE_RULES[15], [75, 97, 47, 61, 53])
  {
  }

  lemma Swaps1()
    ensures Step([75, 97, 47, 61, 53], [75, 97, 47, 61, 53], SAMPLE_RULES[15]) == [97, 75, 47, 61, 53]
  {
    assert SAMPLE_RULES[15] == OrderingRule(97, 75);
  }

  lemma Holds1()
    ensures AllSatisfied(SAMPLE_RULES, [97, 75, 47, 61, 53])
  {
    Holds(SAMPLE_RULES, [97, 75, 47, 61, 53]);
  }

  /** The first `fix_orders` example: `97|75` is the one rule broken, and its
    * swap fixes the order. */
  /** The round for `[75, 97, 47, 61, 53]`. */
  lemma Round1()
    ensures Round([75, 97, 47, 61, 53], SAMPLE_RULES) == [97, 75, 47, 61, 53]
  {
    var o, fixed := [75, 97, 47, 61, 53], [97, 75, 47, 61, 53];
    Checks1();
    Swaps1();
    RoundOverStart(o, SAMPLE_RULES);
    RoundOverSegment(o, SAMPLE_RULES, 0, 15, o, fixed);
    RoundOverRest(o, SAMPLE_RULES, 16, fixed);
  }

  lemma FixExample1(rules: seq<OrderingRule>, o: seq<nat>)
    requires rules == SAMPLE_RULES && o == [75, 97, 47, 61, 53]
    ensures Fix(o, rules, 0) == Some([97, 75, 47, 61, 53])
  {
    Broken1(rules, o);
    Round1();
    Holds1();
    FixedInOneRound(o, rules, [97, 75, 47, 61, 53]);
  }

  /** Which example rules hold in `[61, 13, 29]`: all but `29|13`. */
  lemma Checks2()
    ensures forall k :: 0 <= k < 7 ==> IsSatisfied(SAMPLE_RULES[k], [61, 13, 29])
    ensures forall k :: 8 <= k < |SAMPLE_RULES| ==> IsSatisfied(SAMPLE_RULES[k], [61, 13, 29])
    ensures !IsSatisfied(SAMPLE_RULES[7], [61, 13, 29])
  {
  }

  lemma Swaps2()
    ensures Step([61, 13, 29], [61, 13, 29], SAMPLE_RULES[7]) == [61, 29, 13]
  {
    assert SAMPLE_RULES[7] == OrderingRule(29, 13);
  }

  lemma Holds2()
    ensures AllSatisfied(SAMPLE_RULES, [61, 29, 13])
  {
    Holds(SAMPLE_RULES, [61, 29, 13]);
  }

  /** The second `fix_orders` example: `29|13` is the one rule broken. */
  /** The round for `[61, 13, 29]`. */
  lemma Round2()
    ensures Round([61, 13, 29], SAMPLE_RULES) == [61, 29, 13]
  {
    var o, fixed := [61, 13, 29], [61, 29, 13];
    Checks2();
    Swaps2();
    RoundOverStart(o, SAMPLE_RULES);
    RoundOverSegment(o, SAMPLE_RULES, 0, 7, o, fixed);
    RoundOverRest(o, SAMPLE_RULES, 8, fixed);
  }

  lemma FixExample2(rules: seq<OrderingRule>, o: seq<nat>)
    requires rules == SAMPLE_RULES && o == [61, 13, 29]
    ensures Fix(o, rules, 0) == Some([61, 29, 13])
  {
    Broken2(rules, o);
    Round2();
    Holds2();
    FixedInOneRound(o, rules, [61, 29, 13]);
  }

  /** Which example rules hold in `[97, 13, 75, 29, 47]`: all but `29|13`,
    * `47|13`, `47|29` and `75|13`. */
  lemma Checks3a()
    ensures forall k :: 0 <= k < 7 ==> IsSatisfied(SAMPLE_RULES[k], [97, 13, 75, 29, 47])
    ensures forall k :: 8 <= k < 13 ==> IsSatisfied(SAMPLE_RULES[k], [97, 13, 75, 29, 47])
  {
  }

  lemma Checks3b()
    ensures forall k :: 14 <= k < 18 ==> IsSatisfied(SAMPLE_RULES[k], [97, 13, 75, 29, 47])
    ensures forall k :: 20 <= k < |SAMPLE_RULES| ==> IsSatisfied(SAMPLE_RULES[k], [97, 13, 75, 29, 47])
    ensures !IsSatisfied(SAMPLE_RULES[7], [97, 13, 75, 29, 47])
  {
  }

  /** The four swaps, each at the places the two pages have in the round's
    * starting order. */
  lemma Swaps3a()
    ensures Step([97, 13, 75, 29, 47], [97, 13, 75, 29, 47], SAMPLE_RULES[7]) == [97, 29, 75, 13, 47]
  {
    assert SAMPLE_RULES[7] == OrderingRule(29, 13);
  }

  lemma Swaps3b()
    ensures Step([97, 13, 75, 29, 47], [97, 29, 75, 13, 47], SAMPLE_RULES[13]) == [97, 47, 75, 13, 29]
  {
    assert SAMPLE_RULES[13] == OrderingRule(47, 13);
  }

  lemma Swaps3c()
    ensures Step([97, 13, 75, 29, 47], [97, 47, 75, 13, 29], SAMPLE_RULES[18]) == [97, 47, 75, 29, 13]
  {
    assert SAMPLE_RULES[18] == OrderingRule(47, 29);
  }

  lemma Swaps3d()
    ensures Step([97, 13, 75, 29, 47], [97, 47, 75, 29, 13], SAMPLE_RULES[19]) == [97, 75, 47, 29, 13]
  {
    assert SAMPLE_RULES[19] == OrderingRule(75, 13);
  }

  lemma Holds3()
    ensures AllSatisfied(SAMPLE_RULES, [97, 75, 47, 29, 13])
  {
    Holds(SAMPLE_RULES, [97, 75, 47, 29, 13]);
  }

  /** The round for `[97, 13, 75, 29, 47]`. */
  lemma Round3()
    ensures Round([97, 13, 75, 29, 47], SAMPLE_RULES) == [97, 75, 47, 29, 13]
  {
    var o := [97, 13, 75, 29, 47];
    var f1, f2, f3, fixed := [97, 29, 75, 13, 47], [97, 47, 75, 13, 29], [97, 47, 75, 29, 13], [97, 75, 47, 29, 13];
    Checks3a();
    Checks3b();
    Swaps3a();
    Swaps3b();
    Swaps3c();
    Swaps3d();
    RoundOverStart(o, SAMPLE_RULES);
    RoundOverSegment(o, SAMPLE_RULES, 0, 7, o, f1);
    RoundOverSegment(o, SAMPLE_RULES, 8, 13, f1, f2);
    RoundOverSegment(o, SAMPLE_RULES, 14, 18, f2, f3);
    RoundOverSegment(o, SAMPLE_RULES, 19, 19, f3, fixed);
    RoundOverRest(o, SAMPLE_RULES, 20, fixed);
  }

  /** The third `fix_orders` example: four rules are broken, and the round
    * swaps for each of them in turn. */
  lemma FixExample3(rules: seq<OrderingRule>, o: seq<nat>)
    requires rules == SAMPLE_RULES && o == [97, 13, 75, 29, 47]
    ensures Fix(o, rules, 0) == Some([97, 75, 47, 29, 13])
  {
    Broken3(rules, o);
    Round3();
    Holds3();
    FixedInOneRound(o, rules, [97, 75, 47, 29, 13]);
  }

  lemma Holds4(rules: seq<OrderingRule>, o: seq<nat>)
    requires rules == SAMPLE_RULES && o == [75, 47, 61, 53, 29]
    ensures AllSatisfied(rules, o)
  {
    Holds(SAMPLE_RULES, [75, 47, 61, 53, 29]);
  }

  lemma Holds5(rules: seq<OrderingRule>, o: seq<nat>)
    requires rules == SAMPLE_RULES && o == [97, 61, 53, 29, 13]
    ensures AllSatisfied(rules, o)
  {
    Holds(SAMPLE_RULES, [97, 61, 53, 29, 13]);
  }

  lemma Holds6(rules: seq<OrderingRule>, o: seq<nat>)
    requires rules == SAMPLE_RULES && o == [75, 29, 13]
    ensures AllSatisfied(rules, o)
  {
    Holds(SAMPLE_RULES, [75, 29, 13]);
  }

  lemma AcceptedSnoc(rules: seq<OrderingRule>, orders: seq<seq<nat>>, o: seq<nat>)
    ensures Accepted(rules, orders + [o]) == Accepted(rules, orders) + (if AllSatisfied(rules, o) then [o] else [])
    ensures Rejected(rules, orders + [o]) == Rejected(rules, orders) + (if AllSatisfied(rules, o) then [] else [o])
  {
    assert (orders + [o])[..|orders|] == orders;
  }

  lemma Broken1(rules: seq<OrderingRule>, o: seq<nat>)
    requires rules == SAMPLE_RULES && o == [75, 97, 47, 61, 53]
    ensures !AllSatisfied(rules, o)
  {
    Checks1();
    Broken(SAMPLE_RULES, [75, 97, 47, 61, 53], 15);
  }

  lemma Broken2(rules: seq<OrderingRule>, o: seq<nat>)
    requires rules == SAMPLE_RULES && o == [61, 13, 29]
    ensures !AllSatisfied(rules, o)
  {
    Checks2();
    Broken(SAMPLE_RULES, [61, 13, 29], 7);
  }

  lemma Broken3(rules: seq<OrderingRule>, o: seq<nat>)
    requires rules == SAMPLE_RULES && o == [97, 13, 75, 29, 47]
    ensures !AllSatisfied(rules, o)
  {
    Checks3b();
    Broken(SAMPLE_RULES, [97, 13, 75, 29, 47], 7);
  }

  /** Which example orders every rule accepts: the first three. */
  lemma SampleFilters(rules: seq<OrderingRule>, o1: seq<nat>, o2: seq<nat>, o3: seq<nat>, o4: seq<nat>, o5: seq<nat>, o6: seq<nat>)
    requires rules == SAMPLE_RULES
    requires o1 == [75, 47, 61, 53, 29] && o2 == [97, 61, 53, 29, 13] && o3 == [75, 29, 13]
    requires o4 == [75, 97, 47, 61, 53] && o5 == [61, 13, 29] && o6 == [97, 13, 75, 29, 47]
    ensures Accepted(rules, [o1, o2, o3, o4, o5, o6]) == [o1, o2, o3]
    ensures Rejected(rules, [o1, o2, o3, o4, o5, o6]) == [o4, o5, o6]
  {
    Holds4(rules, o1);
    Holds5(rules, o2);
    Holds6(rules, o3);
    Broken1(rules, o4);
    Broken2(rules, o5);
    Broken3(rules, o6);
    FiltersOfSix(rules, o1, o2, o3, o4, o5, o6);
  }

  lemma FiltersOfSix(rules: seq<OrderingRule>, o1: seq<nat>, o2: seq<nat>, o3: seq<nat>, o4: seq<nat>, o5: seq<nat>, o6: seq<nat>)
    requires AllSatisfied(rules, o1) && AllSatisfied(rules, o2) && AllSatisfied(rules, o3)
    requires !AllSatisfied(rules, o4) && !AllSatisfied(rules, o5) && !AllSatisfied(rules, o6)
    ensures Accepted(rules, [o1, o2, o3, o4, o5, o6]) == [o1, o2, o3]
    ensures Rejected(rules, [o1, o2, o3, o4, o5, o6]) == [o4, o5, o6]
  {
    AcceptedSnoc(rules, [], o1);
    assert [] + [o1] == [o1];
    AcceptedSnoc(rules, [o1], o2);
    assert [o1] + [o2] == [o1, o2];
    AcceptedSnoc(rules, [o1, o2], o3);
    assert [o1, o2] + [o3] == [o1, o2, o3];
    AcceptedSnoc(rules, [o1, o2, o3], o4);
    assert [o1, o2, o3] + [o4] == [o1, o2, o3, o4];
    AcceptedSnoc(rules, [o1, o2, o3, o4], o5);
    assert [o1, o2, o3, o4] + [o5] == [o1, o2, o3, o4, o5];
    AcceptedSnoc(rules, [o1, o2, o3, o4, o5], o6);
    assert [o1, o2, o3, o4, o5] + [o6] == [o1, o2, o3, o4, o5, o6];
  }

  lemma MiddleFoldOfThree(a: seq<nat>, b: seq<nat>, c: seq<nat>)
    requires |a| >= 1 && |b| >= 1 && |c| >= 1 && Middle(a) + Middle(b) + Middle(c) <= PAGE_MAX
    ensures MiddleFold([a, b, c]) == Some(Middle(a) + Middle(b) + Middle(c))
  {
    assert [a][..0] == [];
    assert MiddleFold([a]) == Some(Middle(a));
    assert [a, b][..1] == [a];
    assert MiddleFold([a, b]) == Some(Middle(a) + Middle(b));
    assert [a, b, c][..2] == [a, b];
  }

  lemma FixedFoldOfThree(fa: seq<nat>, fb: seq<nat>, fc: seq<nat>)
    requires |fa| >= 1 && |fb| >= 1 && |fc| >= 1 && Middle(fa) + Middle(fb) + Middle(fc) <= PAGE_MAX
    ensures Filled([Some(fa), Some(fb), Some(fc)])
    ensures FixedFold([Some(fa), Some(fb), Some(fc)]) == Ok(Middle(fa) + Middle(fb) + Middle(fc))
  {
    assert [Some(fa)][..0] == [];
    assert FixedFold([Some(fa)]) == Ok(Middle(fa));
    assert [Some(fa), Some(fb)][..1] == [Some(fa)];
    assert FixedFold([Some(fa), Some(fb)]) == Ok(Middle(fa) + Middle(fb));
    assert [Some(fa), Some(fb), Some(fc)][..2] == [Some(fa), Some(fb)];
  }

  /** The `sum` test on the example manual: the middle pages of its three
    * accepted orders add up to 143. */
  lemma SampleValidSum(rules: seq<OrderingRule>, o1: seq<nat>, o2: seq<nat>, o3: seq<nat>, o4: seq<nat>, o5: seq<nat>, o6: seq<nat>)
    requires rules == SAMPLE_RULES
    requires o1 == [75, 47, 61, 53, 29] && o2 == [97, 61, 53, 29, 13] && o3 == [75, 29, 13]
    requires o4 == [75, 97, 47, 61, 53] && o5 == [61, 13, 29] && o6 == [97, 13, 75, 29, 47]
    ensures NonEmpty(Accepted(rules, [o1, o2, o3, o4, o5, o6]))
    ensures MiddleFold(Accepted(rules, [o1, o2, o3, o4, o5, o6])) == Some(143)
  {
    SampleFilters(rules, o1, o2, o3, o4, o5, o6);
    MiddleFoldOfThree(o1, o2, o3);
  }

  /** The `sum_fixed_orders` test on the example manual: the middle pages of
    * its three rejected orders, once fixed, add up to 123. */
  lemma SampleFixedSum(rules: seq<OrderingRule>, o1: seq<nat>, o2: seq<nat>, o3: seq<nat>, o4: seq<nat>, o5: seq<nat>, o6: seq<nat>)
    requires rules == SAMPLE_RULES
    requires o1 == [75, 47, 61, 53, 29] && o2 == [97, 61, 53, 29, 13] && o3 == [75, 29, 13]
    requires o4 == [75, 97, 47, 61, 53] && o5 == [61, 13, 29] && o6 == [97, 13, 75, 29, 47]
    ensures Filled(FixAll(rules, Rejected(rules, [o1, o2, o3, o4, o5, o6])))
    ensures FixedFold(FixAll(rules, Rejected(rules, [o1, o2, o3, o4, o5, o6]))) == Ok(123)
  {
    SampleFilters(rules, o1, o2, o3, o4, o5, o6);
    FixExample1(rules, o4);
    FixExample2(rules, o5);
    FixExample3(rules, o6);
    var f1, f2, f3 := [97, 75, 47, 61, 53], [61, 29, 13], [97, 75, 47, 29, 13];
    SampleMiddles(f1, f2, f3);
    FixedSumOfThree(rules, [o1, o2, o3, o4, o5, o6], o4, o5, o6, f1, f2, f3);
  }

  /** The middle pages of the three fixed example orders: 47, 29 and 47. */
  lemma SampleMiddles(f1: seq<nat>, f2: seq<nat>, f3: seq<nat>)
    requires f1 == [97, 75, 47, 61, 53] && f2 == [61, 29, 13] && f3 == [97, 75, 47, 29, 13]
    ensures |f1| >= 1 && |f2| >= 1 && |f3| >= 1
    ensures Middle(f1) + Middle(f2) + Middle(f3) == 123
  {
  }

  lemma FixedSumOfThree(rules: seq<OrderingRule>, orders: seq<seq<nat>>, a: seq<nat>, b: seq<nat>, c: seq<nat>,
                        fa: seq<nat>, fb: seq<nat>, fc: seq<nat>)
    requires Rejected(rules, orders) == [a, b, c]
    requires Fix(a, rules, 0) == Some(fa) && Fix(b, rules, 0) == Some(fb) && Fix(c, rules, 0) == Some(fc)
    requires |fa| >= 1 && |fb| >= 1 && |fc| >= 1 && Middle(fa) + Middle(fb) + Middle(fc) <= PAGE_MAX
    ensures Filled(FixAll(rules, Rejected(rules, orders)))
    ensures FixedFold(FixAll(rules, Rejected(rules, orders))) == Ok(Middle(fa) + Middle(fb) + Middle(fc))
  {
    assert [a, b, c][..2] == [a, b];
    assert [a, b][..1] == [a];
    assert [a][..0] == [];
    assert FixAll(rules, [a]) == [Some(fa)];
    assert FixAll(rules, [a, b]) == [Some(fa), Some(fb)];
    assert FixAll(rules, [a, b, c]) == [Some(fa), Some(fb), Some(fc)];
    FixedFoldOfThree(fa, fb, fc);
  }
}
