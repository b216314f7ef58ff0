/**
 * 2022 day 2 (`year_2022/day02.rs`): a strategy guide for rock paper
 * scissors, one round per line, the opponent's letter (A, B, C) and then the
 * second letter. Read as a shape (X, Y, Z) or as the outcome wanted for the
 * right-hand player (X lose, Y draw, Z win), the rounds are scored for both
 * players and summed.
 */
module Year2022Day02 {
  import opened Wrappers
  import MachineInt
  import RustText

  const I32_MAX: int := MachineInt.I32_MAX

  datatype Choice = Rock | Paper | Scissors

  /** Both players' points. */
  datatype PlayerScore = PlayerScore(left: int, right: int)

  /** `ParseRockPaperScissorsError`: the line that could not be read. */
  datatype ParseError = ParseError(line: string)

  /** The rule of the game: rock blunts scissors, scissors cut paper, paper
    * wraps rock. */
  predicate Beats(a: Choice, b: Choice)
  {
    (a == Rock && b == Scissors) || (a == Scissors && b == Paper) || (a == Paper && b == Rock)
  }

  /** `get_shape_score`. */
  function ShapeScore(shape: Choice): (s: int)
    ensures 1 <= s <= 3
  {
    match shape
    case Rock => 1
    case Paper => 2
    case Scissors => 3
  }

  /** Each shape beats the one whose score is one below it, counted round
    * three. */
  lemma BeatsByScore(a: Choice, b: Choice)
    ensures Beats(a, b) <==> (ShapeScore(a) - ShapeScore(b)) % 3 == 1
  {
  }

  /** Points one player gets for the outcome of a round. */
  function OutcomeScore(mine: Choice, theirs: Choice): int
  {
    if Beats(mine, theirs) then 6 else if mine == theirs then 3 else 0
  }

  /** `get_score`: each side scores its shape, plus 3 each on a draw, plus 6
    * to the winner. */
  function GetScore(left: Choice, right: Choice): (r: PlayerScore)
    ensures r.left == ShapeScore(left) + OutcomeScore(left, right)
    ensures r.right == ShapeScore(right) + OutcomeScore(right, left)
  {
    var leftScore := ShapeScore(left);
    var rightScore := ShapeScore(right);
    match left
    case Rock => (
      match right
      case Rock => PlayerScore(leftScore + 3, rightScore + 3)
      case Paper => PlayerScore(leftScore, rightScore + 6)
      case Scissors => PlayerScore(leftScore + 6, rightScore))
    case Paper => (
      match right
      case Rock => PlayerScore(leftScore + 6, rightScore)
      case Paper => PlayerScore(leftScore + 3, rightScore + 3)
      case Scissors => PlayerScore(leftScore, rightScore + 6))
    case Scissors => (
      match right
      case Rock => PlayerScore(leftScore, rightScore + 6)
      case Paper => PlayerScore(leftScore + 6, rightScore)
      case Scissors => PlayerScore(leftScore + 3, rightScore + 3))
  }

  /** Exactly one of win, draw and loss; a round is worth 6 outcome points in
    * all, and each player gets between 1 and 9. */
  lemma ScoreOutcomes(left: Choice, right: Choice)
    ensures var r := GetScore(left, right);
      1 <= r.left <= 9 && 1 <= r.right <= 9 &&
      r.left + r.right == ShapeScore(left) + ShapeScore(right) + 6 &&
      (Beats(left, right) ==> r.left - ShapeScore(left) == 6 && r.right == ShapeScore(right)) &&
      (left == right ==> r.left == r.right == ShapeScore(left) + 3)
  {
  }

  /** The nine `check_outcomes` cases. */
  lemma ScoreCases()
    ensures GetScore(Rock, Rock) == PlayerScore(4, 4) && GetScore(Rock, Paper) == PlayerScore(1, 8)
    ensures GetScore(Rock, Scissors) == PlayerScore(7, 3) && GetScore(Paper, Rock) == PlayerScore(8, 1)
    ensures GetScore(Paper, Paper) == PlayerScore(5, 5) && GetScore(Paper, Scissors) == PlayerScore(2, 9)
    ensures GetScore(Scissors, Rock) == PlayerScore(3, 7) && GetScore(Scissors, Paper) == PlayerScore(9, 2)
    ensures GetScore(Scissors, Scissors) == PlayerScore(6, 6)
  {
  }

  /** Swapping the players swaps their points. */
  lemma ScoreSymmetric(a: Choice, b: Choice)
    ensures GetScore(a, b).left == GetScore(b, a).right
    ensures GetScore(a, b).right == GetScore(b, a).left
  {
  }

  /** `PlayerScore += PlayerScore`. */
  function Add(a: PlayerScore, b: PlayerScore): PlayerScore
  {
    PlayerScore(a.left + b.left, a.right + b.right)
  }

  /** The opponent's letter. */
  function Opponent(word: string): Option<Choice>
  {
    if |word| != 1 then None
    else
      match word[0]
      case 'A' => Some(Rock)
      case 'B' => Some(Paper)
      case 'C' => Some(Scissors)
      case _ => None
  }

  /** The second letter, read as a shape. */
  function Shape(word: string): Option<Choice>
  {
    if |word| != 1 then None
    else
      match word[0]
      case 'X' => Some(Rock)
      case 'Y' => Some(Paper)
      case 'Z' => Some(Scissors)
      case _ => None
  }

  /** The second letter, read as the outcome the right player wants against
    * `left`. */
  function Response(left: Choice, word: string): Option<Choice>
  {
    if |word| != 1 then None
    else
      match word[0]
      case 'X' => Some(match left case Rock => Scissors case Paper => Rock case Scissors => Paper)
      case 'Y' => Some(left)
      case 'Z' => Some(match left case Rock => Paper case Paper => Scissors case Scissors => Rock)
      case _ => None
  }

  /** `parse_choices1`: the first two whitespace-separated words, each one
    * letter; what follows them is not looked at. */
  function ParseChoices1(line: string): (r: Result<(Choice, Choice), ParseError>)
    ensures r.Err? ==> r.error == ParseError(line)
  {
    var words := RustText.SplitWhitespace(line);
    if |words| < 1 then Err(ParseError(line))
    else
      match Opponent(words[0])
      case None => Err(ParseError(line))
      case Some(left) =>
        if |words| < 2 then Err(ParseError(line))
        else
          match Shape(words[1])
          case None => Err(ParseError(line))
          case Some(right) => Ok((left, right))
  }

  /** `parse_choices2`: as `parse_choices1`, with the second letter chosen
    * the shape that loses (X), draws (Y) or wins (Z) against the first. */
  function ParseChoices2(line: string): (r: Result<(Choice, Choice), ParseError>)
    ensures r.Err? ==> r.error == ParseError(line)
  {
    var words := RustText.SplitWhitespace(line);
    if |words| < 1 then Err(ParseError(line))
    else
      match Opponent(words[0])
      case None => Err(ParseError(line))
      case Some(left) =>
        if |words| < 2 then Err(ParseError(line))
        else
          match Response(left, words[1])
          case None => Err(ParseError(line))
          case Some(right) => Ok((left, right))
  }

  /** The first two words are a letter from A to C and a letter from X to Z. */
  predicate WellFormed(line: string)
  {
    var words := RustText.SplitWhitespace(line);
    |words| >= 2 && |words[0]| == 1 && |words[1]| == 1 &&
    words[0][0] in "ABC" && words[1][0] in "XYZ"
  }

  /** Both readings accept exactly the well-formed lines, agree on the
    * opponent's shape, and the second reading gives the right player the
    * outcome its letter asks for. */
  lemma ParseChoicesMeaning(line: string)
    ensures ParseChoices1(line).Ok? <==> WellFormed(line)
    ensures ParseChoices2(line).Ok? <==> WellFormed(line)
    ensures WellFormed(line) ==>
      var words := RustText.SplitWhitespace(line);
      var (a, b) := ParseChoices1(line).value;
      var (c, d) := ParseChoices2(line).value;
      a == c && b == Shape(words[1]).value &&
      (words[1][0] == 'X' ==> Beats(c, d)) &&
      (words[1][0] == 'Y' ==> d == c) &&
      (words[1][0] == 'Z' ==> Beats(d, c))
  {
  }

  /** The letters for a round. */
  function OpponentLetter(c: Choice): char
  {
    match c case Rock => 'A' case Paper => 'B' case Scissors => 'C'
  }

  function ShapeLetter(c: Choice): char
  {
    match c case Rock => 'X' case Paper => 'Y' case Scissors => 'Z'
  }

  /** Each letter reads back as the shape or outcome it was written for. */
  lemma LetterReadings(a: Choice, b: Choice)
    ensures Opponent([OpponentLetter(a)]) == Some(a)
    ensures Shape([ShapeLetter(b)]) == Some(b)
    ensures Response(a, [OutcomeLetter(a, b)]) == Some(b)
  {
    var x, y, z := [OpponentLetter(a)], [ShapeLetter(b)], [OutcomeLetter(a, b)];
    assert x[0] == OpponentLetter(a) && y[0] == ShapeLetter(b) && z[0] == OutcomeLetter(a, b);
  }

  /** Whitespace, then two one-letter words, splits into those words. */
  lemma {:induction false} SplitTwoLetters(pad: string, a: char, b: char)
    requires forall i :: 0 <= i < |pad| ==> RustText.IsWhitespace(pad[i])
    requires !RustText.IsWhitespace(a) && !RustText.IsWhitespace(b)
    ensures RustText.SplitWhitespace(pad + [a, ' ', b]) == [[a], [b]]
  {
    var s := pad + [a, ' ', b];
    if pad == [] {
      assert s == [a, ' ', b];
      var t := s[1..];
      assert t == [' ', b] && t[1..] == [b] && [b][1..] == [] && [b][..1] == [b] && s[..1] == [a];
      assert RustText.WordLength(t) == 0;
      assert RustText.WordLength(s) == 1;
      assert RustText.WordLength([b]) == 1;
      assert RustText.TrimStart(s) == s;
      assert RustText.TrimStart([b]) == [b];
      assert RustText.TrimStart(t) == [b];
      assert RustText.SplitWhitespace([b]) == [[b]];
      assert RustText.SplitWhitespace(t) == [[b]];
    } else {
      assert s[1..] == pad[1..] + [a, ' ', b];
      SplitTwoLetters(pad[1..], a, b);
      TrimStartSkips(s);
    }
  }

  /** Two one-letter words with a space between them. */
  lemma SplitLetters(x: char, y: char)
    requires !RustText.IsWhitespace(x) && !RustText.IsWhitespace(y)
    ensures RustText.SplitWhitespace([x, ' ', y]) == [[x], [y]]
  {
    SplitTwoLetters("", x, y);
    assert "" + [x, ' ', y] == [x, ' ', y];
  }

  /** Splitting skips a leading whitespace character. */
  lemma TrimStartSkips(s: string)
    requires s != "" && RustText.IsWhitespace(s[0])
    ensures RustText.SplitWhitespace(s) == RustText.SplitWhitespace(s[1..])
  {
  }

  /** Reading a round written as its two letters gives it back. */
  lemma ParseChoices1RoundTrip(a: Choice, b: Choice)
    ensures ParseChoices1([OpponentLetter(a), ' ', ShapeLetter(b)]) == Ok((a, b))
  {
    SplitLetters(OpponentLetter(a), ShapeLetter(b));
    LetterReadings(a, b);
  }

  /** Which letter of a guide `parse_choices2` reads: the one for the outcome. */
  function OutcomeLetter(left: Choice, right: Choice): char
  {
    if Beats(left, right) then 'X' else if left == right then 'Y' else 'Z'
  }

  /** Writing the outcome's letter and reading it back with
    * `parse_choices2` gives the round back. */
  lemma ParseChoices2RoundTrip(a: Choice, b: Choice)
    ensures ParseChoices2([OpponentLetter(a), ' ', OutcomeLetter(a, b)]) == Ok((a, b))
  {
    SplitLetters(OpponentLetter(a), OutcomeLetter(a, b));
    LetterReadings(a, b);
  }

  /** A line parser: `parse_choices1` or `parse_choices2`. */
  type Parser = string -> Result<(Choice, Choice), ParseError>

  predicate AllParse(parse: Parser, lines: seq<string>)
  {
    forall i :: 0 <= i < |lines| ==> parse(lines[i]).Ok?
  }

  /** The index of the first line that does not parse, or `|lines|`. */
  function FirstBad(parse: Parser, lines: seq<string>): (k: nat)
    ensures k <= |lines| && AllParse(parse, lines[..k])
    ensures k < |lines| ==> parse(lines[k]).Err?
    decreases |lines|
  {
    if lines == [] then 0
    else if parse(lines[0]).Err? then 0
    else
      var k := FirstBad(parse, lines[1..]);
      assert forall i :: 1 <= i < 1 + k ==> lines[i] == lines[1..][..k][i - 1];
      1 + k
  }

  /** The rounds the lines describe. */
  function Rounds(parse: Parser, lines: seq<string>): (rounds: seq<(Choice, Choice)>)
    requires AllParse(parse, lines)
    ensures |rounds| == |lines|
    ensures forall i :: 0 <= i < |lines| ==> parse(lines[i]) == Ok(rounds[i])
  {
    seq(|lines|, i requires 0 <= i < |lines| => parse(lines[i]).value)
  }

  /** The sum of the rounds' points. */
  function Points(rounds: seq<(Choice, Choice)>): PlayerScore
  {
    if rounds == [] then PlayerScore(0, 0)
    else Add(GetScore(rounds[0].0, rounds[0].1), Points(rounds[1..]))
  }

  /** What the score functions compute: the error for the first line that
    * does not parse, or the sum over all rounds. */
  function Total(parse: Parser, lines: seq<string>): Result<PlayerScore, ParseError>
  {
    var k := FirstBad(parse, lines);
    if k < |lines| then Err(parse(lines[k]).error)
    else
      assert lines[..k] == lines;
      Ok(Points(Rounds(parse, lines)))
  }

  /** One more round adds its points at the end. */
  lemma {:induction false} PointsSnoc(rounds: seq<(Choice, Choice)>, c: (Choice, Choice))
    ensures Points(rounds + [c]) == Add(Points(rounds), GetScore(c.0, c.1))
  {
    if rounds == [] {
      assert ([] + [c])[1..] == [];
    } else {
      assert (rounds + [c])[1..] == rounds[1..] + [c];
      PointsSnoc(rounds[1..], c);
    }
  }

  /** Each round is worth 1 to 9 points to each player. */
  lemma {:induction false} PointsBound(rounds: seq<(Choice, Choice)>)
    ensures var p := Points(rounds);
      |rounds| <= p.left <= 9 * |rounds| && |rounds| <= p.right <= 9 * |rounds|
  {
    if rounds != [] {
      PointsBound(rounds[1..]);
      ScoreOutcomes(rounds[0].0, rounds[0].1);
    }
  }

  /** The running sums before the first bad line fit an `i32`: the `+=`
    * does not overflow. */
  predicate NoOverflow(parse: Parser, lines: seq<string>)
  {
    var k := FirstBad(parse, lines);
    forall i :: 0 <= i <= k ==>
      AllParse(parse, lines[..i]) &&
      Points(Rounds(parse, lines[..i])).left <= I32_MAX &&
      Points(Rounds(parse, lines[..i])).right <= I32_MAX
  }

  lemma PrefixParses(parse: Parser, lines: seq<string>, i: nat)
    requires i <= FirstBad(parse, lines)
    ensures AllParse(parse, lines[..i])
  {
    var k := FirstBad(parse, lines);
    assert forall j :: 0 <= j < i ==> lines[..i][j] == lines[..k][j];
  }

  /** Fewer lines than `i32::MAX / 9` can never overflow. */
  lemma ShortNoOverflow(parse: Parser, lines: seq<string>)
    requires 9 * |lines| <= I32_MAX
    ensures NoOverflow(parse, lines)
  {
    forall i | 0 <= i <= FirstBad(parse, lines)
      ensures AllParse(parse, lines[..i])
      ensures Points(Rounds(parse, lines[..i])).left <= I32_MAX
      ensures Points(Rounds(parse, lines[..i])).right <= I32_MAX
    {
      PrefixParses(parse, lines, i);
      PointsBound(Rounds(parse, lines[..i]));
    }
  }

  lemma PrefixSnoc(lines: seq<string>, i: nat)
    requires i < |lines|
    ensures lines[..i + 1] == lines[..i] + [lines[i]]
  {
  }

  /** A parsed line adds its round at the end. */
  lemma RoundsSnoc(parse: Parser, lines: seq<string>, line: string)
    requires AllParse(parse, lines) && parse(line).Ok?
    ensures AllParse(parse, lines + [line])
    ensures Rounds(parse, lines + [line]) == Rounds(parse, lines) + [parse(line).value]
  {
    var all := lines + [line];
    assert forall i :: 0 <= i < |lines| ==> all[i] == lines[i];
  }

  /** The loop both score functions share, over `input.lines()`. */
  method Play(parse: Parser, input: string) returns (result: Result<PlayerScore, ParseError>)
    requires NoOverflow(parse, RustText.Lines(input))
    ensures result == Total(parse, RustText.Lines(input))
  {
    var lines := RustText.Lines(input);
    var score := PlayerScore(0, 0);
    assert lines[..0] == [];
    for i := 0 to |lines|
      invariant i <= FirstBad(parse, lines) && AllParse(parse, lines[..i])
      invariant score == Points(Rounds(parse, lines[..i]))
    {
      var line := lines[i];
      var choices := parse(line);
      if choices.Err? {
        FirstBadAt(parse, lines, i);
        return Err(choices.error);
      }
      var left, right := choices.value.0, choices.value.1;
      PrefixSnoc(lines, i);
      RoundsSnoc(parse, lines[..i], line);
      PointsSnoc(Rounds(parse, lines[..i]), (left, right));
      var round := GetScore(left, right);
      // Both sums stay in range: a debug build would panic otherwise.
      assert score.left + round.left <= I32_MAX && score.right + round.right <= I32_MAX;
      score := Add(score, round);
    }
    TotalOk(parse, lines);
    return Ok(score);
  }

  /** A line that does not parse, with none before it, is where the total
    * stops. */
  lemma FirstBadAt(parse: Parser, lines: seq<string>, i: nat)
    requires i <= FirstBad(parse, lines) && i < |lines| && parse(lines[i]).Err?
    ensures Total(parse, lines) == Err(parse(lines[i]).error)
  {
    ParsesBeforeFirstBad(parse, lines, i);
    assert FirstBad(parse, lines) == i;
  }

  lemma ParsesBeforeFirstBad(parse: Parser, lines: seq<string>, j: nat)
    requires j < |lines|
    ensures j < FirstBad(parse, lines) ==> parse(lines[j]).Ok?
  {
    var k := FirstBad(parse, lines);
    if j < k {
      assert lines[..k][j] == lines[j];
    }
  }

  /** With every line parsed, the total is the sum of the rounds. */
  lemma TotalOk(parse: Parser, lines: seq<string>)
    requires FirstBad(parse, lines) == |lines|
    ensures lines[..|lines|] == lines
    ensures AllParse(parse, lines) && Total(parse, lines) == Ok(Points(Rounds(parse, lines)))
  {
    assert lines[..|lines|] == lines;
  }

  /** `get_rock_paper_scissors_score1`. */
  method GetRockPaperScissorsScore1(input: string) returns (result: Result<PlayerScore, ParseError>)
    requires NoOverflow(ParseChoices1, RustText.Lines(input))
    ensures result == Total(ParseChoices1, RustText.Lines(input))
  {
    result := Play(ParseChoices1, input);
  }

  /** `get_rock_paper_scissors_score2`. */
  method GetRockPaperScissorsScore2(input: string) returns (result: Result<PlayerScore, ParseError>)
    requires NoOverflow(ParseChoices2, RustText.Lines(input))
    ensures result == Total(ParseChoices2, RustText.Lines(input))
  {
    result := Play(ParseChoices2, input);
  }

  /** The total is an error exactly when some line does not parse, and then
    * it names the first such line. */
  lemma TotalError(parse: Parser, lines: seq<string>)
    ensures Total(parse, lines).Err? <==> exists i :: 0 <= i < |lines| && parse(lines[i]).Err?
    ensures Total(parse, lines).Err? ==>
      exists i :: 0 <= i < |lines| && AllParse(parse, lines[..i]) &&
        parse(lines[i]).Err? && Total(parse, lines) == Err(parse(lines[i]).error)
  {
    var k := FirstBad(parse, lines);
    if k == |lines| {
      assert lines[..k] == lines;
    }
  }

  /** Lines whose rounds are all known add up to the points of those rounds. */
  lemma TotalOfRounds(parse: Parser, lines: seq<string>, rounds: seq<(Choice, Choice)>)
    requires |rounds| == |lines|
    requires forall i :: 0 <= i < |lines| ==> parse(lines[i]) == Ok(rounds[i])
    ensures Total(parse, lines) == Ok(Points(rounds))
  {
    assert AllParse(parse, lines);
    FirstBadAll(parse, lines);
    TotalOk(parse, lines);
    assert Rounds(parse, lines) == rounds;
  }

  lemma FirstBadAll(parse: Parser, lines: seq<string>)
    requires AllParse(parse, lines)
    ensures FirstBad(parse, lines) == |lines|
  {
  }

  /** Three lines whose rounds are known. */
  lemma TotalThree(parse: Parser, l0: string, l1: string, l2: string,
                   r0: (Choice, Choice), r1: (Choice, Choice), r2: (Choice, Choice))
    requires parse(l0) == Ok(r0)
    requires parse(l1) == Ok(r1)
    requires parse(l2) == Ok(r2)
    ensures Total(parse, [l0, l1, l2]) == Ok(Points([r0, r1, r2]))
  {
    TotalOfRounds(parse, [l0, l1, l2], [r0, r1, r2]);
  }

  /** The points of three rounds. */
  lemma PointsThree(a: (Choice, Choice), b: (Choice, Choice), c: (Choice, Choice))
    ensures Points([a, b, c]) == Add(GetScore(a.0, a.1), Add(GetScore(b.0, b.1), Add(GetScore(c.0, c.1), PlayerScore(0, 0))))
  {
    assert [c] + [] == [c];
    PointsCons(c, []);
    assert [b] + [c] == [b, c];
    PointsCons(b, [c]);
    assert [a] + [b, c] == [a, b, c];
    PointsCons(a, [b, c]);
  }

  /** The points of a round followed by more rounds. */
  lemma PointsCons(r: (Choice, Choice), rest: seq<(Choice, Choice)>)
    ensures Points([r] + rest) == Add(GetScore(r.0, r.1), Points(rest))
  {
    assert ([r] + rest)[1..] == rest;
  }

  /** The sample guide splits into its three lines, the last two indented. */
  lemma SampleLines(guide: string)
    requires guide == "A Y" + "\n" + (("        " + "B X") + "\n" + ("        " + "C Z"))
    ensures RustText.Lines(guide) == ["A Y", "        " + "B X", "        " + "C Z"]
  {
    RustText.LinesOfLine("        " + "C Z");
    RustText.LinesCons("        " + "B X", "        " + "C Z");
    RustText.LinesCons("A Y", ("        " + "B X") + "\n" + ("        " + "C Z"));
  }

  /** An indented round of two letters. */
  lemma IndentedLetters(x: char, y: char)
    requires !RustText.IsWhitespace(x) && !RustText.IsWhitespace(y)
    ensures RustText.SplitWhitespace("        " + [x, ' ', y]) == [[x], [y]]
  {
    SplitTwoLetters("        ", x, y);
  }

  /** The sample's three rounds under both readings. */
  lemma SampleRound1(line: string)
    requires line == "A Y"
    ensures ParseChoices1(line) == Ok((Rock, Paper)) && ParseChoices2(line) == Ok((Rock, Rock))
  {
    SplitLetters('A', 'Y');
    LetterReadings(Rock, Paper);
    LetterReadings(Rock, Rock);
  }

  lemma SampleRound2(line: string)
    requires line == ("        " + "B X")
    ensures ParseChoices1(line) == Ok((Paper, Rock)) && ParseChoices2(line) == Ok((Paper, Rock))
  {
    IndentedLetters('B', 'X');
    LetterReadings(Paper, Rock);
  }

  lemma SampleRound3(line: string)
    requires line == ("        " + "C Z")
    ensures ParseChoices1(line) == Ok((Scissors, Scissors)) && ParseChoices2(line) == Ok((Scissors, Rock))
  {
    IndentedLetters('C', 'Z');
    LetterReadings(Scissors, Scissors);
    LetterReadings(Scissors, Rock);
  }

  /** The sample: 15 points to the right player when the second letter is
    * a shape, 12 when it is an outcome. */
  lemma GuideTotals(guide: string)
    requires guide == "A Y" + "\n" + (("        " + "B X") + "\n" + ("        " + "C Z"))
    ensures Total(ParseChoices1, RustText.Lines(guide)) == Ok(PlayerScore(15, 15))
    ensures Total(ParseChoices2, RustText.Lines(guide)) == Ok(PlayerScore(15, 12))
  {
    SampleLines(guide);
    var lines := RustText.Lines(guide);
    GuideLineTotals(lines[0], lines[1], lines[2]);
    assert lines == [lines[0], lines[1], lines[2]];
  }

  /** The points of the sample's lines. */
  lemma GuideLineTotals(l0: string, l1: string, l2: string)
    requires l0 == "A Y" && l1 == ("        " + "B X") && l2 == ("        " + "C Z")
    ensures Total(ParseChoices1, [l0, l1, l2]) == Ok(PlayerScore(15, 15))
    ensures Total(ParseChoices2, [l0, l1, l2]) == Ok(PlayerScore(15, 12))
  {
    SampleRound1(l0);
    SampleRound2(l1);
    SampleRound3(l2);
    ShapeGuideTotal(l0, l1, l2);
    OutcomeGuideTotal(l0, l1, l2);
  }

  /** The sample's rounds read as shapes: 8 + 1 + 6 points to the right
    * player, 1 + 8 + 6 to the left. */
  lemma ShapeGuideTotal(l0: string, l1: string, l2: string)
    requires ParseChoices1(l0) == Ok((Rock, Paper))
    requires ParseChoices1(l1) == Ok((Paper, Rock))
    requires ParseChoices1(l2) == Ok((Scissors, Scissors))
    ensures Total(ParseChoices1, [l0, l1, l2]) == Ok(PlayerScore(15, 15))
  {
    TotalThree(ParseChoices1, l0, l1, l2, (Rock, Paper), (Paper, Rock), (Scissors, Scissors));
    ShapePoints((Rock, Paper), (Paper, Rock), (Scissors, Scissors));
  }

  /** The sample's rounds read as outcomes: 4 + 1 + 7 points to the right
    * player. */
  lemma OutcomeGuideTotal(l0: string, l1: string, l2: string)
    requires ParseChoices2(l0) == Ok((Rock, Rock))
    requires ParseChoices2(l1) == Ok((Paper, Rock))
    requires ParseChoices2(l2) == Ok((Scissors, Rock))
    ensures Total(ParseChoices2, [l0, l1, l2]) == Ok(PlayerScore(15, 12))
  {
    TotalThree(ParseChoices2, l0, l1, l2, (Rock, Rock), (Paper, Rock), (Scissors, Rock));
    OutcomePoints((Rock, Rock), (Paper, Rock), (Scissors, Rock));
  }

  /** The points of the sample's rounds, read as shapes and as outcomes. */
  lemma ShapePoints(a: (Choice, Choice), b: (Choice, Choice), c: (Choice, Choice))
    requires a == (Rock, Paper) && b == (Paper, Rock) && c == (Scissors, Scissors)
    ensures Points([a, b, c]) == PlayerScore(15, 15)
  {
    assert GetScore(a.0, a.1) == PlayerScore(1, 8);
    assert GetScore(b.0, b.1) == PlayerScore(8, 1);
    assert GetScore(c.0, c.1) == PlayerScore(6, 6);
    PointsThree(a, b, c);
  }

  lemma OutcomePoints(a: (Choice, Choice), b: (Choice, Choice), c: (Choice, Choice))
    requires a == (Rock, Rock) && b == (Paper, Rock) && c == (Scissors, Rock)
    ensures Points([a, b, c]) == PlayerScore(15, 12)
  {
    assert GetScore(a.0, a.1) == PlayerScore(4, 4);
    assert GetScore(b.0, b.1) == PlayerScore(8, 1);
    assert GetScore(c.0, c.1) == PlayerScore(3, 7);
    PointsThree(a, b, c);
  }

  /** `AY` is one word of two letters: no round. */
  lemma TwoLetterWord()
    ensures RustText.SplitWhitespace("AY") == ["AY"]
    ensures ParseChoices1("AY").Err? && ParseChoices2("AY").Err?
  {
    var s := "AY";
    assert s[1..] == "Y" && s[1..][1..] == "";
    assert RustText.WordLength(s) == 2;
    assert s[..2] == s && s[2..] == "";
  }

  /** The faulty sample: both readings report the first line, `AY`. */
  lemma FaultyGuide(guide: string)
    requires guide == "AY" + "\n" + (("        " + "B X") + "\n" + ("        " + "C Z"))
    ensures Total(ParseChoices1, RustText.Lines(guide)) == Err(ParseError("AY"))
    ensures Total(ParseChoices2, RustText.Lines(guide)) == Err(ParseError("AY"))
  {
    RustText.LinesOfLine("        " + "C Z");
    RustText.LinesCons("        " + "B X", "        " + "C Z");
    RustText.LinesCons("AY", ("        " + "B X") + "\n" + ("        " + "C Z"));
    TwoLetterWord();
    var lines := RustText.Lines(guide);
    FirstBadAt(ParseChoices1, lines, 0);
    FirstBadAt(ParseChoices2, lines, 0);
  }
}
