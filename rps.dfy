/** Day 2: rock-paper-scissors scored from a strategy guide. Each line of
    the guide names the opponent's shape and a second letter, read either
    as the shape to play (first strategy) or as the outcome wanted (second
    strategy). */
module RockPaperScissors {
  import opened Text

  /** The three shapes, numbered as in the program: ROCK = 0,
      SCISSORS = 1, PAPER = 2. Each shape beats the next one modulo 3. */
  datatype Shape = Rock | Scissors | Paper

  /** The outcome of a round for the player, numbered LOSE = 0, DRAW = 1,
      WIN = 2. */
  datatype Outcome = Lose | Draw | Win

  function ShapeValue(s: Shape): (n: nat)
    ensures n < 3
  {
    match s
    case Rock => 0
    case Scissors => 1
    case Paper => 2
  }

  /** `Shape(n)`: the shape with number `n`. */
  function ShapeOf(n: nat): (s: Shape)
    requires n < 3
    ensures ShapeValue(s) == n
  {
    if n == 0 then Rock else if n == 1 then Scissors else Paper
  }

  function OutcomeValue(o: Outcome): (n: nat)
    ensures n < 3
  {
    match o
    case Lose => 0
    case Draw => 1
    case Win => 2
  }

  /** The rules of the game, independently of any numbering: rock crushes
      scissors, scissors cut paper, paper wraps rock. */
  predicate Beats(a: Shape, b: Shape)
  {
    (a == Rock && b == Scissors) || (a == Scissors && b == Paper) || (a == Paper && b == Rock)
  }

  /** `Shape.score`: the points the shape played is worth. */
  function Score(s: Shape): (r: int)
    ensures 1 <= r <= 3
    ensures s == Rock ==> r == 1
    ensures s == Paper ==> r == 2
    ensures s == Scissors ==> r == 3
  {
    match s
    case Rock => 1
    case Paper => 2
    case Scissors => 3
  }

  /** The three shapes are worth different points. */
  lemma ScoreInjective(a: Shape, b: Shape)
    ensures Score(a) == Score(b) <==> a == b
  {
  }

  /** `me.get_fight_outcome(opponent)`, by the numbering: a draw for equal
      shapes, a win when the opponent's number is one more modulo 3 (the
      remainder is never negative, in Python as in Dafny, since 3 > 0). */
  function FightOutcome(me: Shape, opponent: Shape): Outcome
  {
    if opponent == me then Draw
    else if (ShapeValue(opponent) - ShapeValue(me)) % 3 == 1 then Win
    else Lose
  }

  /** The modular computation follows the rules of the game: the player
      wins exactly when their shape beats the opponent's, loses exactly when
      the opponent's beats theirs, and draws exactly on equal shapes. */
  lemma FightOutcomeFollowsRules(me: Shape, opponent: Shape)
    ensures FightOutcome(me, opponent) == Win <==> Beats(me, opponent)
    ensures FightOutcome(me, opponent) == Lose <==> Beats(opponent, me)
    ensures FightOutcome(me, opponent) == Draw <==> me == opponent
  {
  }

  /** Swapping the players swaps winning and losing. */
  lemma FightOutcomeMirrored(a: Shape, b: Shape)
    ensures FightOutcome(a, b) == Win <==> FightOutcome(b, a) == Lose
    ensures FightOutcome(a, b) == Draw <==> FightOutcome(b, a) == Draw
  {
  }

  /** `opponent.get_shape_from_outcome(outcome)`: the shape to play
      against `opponent` for the outcome wanted. */
  function ShapeForOutcome(opponent: Shape, outcome: Outcome): Shape
  {
    match outcome
    case Win => ShapeOf((ShapeValue(opponent) - 1) % 3)
    case Draw => opponent
    case Lose => ShapeOf((ShapeValue(opponent) + 1) % 3)
  }

  /** The shape chosen for an outcome gives that outcome against the
      opponent, and it is the only shape that does. */
  lemma ShapeForOutcomeRoundTrip(opponent: Shape, outcome: Outcome, me: Shape)
    ensures FightOutcome(ShapeForOutcome(opponent, outcome), opponent) == outcome
    ensures FightOutcome(me, opponent) == outcome <==> me == ShapeForOutcome(opponent, outcome)
  {
  }

  /** `OPPONENT_SHAPE`: the first letter of a line. */
  const OpponentShape: map<string, Shape> := map["A" := Rock, "B" := Paper, "C" := Scissors]

  /** `MY_SHAPE`: the second letter of a line, first strategy. */
  const MyShape: map<string, Shape> := map["X" := Rock, "Y" := Paper, "Z" := Scissors]

  /** `FIGHT_OUTCOME`: the second letter of a line, second strategy. */
  const FightOutcomeOf: map<string, Outcome> := map["X" := Lose, "Y" := Draw, "Z" := Win]

  /** The letter tables are one-to-one: three letters in each column, each
      naming a different shape (or outcome), and each shape (or outcome)
      named by one of them. */
  lemma TablesAreBijective()
    ensures OpponentShape.Keys == {"A", "B", "C"} && OpponentShape.Values == {Rock, Paper, Scissors}
    ensures MyShape.Keys == {"X", "Y", "Z"} && MyShape.Values == {Rock, Paper, Scissors}
    ensures FightOutcomeOf.Keys == {"X", "Y", "Z"} && FightOutcomeOf.Values == {Lose, Draw, Win}
  {
    assert OpponentShape["A"] == Rock && OpponentShape["B"] == Paper && OpponentShape["C"] == Scissors;
    assert MyShape["X"] == Rock && MyShape["Y"] == Paper && MyShape["Z"] == Scissors;
    assert FightOutcomeOf["X"] == Lose && FightOutcomeOf["Y"] == Draw && FightOutcomeOf["Z"] == Win;
  }

  /** The points of one round: three per outcome step plus the shape's. */
  function RoundPoints(me: Shape, opponent: Shape): (r: int)
    ensures 1 <= r <= 9
  {
    3 * OutcomeValue(FightOutcome(me, opponent)) + Score(me)
  }

  /** The points determine both the outcome and the shape played. */
  lemma RoundPointsDecode(me: Shape, opponent: Shape)
    ensures (RoundPoints(me, opponent) - 1) / 3 == OutcomeValue(FightOutcome(me, opponent))
    ensures (RoundPoints(me, opponent) - 1) % 3 + 1 == Score(me)
  {
  }

  /** One line under the first strategy: None when `round.split()` does not
      give exactly two words (ValueError) or a letter is not in its table
      (KeyError). */
  function RoundV1(round: string): Option<int>
  {
    var w := Words(round);
    if |w| != 2 || w[0] !in OpponentShape || w[1] !in MyShape then None
    else Some(RoundPoints(MyShape[w[1]], OpponentShape[w[0]]))
  }

  /** One line under the second strategy: the letter is the outcome wanted;
      the points are three per outcome step plus those of the shape chosen
      for it. */
  function RoundV2(round: string): Option<int>
  {
    var w := Words(round);
    if |w| != 2 || w[0] !in OpponentShape || w[1] !in FightOutcomeOf then None
    else
      var opponent, outcome := OpponentShape[w[0]], FightOutcomeOf[w[1]];
      Some(3 * OutcomeValue(outcome) + Score(ShapeForOutcome(opponent, outcome)))
  }

  /** The second strategy scores a line as the first strategy would score
      the shape it chooses: scoring with the outcome asked for is the same
      as scoring the round actually played. */
  lemma RoundV2IsPlayedRound(round: string)
    ensures var w := Words(round);
      RoundV2(round).Some? <==> |w| == 2 && w[0] in OpponentShape && w[1] in FightOutcomeOf
    ensures var w := Words(round);
      RoundV2(round).Some? ==>
        var opponent := OpponentShape[w[0]];
        RoundV2(round).value == RoundPoints(ShapeForOutcome(opponent, FightOutcomeOf[w[1]]), opponent)
  {
    var w := Words(round);
    if |w| == 2 && w[0] in OpponentShape && w[1] in FightOutcomeOf {
      ShapeForOutcomeRoundTrip(OpponentShape[w[0]], FightOutcomeOf[w[1]], Rock);
    }
  }

  /** Every line that scores, under either strategy, scores 1 to 9. */
  lemma RoundBounds(round: string)
    ensures RoundV1(round).Some? ==> 1 <= RoundV1(round).value <= 9
    ensures RoundV2(round).Some? ==> 1 <= RoundV2(round).value <= 9
  {
    RoundV2IsPlayedRound(round);
  }

  /** The score of a guide exists exactly when every line scores, and
      lies between one and nine points per line. */
  lemma ScoreBounds(rounds: seq<string>)
    ensures Total(rounds, RoundV1).Some? <==> forall k :: 0 <= k < |rounds| ==> RoundV1(rounds[k]).Some?
    ensures Total(rounds, RoundV1).Some? ==> |rounds| <= Total(rounds, RoundV1).value <= 9 * |rounds|
    ensures Total(rounds, RoundV2).Some? <==> forall k :: 0 <= k < |rounds| ==> RoundV2(rounds[k]).Some?
    ensures Total(rounds, RoundV2).Some? ==> |rounds| <= Total(rounds, RoundV2).value <= 9 * |rounds|
  {
    forall l: string {
      RoundBounds(l);
    }
    TotalBounds(rounds, RoundV1, 1, 9);
    TotalBounds(rounds, RoundV2, 1, 9);
  }

  /** `compute_score_v1(rounds)`: None when a line raises. */
  method ComputeScoreV1(rounds: seq<string>) returns (r: Option<int>)
    ensures r == Total(rounds, RoundV1)
  {
    var score := 0;
    for i := 0 to |rounds|
      invariant Total(rounds[..i], RoundV1) == Some(score)
    {
      var points := RoundV1(rounds[i]);
      assert rounds[..i + 1][..i] == rounds[..i];
      if points.None? {
        TotalFailsAfter(rounds, RoundV1, i + 1);
        return None;
      }
      score := score + points.value;
    }
    assert rounds[..|rounds|] == rounds;
    return Some(score);
  }

  /** `compute_score_v2(rounds)`: None when a line raises. */
  method ComputeScoreV2(rounds: seq<string>) returns (r: Option<int>)
    ensures r == Total(rounds, RoundV2)
  {
    var score := 0;
    for i := 0 to |rounds|
      invariant Total(rounds[..i], RoundV2) == Some(score)
    {
      var points := RoundV2(rounds[i]);
      assert rounds[..i + 1][..i] == rounds[..i];
      if points.None? {
        TotalFailsAfter(rounds, RoundV2, i + 1);
        return None;
      }
      score := score + points.value;
    }
    assert rounds[..|rounds|] == rounds;
    return Some(score);
  }
}
