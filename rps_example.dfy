/** The example guide of the puzzle statement: three rounds. */
module RockPaperScissorsExample {
  import opened Text
  import opened RockPaperScissors

  function ExampleRounds(): seq<string>
  {
    ["A Y", "B X", "C Z"]
  }

  /** `round.split()` on a line of two one-letter words. */
  lemma SplitLetters(round: string, a: char, b: char)
    requires round == [a, ' ', b] && !IsSpace(a) && !IsSpace(b)
    ensures Words(round) == [[a], [b]]
  {
    assert round == [a] + " " + [b];
    WordsOfTwo([a], [b]);
  }

  /** Total of three lines whose points are known. */
  lemma TotalOfThree(rounds: seq<string>, points: string -> Option<int>, x: int, y: int, z: int)
    requires |rounds| == 3
    requires points(rounds[0]) == Some(x) && points(rounds[1]) == Some(y) && points(rounds[2]) == Some(z)
    ensures Total(rounds, points) == Some(x + y + z)
  {
    var one, two := rounds[..1], rounds[..2];
    assert one[..0] == [] && one[0] == rounds[0];
    assert Total(one, points) == Some(x);
    assert two[..1] == one && two[1] == rounds[1];
    assert Total(two, points) == Some(x + y);
    assert rounds[..2] == two;
  }

  /** `test_part_1`: the first strategy scores 8 + 1 + 6 = 15. */
  lemma ExampleScoreV1()
    ensures Total(ExampleRounds(), RoundV1) == Some(15)
  {
    var rounds := ExampleRounds();
    SplitLetters(rounds[0], 'A', 'Y');
    SplitLetters(rounds[1], 'B', 'X');
    SplitLetters(rounds[2], 'C', 'Z');
    assert RoundV1(rounds[0]) == Some(8);
    assert RoundV1(rounds[1]) == Some(1);
    assert RoundV1(rounds[2]) == Some(6);
    TotalOfThree(rounds, RoundV1, 8, 1, 6);
  }

  /** `test_part_2`: the second strategy scores 4 + 1 + 7 = 12. */
  lemma ExampleScoreV2()
    ensures Total(ExampleRounds(), RoundV2) == Some(12)
  {
    var rounds := ExampleRounds();
    SplitLetters(rounds[0], 'A', 'Y');
    SplitLetters(rounds[1], 'B', 'X');
    SplitLetters(rounds[2], 'C', 'Z');
    assert RoundV2(rounds[0]) == Some(4);
    assert RoundV2(rounds[1]) == Some(1);
    assert RoundV2(rounds[2]) == Some(7);
    TotalOfThree(rounds, RoundV2, 4, 1, 7);
  }
}
