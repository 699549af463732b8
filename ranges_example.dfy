/** The example of the puzzle statement: six pairs of assignments. */
module AssignmentsExample {
  import opened Text
  import opened Assignments

  function ExampleAssignments(): seq<string>
  {
    ["2-4,6-8", "2-3,4-5", "5-7,7-9", "2-8,3-7", "6-6,4-6", "2-6,4-8"]
  }

  /** `2-4,6-8`: neither range contained, not overlapping. */
  lemma Pair0(line: string)
    requires line == "2-4,6-8"
    ensures PairVerdict(FullyContain, line) == Some(0)
    ensures PairVerdict(Overlap, line) == Some(0)
  {
    ParsePairText(2, 4, 6, 8);
    assert PairText(2, 4, 6, 8) == line;
    RangesContain(2, 4, 6, 8);
    RangesOverlap(2, 4, 6, 8);
  }

  /** `2-3,4-5`: neither range contained, not overlapping. */
  lemma Pair1(line: string)
    requires line == "2-3,4-5"
    ensures PairVerdict(FullyContain, line) == Some(0)
    ensures PairVerdict(Overlap, line) == Some(0)
  {
    ParsePairText(2, 3, 4, 5);
    assert PairText(2, 3, 4, 5) == line;
    RangesContain(2, 3, 4, 5);
    RangesOverlap(2, 3, 4, 5);
  }

  /** `5-7,7-9`: neither range contained, and overlapping. */
  lemma Pair2(line: string)
    requires line == "5-7,7-9"
    ensures PairVerdict(FullyContain, line) == Some(0)
    ensures PairVerdict(Overlap, line) == Some(1)
  {
    ParsePairText(5, 7, 7, 9);
    assert PairText(5, 7, 7, 9) == line;
    RangesContain(5, 7, 7, 9);
    RangesOverlap(5, 7, 7, 9);
  }

  /** `2-8,3-7`: one range contained, and overlapping. */
  lemma Pair3(line: string)
    requires line == "2-8,3-7"
    ensures PairVerdict(FullyContain, line) == Some(1)
    ensures PairVerdict(Overlap, line) == Some(1)
  {
    ParsePairText(2, 8, 3, 7);
    assert PairText(2, 8, 3, 7) == line;
    RangesContain(2, 8, 3, 7);
    RangesOverlap(2, 8, 3, 7);
  }

  /** `6-6,4-6`: one range contained, and overlapping. */
  lemma Pair4(line: string)
    requires line == "6-6,4-6"
    ensures PairVerdict(FullyContain, line) == Some(1)
    ensures PairVerdict(Overlap, line) == Some(1)
  {
    ParsePairText(6, 6, 4, 6);
    assert PairText(6, 6, 4, 6) == line;
    RangesContain(6, 6, 4, 6);
    RangesOverlap(6, 6, 4, 6);
  }

  /** `2-6,4-8`: neither range contained, and overlapping. */
  lemma Pair5(line: string)
    requires line == "2-6,4-8"
    ensures PairVerdict(FullyContain, line) == Some(0)
    ensures PairVerdict(Overlap, line) == Some(1)
  {
    ParsePairText(2, 6, 4, 8);
    assert PairText(2, 6, 4, 8) == line;
    RangesContain(2, 6, 4, 8);
    RangesOverlap(2, 6, 4, 8);
  }

  /** The verdicts of the six lines. */
  lemma Verdicts(l0: string, l1: string, l2: string, l3: string, l4: string, l5: string)
    requires l0 == "2-4,6-8" && l1 == "2-3,4-5" && l2 == "5-7,7-9" && l3 == "2-8,3-7" && l4 == "6-6,4-6" && l5 == "2-6,4-8"
    ensures PairVerdict(FullyContain, l0) == Some(0) && PairVerdict(FullyContain, l1) == Some(0) && PairVerdict(FullyContain, l2) == Some(0) && PairVerdict(FullyContain, l3) == Some(1) && PairVerdict(FullyContain, l4) == Some(1) && PairVerdict(FullyContain, l5) == Some(0)
    ensures PairVerdict(Overlap, l0) == Some(0) && PairVerdict(Overlap, l1) == Some(0) && PairVerdict(Overlap, l2) == Some(1) && PairVerdict(Overlap, l3) == Some(1) && PairVerdict(Overlap, l4) == Some(1) && PairVerdict(Overlap, l5) == Some(1)
  {
    Pair0(l0);
    Pair1(l1);
    Pair2(l2);
    Pair3(l3);
    Pair4(l4);
    Pair5(l5);
  }

  /** The total of six lines whose points are known. */
  lemma {:induction false} TotalOfSix(lines: seq<string>, points: string -> Option<int>, a: int, b: int, c: int, d: int, e: int, f: int)
    requires |lines| == 6
    requires points(lines[0]) == Some(a) && points(lines[1]) == Some(b) && points(lines[2]) == Some(c) && points(lines[3]) == Some(d) && points(lines[4]) == Some(e) && points(lines[5]) == Some(f)
    ensures Total(lines, points) == Some(a + b + c + d + e + f)
  {
    assert lines[..0] == [];
    TotalStep(lines, points, 0, 0);
    TotalStep(lines, points, 1, a);
    TotalStep(lines, points, 2, a + b);
    TotalStep(lines, points, 3, a + b + c);
    TotalStep(lines, points, 4, a + b + c + d);
    TotalStep(lines, points, 5, a + b + c + d + e);
    assert lines[..6] == lines;
  }

  /** `test_part_1` and `test_part_2`: in 2 pairs one range contains the
      other, and 4 pairs overlap. */
  lemma {:induction false} ExampleCounts(lines: seq<string>)
    requires lines == ExampleAssignments()
    ensures Count(lines, FullyContain) == Some(2)
    ensures Count(lines, Overlap) == Some(4)
  {
    Verdicts(lines[0], lines[1], lines[2], lines[3], lines[4], lines[5]);
    TotalOfSix(lines, Verdict(FullyContain), 0, 0, 0, 1, 1, 0);
    TotalOfSix(lines, Verdict(Overlap), 0, 0, 1, 1, 1, 1);
  }
}
