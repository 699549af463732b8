/** Day 4: pairs of section assignments. Each line `a-b,c-d` names two
    ranges of section numbers; the program counts the pairs in which one
    range fully contains the other, and the pairs that overlap at all. Both
    tests compare the size of the union of the two ranges with their
    lengths. */
module Assignments {
  import opened Text

  /** `[*range(lo, hi + 1)]`: the integers from `lo` to `hi` inclusive,
      in increasing order; empty when `lo > hi`. */
  function RangeOf(lo: int, hi: int): (r: seq<int>)
    ensures |r| == if lo <= hi then hi - lo + 1 else 0
    ensures forall k :: 0 <= k < |r| ==> r[k] == lo + k
    decreases hi - lo
  {
    if lo > hi then [] else [lo] + RangeOf(lo + 1, hi)
  }

  /** `x` is in the range exactly when it lies between its bounds. */
  lemma RangeMembers(lo: int, hi: int, x: int)
    ensures x in RangeOf(lo, hi) <==> lo <= x <= hi
  {
    var r := RangeOf(lo, hi);
    if lo <= x <= hi {
      assert r[x - lo] == x;
    }
  }

  /** A range holds each of its numbers once. */
  lemma RangeDistinct(lo: int, hi: int)
    ensures Distinct(RangeOf(lo, hi))
  {
  }

  /** `fully_contain`: the union is no larger than the longer list. */
  predicate FullyContain(a: seq<int>, b: seq<int>)
  {
    (if |a| >= |b| then |a| else |b|) == |Elems(a) + Elems(b)|
  }

  /** `overlap`: the union is smaller than the two lists put end to end. */
  predicate Overlap(a: seq<int>, b: seq<int>)
  {
    |Elems(a) + Elems(b)| < |a| + |b|
  }

  /** For lists without repeats, `fully_contain` holds exactly when every
      element of one list is in the other. */
  lemma FullyContainMeans(a: seq<int>, b: seq<int>)
    requires Distinct(a) && Distinct(b)
    ensures FullyContain(a, b) <==> Elems(a) <= Elems(b) || Elems(b) <= Elems(a)
  {
    var x, y := Elems(a), Elems(b);
    DistinctCard(a);
    DistinctCard(b);
    SubsetCard(x, x + y);
    SubsetCard(y, x + y);
    if x <= y {
      assert x + y == y;
      SubsetCard(x, y);
    } else if y <= x {
      assert x + y == x;
      SubsetCard(y, x);
    }
  }

  /** For lists without repeats, `overlap` holds exactly when the two lists
      share an element: the union loses one element per shared one. */
  lemma OverlapMeans(a: seq<int>, b: seq<int>)
    requires Distinct(a) && Distinct(b)
    ensures Overlap(a, b) <==> exists x :: x in a && x in b
  {
    var x, y := Elems(a), Elems(b);
    DistinctCard(a);
    DistinctCard(b);
    assert |x + y| + |x * y| == |x| + |y|;
    if exists v :: v in a && v in b {
      var v :| v in a && v in b;
      assert v in x * y;
    } else {
      assert x * y == {};
    }
  }

  /** Two non-empty lists without repeats, one inside the other, overlap. */
  lemma ContainImpliesOverlap(a: seq<int>, b: seq<int>)
    requires Distinct(a) && Distinct(b) && a != [] && b != []
    ensures FullyContain(a, b) ==> Overlap(a, b)
  {
    FullyContainMeans(a, b);
    OverlapMeans(a, b);
    if Elems(a) <= Elems(b) {
      assert a[0] in Elems(a);
      assert a[0] in Elems(b);
    } else if Elems(b) <= Elems(a) {
      assert b[0] in Elems(b);
      assert b[0] in Elems(a);
    }
  }

  /** The set of a range is the interval between its bounds. */
  lemma RangeElems(lo: int, hi: int)
    ensures forall v :: v in Elems(RangeOf(lo, hi)) <==> lo <= v <= hi
  {
    forall v
      ensures v in Elems(RangeOf(lo, hi)) <==> lo <= v <= hi
    {
      RangeMembers(lo, hi, v);
    }
  }

  /** A non-empty range lies inside another exactly when its bounds do. */
  lemma RangeSubset(lo1: int, hi1: int, lo2: int, hi2: int)
    requires lo1 <= hi1
    ensures Elems(RangeOf(lo1, hi1)) <= Elems(RangeOf(lo2, hi2)) <==> lo2 <= lo1 && hi1 <= hi2
  {
    RangeElems(lo1, hi1);
    RangeElems(lo2, hi2);
    if Elems(RangeOf(lo1, hi1)) <= Elems(RangeOf(lo2, hi2)) {
      assert lo1 in Elems(RangeOf(lo1, hi1)) && hi1 in Elems(RangeOf(lo1, hi1));
    }
  }

  /** On two non-empty ranges, `fully_contain` compares the bounds: one
      interval lies inside the other. */
  lemma RangesContain(lo1: int, hi1: int, lo2: int, hi2: int)
    requires lo1 <= hi1 && lo2 <= hi2
    ensures FullyContain(RangeOf(lo1, hi1), RangeOf(lo2, hi2)) <==>
      (lo1 <= lo2 && hi2 <= hi1) || (lo2 <= lo1 && hi1 <= hi2)
  {
    RangeDistinct(lo1, hi1);
    RangeDistinct(lo2, hi2);
    FullyContainMeans(RangeOf(lo1, hi1), RangeOf(lo2, hi2));
    RangeSubset(lo1, hi1, lo2, hi2);
    RangeSubset(lo2, hi2, lo1, hi1);
  }

  /** On two non-empty ranges, `overlap` compares the bounds: neither
      interval ends before the other starts. */
  lemma RangesOverlap(lo1: int, hi1: int, lo2: int, hi2: int)
    requires lo1 <= hi1 && lo2 <= hi2
    ensures Overlap(RangeOf(lo1, hi1), RangeOf(lo2, hi2)) <==> lo1 <= hi2 && lo2 <= hi1
  {
    var a, b := RangeOf(lo1, hi1), RangeOf(lo2, hi2);
    RangeDistinct(lo1, hi1);
    RangeDistinct(lo2, hi2);
    OverlapMeans(a, b);
    if lo1 <= hi2 && lo2 <= hi1 {
      var v := if lo1 <= lo2 then lo2 else lo1;
      RangeMembers(lo1, hi1, v);
      RangeMembers(lo2, hi2, v);
    }
    if exists v :: v in a && v in b {
      var v :| v in a && v in b;
      RangeMembers(lo1, hi1, v);
      RangeMembers(lo2, hi2, v);
    }
  }

  /** An empty range (`lo > hi`, say `5-3`) is contained in every range
      and overlaps none. */
  lemma EmptyRangeCompares(lo1: int, hi1: int, lo2: int, hi2: int)
    requires lo1 > hi1
    ensures FullyContain(RangeOf(lo1, hi1), RangeOf(lo2, hi2))
    ensures FullyContain(RangeOf(lo2, hi2), RangeOf(lo1, hi1))
    ensures !Overlap(RangeOf(lo1, hi1), RangeOf(lo2, hi2))
  {
    var b := RangeOf(lo2, hi2);
    RangeDistinct(lo2, hi2);
    DistinctCard(b);
    assert Elems(RangeOf(lo1, hi1)) == {};
    assert Elems(RangeOf(lo1, hi1)) + Elems(b) == Elems(b);
    assert Elems(b) + Elems(RangeOf(lo1, hi1)) == Elems(b);
  }

  /** `get_list_from_range`: `lo-hi` gives the range from `lo` to `hi`;
      None when the text does not split at `-` into exactly two pieces or
      a piece is not a number (ValueError). */
  function ParseRange(s: string): Option<seq<int>>
  {
    var bounds := SplitOn(s, '-');
    if |bounds| != 2 then None
    else
      match (Int(bounds[0]), Int(bounds[1]))
      case (Some(lo), Some(hi)) => Some(RangeOf(lo, hi))
      case _ => None
  }

  /** The text of a range. */
  function RangeText(lo: nat, hi: nat): string
  {
    Decimal(lo) + "-" + Decimal(hi)
  }

  /** Reading the text of a range gives the range back. */
  lemma ParseRangeText(lo: nat, hi: nat)
    ensures ParseRange(RangeText(lo, hi)) == Some(RangeOf(lo, hi))
  {
    NumeralHasNo(Decimal(lo), '-');
    NumeralHasNo(Decimal(hi), '-');
    SplitOnTwo(Decimal(lo), Decimal(hi), '-');
    assert RangeText(lo, hi) == Decimal(lo) + ['-'] + Decimal(hi);
    IntOfDecimal(lo);
    IntOfDecimal(hi);
  }

  /** `get_assignment_pair`: a line `r1,r2` gives the two ranges; None when
      the line does not split at `,` into exactly two pieces or a piece is
      not a range. */
  function ParsePair(line: string): Option<(seq<int>, seq<int>)>
  {
    var ranges := SplitOn(line, ',');
    if |ranges| != 2 then None
    else
      match (ParseRange(ranges[0]), ParseRange(ranges[1]))
      case (Some(a), Some(b)) => Some((a, b))
      case _ => None
  }

  /** The text of a pair of ranges. */
  function PairText(lo1: nat, hi1: nat, lo2: nat, hi2: nat): string
  {
    RangeText(lo1, hi1) + "," + RangeText(lo2, hi2)
  }

  /** Reading the text of a pair gives both ranges back. */
  lemma ParsePairText(lo1: nat, hi1: nat, lo2: nat, hi2: nat)
    ensures ParsePair(PairText(lo1, hi1, lo2, hi2)) == Some((RangeOf(lo1, hi1), RangeOf(lo2, hi2)))
  {
    var x, y := RangeText(lo1, hi1), RangeText(lo2, hi2);
    RangeTextHasNoComma(lo1, hi1);
    RangeTextHasNoComma(lo2, hi2);
    SplitOnTwo(x, y, ',');
    assert PairText(lo1, hi1, lo2, hi2) == x + [','] + y;
    ParseRangeText(lo1, hi1);
    ParseRangeText(lo2, hi2);
  }

  lemma RangeTextHasNoComma(lo: nat, hi: nat)
    ensures ',' !in RangeText(lo, hi)
  {
    NumeralHasNo(Decimal(lo), ',');
    NumeralHasNo(Decimal(hi), ',');
  }

  /** What one line adds to the count: one when its ranges satisfy
      `holds`, nothing when they do not, None when it is not a pair of
      ranges. */
  function PairVerdict(holds: (seq<int>, seq<int>) -> bool, line: string): Option<int>
  {
    match ParsePair(line)
    case Some((a, b)) => Some(if holds(a, b) then 1 else 0)
    case None => None
  }

  /** The count of a line as the running total adds it. */
  function Verdict(holds: (seq<int>, seq<int>) -> bool): string -> Option<int>
  {
    line => PairVerdict(holds, line)
  }

  /** The number of lines whose pair of ranges satisfies `holds`; None as
      soon as a line is not a pair of ranges. */
  function Count(lines: seq<string>, holds: (seq<int>, seq<int>) -> bool): Option<int>
  {
    Total(lines, Verdict(holds))
  }

  /** The count exists exactly when every line is a pair of ranges, and
      then it lies between none and all of the lines. */
  lemma CountBounds(lines: seq<string>, holds: (seq<int>, seq<int>) -> bool)
    ensures Count(lines, holds).Some? <==> forall k :: 0 <= k < |lines| ==> ParsePair(lines[k]).Some?
    ensures Count(lines, holds).Some? ==> 0 <= Count(lines, holds).value <= |lines|
  {
    TotalBounds(lines, Verdict(holds), 0, 1);
    assert forall k :: 0 <= k < |lines| ==>
      (Verdict(holds)(lines[k]).Some? <==> ParsePair(lines[k]).Some?);
  }

  /** `count_assignements_pair(lines, holds)`: None when a line raises. */
  method CountPairs(lines: seq<string>, holds: (seq<int>, seq<int>) -> bool) returns (r: Option<int>)
    ensures r == Count(lines, holds)
  {
    var counter := 0;
    for i := 0 to |lines|
      invariant Total(lines[..i], Verdict(holds)) == Some(counter)
    {
      TotalStep(lines, Verdict(holds), i, counter);
      var pair := ParsePair(lines[i]);
      if pair.None? {
        TotalFailsAfter(lines, Verdict(holds), i + 1);
        return None;
      }
      var (a, b) := pair.value;
      if holds(a, b) {
        counter := counter + 1;
      }
    }
    assert lines[..|lines|] == lines;
    return Some(counter);
  }
}
