/** The example of the puzzle statement: five elves. */
module CaloriesExample {
  import opened Text
  import opened Calories

  function ExampleLines(): seq<string>
  {
    ["1000", "2000", "3000", "", "4000", "", "5000", "6000", "", "7000", "8000", "9000", "", "10000"]
  }

  lemma Int1000()
    ensures Int("1000") == Some(1000)
  {
    IntOfDecimal(1000);
    assert Decimal(1000) == "1000";
  }

  lemma Int2000()
    ensures Int("2000") == Some(2000)
  {
    IntOfDecimal(2000);
    assert Decimal(2000) == "2000";
  }

  lemma Int3000()
    ensures Int("3000") == Some(3000)
  {
    IntOfDecimal(3000);
    assert Decimal(3000) == "3000";
  }

  lemma Int4000()
    ensures Int("4000") == Some(4000)
  {
    IntOfDecimal(4000);
    assert Decimal(4000) == "4000";
  }

  lemma Int5000()
    ensures Int("5000") == Some(5000)
  {
    IntOfDecimal(5000);
    assert Decimal(5000) == "5000";
  }

  lemma Int6000()
    ensures Int("6000") == Some(6000)
  {
    IntOfDecimal(6000);
    assert Decimal(6000) == "6000";
  }

  lemma Int7000()
    ensures Int("7000") == Some(7000)
  {
    IntOfDecimal(7000);
    assert Decimal(7000) == "7000";
  }

  lemma Int8000()
    ensures Int("8000") == Some(8000)
  {
    IntOfDecimal(8000);
    assert Decimal(8000) == "8000";
  }

  lemma Int9000()
    ensures Int("9000") == Some(9000)
  {
    IntOfDecimal(9000);
    assert Decimal(9000) == "9000";
  }

  lemma Int10000()
    ensures Int("10000") == Some(10000)
  {
    IntOfDecimal(10000);
    assert Decimal(10000) == "10000";
  }

  lemma SumOne(a: int)
    ensures Sum([a]) == a
  {
    SumSingle(a);
  }

  lemma SumTwo(a: int, b: int)
    ensures Sum([a, b]) == a + b
  {
    assert [a, b] == [a] + [b];
    SumAppend([a], [b]);
    SumSingle(a);
    SumSingle(b);
  }

  lemma SumThree(a: int, b: int, c: int)
    ensures Sum([a, b, c]) == a + b + c
  {
    assert [a, b, c] == [a, b] + [c];
    SumAppend([a, b], [c]);
    SumTwo(a, b);
    SumSingle(c);
  }

  lemma Run0()
    ensures NextElf(ExampleLines(), 0) == Counted(6000, 4)
  {
    var L := ExampleLines();
    assert L[0] == "1000";
    assert L[1] == "2000";
    assert L[2] == "3000";
    assert L[3] == "";
    NextSepUnique(L, "", 0, 3);
    var run := L[0..3];
    assert |run| == 3;
    Int1000();
    assert run[0] == "1000";
    Int2000();
    assert run[1] == "2000";
    Int3000();
    assert run[2] == "3000";
    ValuesAre(run, [1000, 2000, 3000]);
    SumThree(1000, 2000, 3000);
  }

  lemma Run1()
    ensures NextElf(ExampleLines(), 4) == Counted(4000, 6)
  {
    var L := ExampleLines();
    assert L[4] == "4000";
    assert L[5] == "";
    NextSepUnique(L, "", 4, 5);
    var run := L[4..5];
    assert |run| == 1;
    Int4000();
    assert run[0] == "4000";
    ValuesAre(run, [4000]);
    SumOne(4000);
  }

  lemma Run2()
    ensures NextElf(ExampleLines(), 6) == Counted(11000, 9)
  {
    var L := ExampleLines();
    assert L[6] == "5000";
    assert L[7] == "6000";
    assert L[8] == "";
    NextSepUnique(L, "", 6, 8);
    var run := L[6..8];
    assert |run| == 2;
    Int5000();
    assert run[0] == "5000";
    Int6000();
    assert run[1] == "6000";
    ValuesAre(run, [5000, 6000]);
    SumTwo(5000, 6000);
  }

  lemma Run3()
    ensures NextElf(ExampleLines(), 9) == Counted(24000, 13)
  {
    var L := ExampleLines();
    assert L[9] == "7000";
    assert L[10] == "8000";
    assert L[11] == "9000";
    assert L[12] == "";
    NextSepUnique(L, "", 9, 12);
    var run := L[9..12];
    assert |run| == 3;
    Int7000();
    assert run[0] == "7000";
    Int8000();
    assert run[1] == "8000";
    Int9000();
    assert run[2] == "9000";
    ValuesAre(run, [7000, 8000, 9000]);
    SumThree(7000, 8000, 9000);
  }

  lemma Run4()
    ensures NextElf(ExampleLines(), 13) == Counted(10000, 14)
  {
    var L := ExampleLines();
    assert L[13] == "10000";
    NextSepUnique(L, "", 13, 14);
    var run := L[13..14];
    assert |run| == 1;
    Int10000();
    assert run[0] == "10000";
    ValuesAre(run, [10000]);
    SumOne(10000);
  }

  lemma ExampleTotals()
    ensures [6000] + ([4000] + ([11000] + ([24000] + ([10000] + [])))) == [6000, 4000, 11000, 24000, 10000]
  {
  }

  /** The five elves of the example carry 6000, 4000, 11000, 24000 and
      10000 calories. */
  lemma ExampleElves()
    ensures Elves(ExampleLines(), 0) == Some([6000, 4000, 11000, 24000, 10000])
  {
    var L := ExampleLines();
    assert Elves(L, 14) == Some([]);
    Run4();
    ElvesNext(L, 13, []);
    Run3();
    ElvesNext(L, 9, [10000] + []);
    Run2();
    ElvesNext(L, 6, [24000] + ([10000] + []));
    Run1();
    ElvesNext(L, 4, [11000] + ([24000] + ([10000] + [])));
    Run0();
    ElvesNext(L, 0, [4000] + ([11000] + ([24000] + ([10000] + []))));
    ExampleTotals();
  }

  /** `test_part_1`: the elf carrying the most carries 24000 calories. */
  lemma ExampleMostCalories()
    ensures Elves(ExampleLines(), 0).Some?
    ensures Most(Elves(ExampleLines(), 0).value) == 24000
  {
    ExampleElves();
    MostOfTotals(Elves(ExampleLines(), 0).value);
  }

  lemma MostOfTotals(es: seq<int>)
    requires es == [6000, 4000, 11000, 24000, 10000]
    ensures Most(es) == 24000
  {
    assert es[3] == 24000;
    MostIsMax(es, 24000);
  }

  /** The sum of the first three elements. */
  lemma SumOfThree(t: seq<int>)
    requires |t| >= 3
    ensures Sum(t[..3]) == t[0] + t[1] + t[2]
  {
    assert t[..3] == [t[0], t[1]] + [t[2]];
    SumAppend([t[0], t[1]], [t[2]]);
    assert [t[0], t[1]] == [t[0]] + [t[1]];
    SumAppend([t[0]], [t[1]]);
    SumSingle(t[0]);
    SumSingle(t[1]);
    SumSingle(t[2]);
  }

  /** `test_part_2`: the three elves carrying the most carry 45000 calories. */
  lemma ExampleTop3Calories()
    ensures Elves(ExampleLines(), 0).Some?
    ensures Top3(Elves(ExampleLines(), 0).value) == 45000
  {
    ExampleElves();
    Top3OfTotals(Elves(ExampleLines(), 0).value, [24000, 11000, 10000, 6000, 4000]);
  }

  lemma Top3OfTotals(es: seq<int>, t: seq<int>)
    requires es == [6000, 4000, 11000, 24000, 10000] && t == [24000, 11000, 10000, 6000, 4000]
    ensures Top3(es) == 45000
  {
    SortedTotals(es, t);
    SumOfThree(t);
  }

  lemma SortedTotals(es: seq<int>, t: seq<int>)
    requires es == [6000, 4000, 11000, 24000, 10000] && t == [24000, 11000, 10000, 6000, 4000]
    ensures SortDesc(es) == t
  {
    assert multiset(t) == multiset(es) by {
      TotalsPermuted(es, t);
    }
    assert SortedDesc(t) by {
      TotalsSorted(t);
    }
    SortDescIs(es, t);
  }

  lemma TotalsPermuted(es: seq<int>, t: seq<int>)
    requires es == [6000, 4000, 11000, 24000, 10000] && t == [24000, 11000, 10000, 6000, 4000]
    ensures multiset(t) == multiset(es)
  {
  }

  lemma TotalsSorted(t: seq<int>)
    requires t == [24000, 11000, 10000, 6000, 4000]
    ensures SortedDesc(t)
  {
  }
}
