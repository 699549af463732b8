/** The example of the puzzle statement: six rucksacks, two groups. */
module RucksacksExample {
  import opened Text
  import opened Rucksacks

  function ExampleRucksacks(): seq<string>
  {
    [
      "vJrwpWtwJgWrhcsFMMfFFhFp",
      "jqHRNqRjqzjGDLGLrsFMfFZSrLrFZsSL",
      "PmmdzqPrVvPwwTWBwg",
      "wMqvLMZHhHMvwLHjbvcjnnSBnvTQFn",
      "ttgJtRGJQctTZtZT",
      "CrZsJsPPZsGzwwsLwLmpwMDw"
    ]
  }

  lemma Absent0_0(b: string)
    requires b == "hcsFMMfFFhFp"
    ensures 'v' !in b && 'J' !in b && 'r' !in b && 'w' !in b
  {
  }

  lemma Halves0(r: string, a: string, b: string)
    requires r == "vJrwpWtwJgWrhcsFMMfFFhFp" && a == r[..12] && b == r[12..]
    ensures a == "vJrwpWtwJgWr" && b == "hcsFMMfFFhFp"
  {
  }

  lemma Shared0(a: string, b: string)
    requires a == "vJrwpWtwJgWr" && b == "hcsFMMfFFhFp"
    ensures a[4] == 'p' && 'p' in b
    ensures forall j :: 0 <= j < 4 ==> a[j] !in b
  {
    Absent0_0(b);
    assert b[11] == 'p';
  }

  /** Rucksack 1: the item in both compartments is 'p', of priority 16. */
  lemma Common0(r: string)
    requires r == "vJrwpWtwJgWrhcsFMMfFFhFp"
    ensures CommonItem(r) == Some('p') && CommonItemPriority(r) == Some(16)
  {
    var (a, b) := Compartments(r);
    Halves0(r, a, b);
    Shared0(a, b);
    FirstCommonAt(a, b, 4);
  }

  lemma Absent1_0(b: string)
    requires b == "rsFMfFZSrLrFZsSL"
    ensures 'j' !in b && 'q' !in b && 'H' !in b && 'R' !in b
  {
  }

  lemma Absent1_1(b: string)
    requires b == "rsFMfFZSrLrFZsSL"
    ensures 'N' !in b && 'z' !in b && 'G' !in b && 'D' !in b
  {
  }

  lemma Halves1(r: string, a: string, b: string)
    requires r == "jqHRNqRjqzjGDLGLrsFMfFZSrLrFZsSL" && a == r[..16] && b == r[16..]
    ensures a == "jqHRNqRjqzjGDLGL" && b == "rsFMfFZSrLrFZsSL"
  {
  }

  lemma Shared1(a: string, b: string)
    requires a == "jqHRNqRjqzjGDLGL" && b == "rsFMfFZSrLrFZsSL"
    ensures a[13] == 'L' && 'L' in b
    ensures forall j :: 0 <= j < 13 ==> a[j] !in b
  {
    Absent1_0(b);
    Absent1_1(b);
    assert b[9] == 'L';
  }

  /** Rucksack 2: the item in both compartments is 'L', of priority 38. */
  lemma Common1(r: string)
    requires r == "jqHRNqRjqzjGDLGLrsFMfFZSrLrFZsSL"
    ensures CommonItem(r) == Some('L') && CommonItemPriority(r) == Some(38)
  {
    var (a, b) := Compartments(r);
    Halves1(r, a, b);
    Shared1(a, b);
    FirstCommonAt(a, b, 13);
  }

  lemma Halves2(r: string, a: string, b: string)
    requires r == "PmmdzqPrVvPwwTWBwg" && a == r[..9] && b == r[9..]
    ensures a == "PmmdzqPrV" && b == "vPwwTWBwg"
  {
  }

  lemma Shared2(a: string, b: string)
    requires a == "PmmdzqPrV" && b == "vPwwTWBwg"
    ensures a[0] == 'P' && 'P' in b
  {

    assert b[1] == 'P';
  }

  /** Rucksack 3: the item in both compartments is 'P', of priority 42. */
  lemma Common2(r: string)
    requires r == "PmmdzqPrVvPwwTWBwg"
    ensures CommonItem(r) == Some('P') && CommonItemPriority(r) == Some(42)
  {
    var (a, b) := Compartments(r);
    Halves2(r, a, b);
    Shared2(a, b);
    FirstCommonAt(a, b, 0);
  }

  lemma Absent3_0(b: string)
    requires b == "jbvcjnnSBnvTQFn"
    ensures 'w' !in b && 'M' !in b && 'q' !in b
  {
  }

  lemma Halves3(r: string, a: string, b: string)
    requires r == "wMqvLMZHhHMvwLHjbvcjnnSBnvTQFn" && a == r[..15] && b == r[15..]
    ensures a == "wMqvLMZHhHMvwLH" && b == "jbvcjnnSBnvTQFn"
  {
  }

  lemma Shared3(a: string, b: string)
    requires a == "wMqvLMZHhHMvwLH" && b == "jbvcjnnSBnvTQFn"
    ensures a[3] == 'v' && 'v' in b
    ensures forall j :: 0 <= j < 3 ==> a[j] !in b
  {
    Absent3_0(b);
    assert b[2] == 'v';
  }

  /** Rucksack 4: the item in both compartments is 'v', of priority 22. */
  lemma Common3(r: string)
    requires r == "wMqvLMZHhHMvwLHjbvcjnnSBnvTQFn"
    ensures CommonItem(r) == Some('v') && CommonItemPriority(r) == Some(22)
  {
    var (a, b) := Compartments(r);
    Halves3(r, a, b);
    Shared3(a, b);
    FirstCommonAt(a, b, 3);
  }

  lemma Halves4(r: string, a: string, b: string)
    requires r == "ttgJtRGJQctTZtZT" && a == r[..8] && b == r[8..]
    ensures a == "ttgJtRGJ" && b == "QctTZtZT"
  {
  }

  lemma Shared4(a: string, b: string)
    requires a == "ttgJtRGJ" && b == "QctTZtZT"
    ensures a[0] == 't' && 't' in b
  {

    assert b[2] == 't';
  }

  /** Rucksack 5: the item in both compartments is 't', of priority 20. */
  lemma Common4(r: string)
    requires r == "ttgJtRGJQctTZtZT"
    ensures CommonItem(r) == Some('t') && CommonItemPriority(r) == Some(20)
  {
    var (a, b) := Compartments(r);
    Halves4(r, a, b);
    Shared4(a, b);
    FirstCommonAt(a, b, 0);
  }

  lemma Absent5_0(b: string)
    requires b == "wwsLwLmpwMDw"
    ensures 'C' !in b && 'r' !in b && 'Z' !in b
  {
  }

  lemma Halves5(r: string, a: string, b: string)
    requires r == "CrZsJsPPZsGzwwsLwLmpwMDw" && a == r[..12] && b == r[12..]
    ensures a == "CrZsJsPPZsGz" && b == "wwsLwLmpwMDw"
  {
  }

  lemma Shared5(a: string, b: string)
    requires a == "CrZsJsPPZsGz" && b == "wwsLwLmpwMDw"
    ensures a[3] == 's' && 's' in b
    ensures forall j :: 0 <= j < 3 ==> a[j] !in b
  {
    Absent5_0(b);
    assert b[2] == 's';
  }

  /** Rucksack 6: the item in both compartments is 's', of priority 19. */
  lemma Common5(r: string)
    requires r == "CrZsJsPPZsGzwwsLwLmpwMDw"
    ensures CommonItem(r) == Some('s') && CommonItemPriority(r) == Some(19)
  {
    var (a, b) := Compartments(r);
    Halves5(r, a, b);
    Shared5(a, b);
    FirstCommonAt(a, b, 3);
  }

  /** Six rucksacks whose terms are those of the example. */
  lemma {:induction false} CommonTotal(rs: seq<string>)
    requires |rs| == 6
    requires CommonItemPriority(rs[0]) == Some(16) && CommonItemPriority(rs[1]) == Some(38) && CommonItemPriority(rs[2]) == Some(42) && CommonItemPriority(rs[3]) == Some(22) && CommonItemPriority(rs[4]) == Some(20) && CommonItemPriority(rs[5]) == Some(19)
    ensures SumCommonPriorities(rs) == Some(157)
  {
    assert rs[6..] == [];
    assert rs[5..][0] == rs[5] && rs[5..][1..] == rs[6..];
    SumCommonCons(rs[5..], 19, 0);
    assert rs[4..][0] == rs[4] && rs[4..][1..] == rs[5..];
    SumCommonCons(rs[4..], 20, 19);
    assert rs[3..][0] == rs[3] && rs[3..][1..] == rs[4..];
    SumCommonCons(rs[3..], 22, 39);
    assert rs[2..][0] == rs[2] && rs[2..][1..] == rs[3..];
    SumCommonCons(rs[2..], 42, 61);
    assert rs[1..][0] == rs[1] && rs[1..][1..] == rs[2..];
    SumCommonCons(rs[1..], 38, 103);
    assert rs[0..][0] == rs[0] && rs[0..][1..] == rs[1..];
    SumCommonCons(rs[0..], 16, 141);
    assert rs[0..] == rs;
  }

  /** `test_part_1`: the common items have priorities 16, 38, 42, 22, 20, 19, 157 in all. */
  lemma {:induction false} ExampleCommonPriorities(rs: seq<string>)
    requires rs == ExampleRucksacks()
    ensures SumCommonPriorities(rs) == Some(157)
  {
    CommonTerms(rs[0], rs[1], rs[2], rs[3], rs[4], rs[5]);
    CommonTotal(rs);
  }

  lemma CommonTerms(r0: string, r1: string, r2: string, r3: string, r4: string, r5: string)
    requires r0 == "vJrwpWtwJgWrhcsFMMfFFhFp" && r1 == "jqHRNqRjqzjGDLGLrsFMfFZSrLrFZsSL" && r2 == "PmmdzqPrVvPwwTWBwg" && r3 == "wMqvLMZHhHMvwLHjbvcjnnSBnvTQFn" && r4 == "ttgJtRGJQctTZtZT" && r5 == "CrZsJsPPZsGzwwsLwLmpwMDw"
    ensures CommonItemPriority(r0) == Some(16) && CommonItemPriority(r1) == Some(38) && CommonItemPriority(r2) == Some(42) && CommonItemPriority(r3) == Some(22) && CommonItemPriority(r4) == Some(20) && CommonItemPriority(r5) == Some(19)
  {
    Common0(r0);
    Common1(r1);
    Common2(r2);
    Common3(r3);
    Common4(r4);
    Common5(r5);
  }

  lemma BadgeAbsent0_1_0(s: string)
    requires s == "jqHRNqRjqzjGDLGLrsFMfFZSrLrFZsSL"
    ensures 'v' !in s && 'J' !in s
  {
  }

  lemma BadgeShared0(f: string, g1: string, g2: string)
    requires f == "vJrwpWtwJgWrhcsFMMfFFhFp" && g1 == "jqHRNqRjqzjGDLGLrsFMfFZSrLrFZsSL" && g2 == "PmmdzqPrVvPwwTWBwg"
    ensures f[2] == 'r' && 'r' in g1 && 'r' in g2
    ensures forall j :: 0 <= j < 2 ==> f[j] !in g1
  {
    BadgeAbsent0_1_0(g1);
    assert g1[16] == 'r' && g2[7] == 'r';
  }

  /** Group 1: the badge is 'r', of priority 18. */
  lemma Badge0(group: seq<string>)
    requires group == ["vJrwpWtwJgWrhcsFMMfFFhFp", "jqHRNqRjqzjGDLGLrsFMfFZSrLrFZsSL", "PmmdzqPrVvPwwTWBwg"]
    ensures Badge(group) == Some('r')
  {
    BadgeShared0(group[0], group[1], group[2]);
    assert InAll(group[0][2], group);
    assert forall j :: 0 <= j < 2 ==> !InAll(group[0][j], group);
    FirstSharedAt(group[0], group, 2);
  }

  lemma BadgeAbsent1_1_0(s: string)
    requires s == "ttgJtRGJQctTZtZT"
    ensures 'w' !in s && 'M' !in s && 'q' !in s && 'v' !in s
  {
  }

  lemma BadgeAbsent1_1_1(s: string)
    requires s == "ttgJtRGJQctTZtZT"
    ensures 'L' !in s
  {
  }

  lemma BadgeShared1(f: string, g1: string, g2: string)
    requires f == "wMqvLMZHhHMvwLHjbvcjnnSBnvTQFn" && g1 == "ttgJtRGJQctTZtZT" && g2 == "CrZsJsPPZsGzwwsLwLmpwMDw"
    ensures f[6] == 'Z' && 'Z' in g1 && 'Z' in g2
    ensures forall j :: 0 <= j < 6 ==> f[j] !in g1
  {
    BadgeAbsent1_1_0(g1);
    BadgeAbsent1_1_1(g1);
    assert g1[12] == 'Z' && g2[2] == 'Z';
  }

  /** Group 2: the badge is 'Z', of priority 52. */
  lemma Badge1(group: seq<string>)
    requires group == ["wMqvLMZHhHMvwLHjbvcjnnSBnvTQFn", "ttgJtRGJQctTZtZT", "CrZsJsPPZsGzwwsLwLmpwMDw"]
    ensures Badge(group) == Some('Z')
  {
    BadgeShared1(group[0], group[1], group[2]);
    assert InAll(group[0][6], group);
    assert forall j :: 0 <= j < 6 ==> !InAll(group[0][j], group);
    FirstSharedAt(group[0], group, 6);
  }

  /** `test_part_2`: the badges have priorities 18 and 52, 70 in all. */
  lemma ExampleBadgePriorities()
    ensures BadgeTotal(Groups(ExampleRucksacks())) == Some(70)
  {
    var rs := ExampleRucksacks();
    assert rs[..3] == ["vJrwpWtwJgWrhcsFMMfFFhFp", "jqHRNqRjqzjGDLGLrsFMfFZSrLrFZsSL", "PmmdzqPrVvPwwTWBwg"] && rs[3..] == ["wMqvLMZHhHMvwLHjbvcjnnSBnvTQFn", "ttgJtRGJQctTZtZT", "CrZsJsPPZsGzwwsLwLmpwMDw"];
    assert rs[3..][3..] == [];
    assert Groups(rs) == [rs[..3], rs[3..]];
    Badge0(rs[..3]);
    Badge1(rs[3..]);
    assert [rs[..3], rs[3..]][1..] == [rs[3..]] && [rs[3..]][1..] == [];
  }
}
