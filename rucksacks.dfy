/** Day 3: rucksacks. Each line lists the items of one rucksack, one letter
    per item; its two compartments are the two halves of the line. */
module Rucksacks {
  import opened Text

  /** `get_item_priority(char)`: characters from "a" on are counted from
      "a", the others from "A". */
  function Priority(c: char): (p: int)
    ensures IsLower(c) ==> 1 <= p <= 26
    ensures IsUpper(c) ==> 27 <= p <= 52
  {
    if c >= 'a' then c as int - 'a' as int + 1 else c as int - 'A' as int + 27
  }

  /** The item of priority `p`, as an independent reference. */
  function ItemOfPriority(p: int): (c: char)
    requires 1 <= p <= 52
    ensures IsLetter(c)
  {
    if p <= 26 then ('a' as int + p - 1) as char else ('A' as int + p - 27) as char
  }

  /** Priorities number the 52 letters one to one: each letter has the
      priority of exactly one letter, and each priority from 1 to 52 is that
      of exactly one letter. */
  lemma PriorityBijective(c: char, p: int)
    requires IsLetter(c) && 1 <= p <= 52
    ensures ItemOfPriority(Priority(c)) == c
    ensures Priority(ItemOfPriority(p)) == p
  {
  }

  /** Different letters have different priorities. */
  lemma PriorityInjective(a: char, b: char)
    requires IsLetter(a) && IsLetter(b) && Priority(a) == Priority(b)
    ensures a == b
  {
    PriorityBijective(a, 1);
    PriorityBijective(b, 1);
  }

  /** `divide(2, rucksack)` from `more_itertools`: the first part takes the
      extra item of an odd-length line. */
  function Compartments(rucksack: string): (r: (string, string))
    ensures r.0 + r.1 == rucksack
    ensures |r.0| == |r.1| || |r.0| == |r.1| + 1
  {
    var half := (|rucksack| + 1) / 2;
    (rucksack[..half], rucksack[half..])
  }

  /** Item `c` is in every one of `others`. */
  predicate InAll(c: char, others: seq<string>)
  {
    forall k :: 0 <= k < |others| ==> c in others[k]
  }

  /** The first item of `s` found in every one of `others`: the one the
      model takes for Python's set intersection, whose order it does not
      follow. */
  function FirstShared(s: string, others: seq<string>): (r: Option<char>)
    ensures r.Some? ==> r.value in s && InAll(r.value, others)
    ensures r.None? ==> forall c :: c in s ==> !InAll(c, others)
  {
    if s == [] then None
    else if InAll(s[0], others) then Some(s[0])
    else
      var r := FirstShared(s[1..], others);
      assert forall c :: c in s ==> c == s[0] || c in s[1..];
      r
  }

  /** When only one item is shared, that is the item found. */
  lemma FirstSharedUnique(s: string, others: seq<string>, c: char)
    requires c in s && InAll(c, others)
    requires forall d :: d in s && InAll(d, others) ==> d == c
    ensures FirstShared(s, others) == Some(c)
  {
  }

  /** `get_common_item(rucksack)`: an item in both compartments; None when
      there is none (IndexError). */
  function CommonItem(rucksack: string): (r: Option<char>)
    ensures var (a, b) := Compartments(rucksack);
      && (r.Some? ==> r.value in a && r.value in b)
      && (r.None? <==> forall c :: c in a ==> c !in b)
  {
    var (a, b) := Compartments(rucksack);
    var r := FirstShared(a, [b]);
    assert r.Some? ==> r.value in [b][0];
    r
  }

  /** The item at `i` of the first compartment is the one found when the
      second holds it and none of the items before it. */
  lemma FirstCommonAt(a: string, b: string, i: nat)
    requires i < |a| && a[i] in b && forall j :: 0 <= j < i ==> a[j] !in b
    ensures FirstShared(a, [b]) == Some(a[i])
  {
    assert InAll(a[i], [b]) by {
      assert [b][0] == b;
    }
    forall j | 0 <= j < i ensures !InAll(a[j], [b]) {
      assert a[j] !in [b][0];
    }
    FirstSharedAt(a, [b], i);
  }

  /** `get_common_item_priority(rucksack)`. */
  function CommonItemPriority(rucksack: string): Option<int>
  {
    match CommonItem(rucksack)
    case None => None
    case Some(c) => Some(Priority(c))
  }

  /** `n` added to what `o` holds, if anything. */
  function Plus(n: int, o: Option<int>): Option<int>
  {
    match o
    case None => None
    case Some(m) => Some(n + m)
  }

  /** `sum_common_items_priorities(rucksacks)`: None when a rucksack has no
      common item. */
  function SumCommonPriorities(rucksacks: seq<string>): Option<int>
  {
    if rucksacks == [] then Some(0)
    else
      match CommonItemPriority(rucksacks[0])
      case None => None
      case Some(p) => Plus(p, SumCommonPriorities(rucksacks[1..]))
  }

  /** The sum over the rucksacks is the first one's term plus the sum over
      the others. */
  lemma {:induction false} SumCommonCons(rucksacks: seq<string>, p: int, rest: int)
    requires rucksacks != [] && CommonItemPriority(rucksacks[0]) == Some(p)
    requires SumCommonPriorities(rucksacks[1..]) == Some(rest)
    ensures SumCommonPriorities(rucksacks) == Some(p + rest)
  {
  }

  predicate AllLetters(s: string)
  {
    forall k :: 0 <= k < |s| ==> IsLetter(s[k])
  }

  /** The sum exists exactly when every rucksack has a common item, and on
      rucksacks of letters each of its terms is between 1 and 52. */
  lemma SumCommonPrioritiesBounds(rucksacks: seq<string>)
    requires forall k :: 0 <= k < |rucksacks| ==> AllLetters(rucksacks[k])
    ensures SumCommonPriorities(rucksacks).Some? <==>
      forall k :: 0 <= k < |rucksacks| ==> CommonItem(rucksacks[k]).Some?
    ensures SumCommonPriorities(rucksacks).Some? ==>
      |rucksacks| <= SumCommonPriorities(rucksacks).value <= 52 * |rucksacks|
  {
    forall k | 0 <= k < |rucksacks|
      ensures CommonItemPriority(rucksacks[k]).Some? <==> CommonItem(rucksacks[k]).Some?
      ensures CommonItemPriority(rucksacks[k]).Some? ==> 1 <= CommonItemPriority(rucksacks[k]).value <= 52
    {
      CommonItemPriorityBounds(rucksacks[k]);
    }
    SumOfTerms(rucksacks);
  }

  /** The sum exists exactly when every term does, and lies between 1 and
      52 per term when each term does. */
  lemma {:induction false} SumOfTerms(rucksacks: seq<string>)
    requires forall k :: 0 <= k < |rucksacks| && CommonItemPriority(rucksacks[k]).Some? ==>
      1 <= CommonItemPriority(rucksacks[k]).value <= 52
    ensures SumCommonPriorities(rucksacks).Some? <==>
      forall k :: 0 <= k < |rucksacks| ==> CommonItemPriority(rucksacks[k]).Some?
    ensures SumCommonPriorities(rucksacks).Some? ==>
      |rucksacks| <= SumCommonPriorities(rucksacks).value <= 52 * |rucksacks|
  {
    if rucksacks != [] {
      var rest := rucksacks[1..];
      assert forall k :: 0 <= k < |rest| ==> rest[k] == rucksacks[k + 1];
      SumOfTerms(rest);
      if CommonItemPriority(rucksacks[0]).Some? && !forall k :: 0 <= k < |rucksacks| ==> CommonItemPriority(rucksacks[k]).Some? {
        var k :| 0 <= k < |rucksacks| && CommonItemPriority(rucksacks[k]).None?;
        assert CommonItemPriority(rest[k - 1]).None?;
      }
    }
  }

  /** The priority of the common item of a rucksack of letters is between
      1 and 52. */
  lemma CommonItemPriorityBounds(rucksack: string)
    requires AllLetters(rucksack)
    ensures CommonItemPriority(rucksack).Some? <==> CommonItem(rucksack).Some?
    ensures CommonItemPriority(rucksack).Some? ==> 1 <= CommonItemPriority(rucksack).value <= 52
  {
    var c := CommonItem(rucksack);
    if c.Some? {
      var (a, b) := Compartments(rucksack);
      var i :| 0 <= i < |a| && a[i] == c.value;
      assert rucksack[i] == a[i];
    }
  }

  /** `chunked(rucksacks, 3)`: consecutive groups of three, the last one
      shorter when the count is not a multiple of three. */
  function Groups(rucksacks: seq<string>): (r: seq<seq<string>>)
    ensures forall k :: 0 <= k < |r| ==> 1 <= |r[k]| <= 3
    decreases |rucksacks|
  {
    if rucksacks == [] then []
    else if |rucksacks| <= 3 then [rucksacks]
    else [rucksacks[..3]] + Groups(rucksacks[3..])
  }

  function Flatten(groups: seq<seq<string>>): seq<string>
  {
    if groups == [] then [] else groups[0] + Flatten(groups[1..])
  }

  /** Grouping keeps every rucksack, in order, and every group but the last
      has three. */
  lemma {:induction false} GroupsPartition(rucksacks: seq<string>)
    ensures Flatten(Groups(rucksacks)) == rucksacks
    ensures forall k :: 0 <= k < |Groups(rucksacks)| - 1 ==> |Groups(rucksacks)[k]| == 3
    ensures |Groups(rucksacks)| == (|rucksacks| + 2) / 3
    decreases |rucksacks|
  {
    if |rucksacks| > 3 {
      var rest := Groups(rucksacks[3..]);
      GroupsPartition(rucksacks[3..]);
      assert Groups(rucksacks) == [rucksacks[..3]] + rest;
      assert Flatten([rucksacks[..3]] + rest) == rucksacks[..3] + Flatten(rest);
      assert rucksacks[..3] + rucksacks[3..] == rucksacks;
    } else if rucksacks != [] {
      assert Flatten([rucksacks]) == rucksacks + Flatten([]);
    }
  }

  /** The badge of a group: an item the first rucksack shares with all of
      the group; None when there is none (KeyError on `pop`). */
  function Badge(group: seq<string>): (r: Option<char>)
    requires 1 <= |group|
    ensures r.Some? ==> forall k :: 0 <= k < |group| ==> r.value in group[k]
    ensures r.None? ==> forall c :: c in group[0] ==> exists k :: 0 <= k < |group| && c !in group[k]
  {
    FirstShared(group[0], group)
  }

  /** The badge of a group whose first rucksack holds letters only has a
      priority between 1 and 52. */
  lemma BadgePriorityBounds(group: seq<string>)
    requires 1 <= |group| && AllLetters(group[0])
    ensures Badge(group).Some? ==> 1 <= Priority(Badge(group).value) <= 52
  {
    if Badge(group).Some? {
      var i :| 0 <= i < |group[0]| && group[0][i] == Badge(group).value;
    }
  }

  /** The item at `i` is the one found when it is shared and no earlier
      item is. */
  lemma {:induction false} FirstSharedAt(s: string, others: seq<string>, i: nat)
    requires i < |s| && InAll(s[i], others)
    requires forall j :: 0 <= j < i ==> !InAll(s[j], others)
    ensures FirstShared(s, others) == Some(s[i])
  {
    if i > 0 {
      assert !InAll(s[0], others);
      assert forall j :: 0 <= j < i - 1 ==> s[1..][j] == s[j + 1];
      FirstSharedAt(s[1..], others, i - 1);
    }
  }

  /** The total of the badge priorities of the groups; None when a group
      has no badge. */
  function BadgeTotal(groups: seq<seq<string>>): Option<int>
    requires forall k :: 0 <= k < |groups| ==> 1 <= |groups[k]|
  {
    if groups == [] then Some(0)
    else
      match (Badge(groups[0]), BadgeTotal(groups[1..]))
      case (Some(c), Some(rest)) => Some(Priority(c) + rest)
      case _ => None
  }

  /** The groups from position `i`, a multiple of three: the group at `i`
      then the groups after it. */
  lemma GroupsAt(rucksacks: seq<string>, i: nat)
    requires i < |rucksacks|
    ensures var j := if i + 3 < |rucksacks| then i + 3 else |rucksacks|;
      Groups(rucksacks[i..]) == [rucksacks[i..j]] + Groups(rucksacks[j..])
  {
    var s := rucksacks[i..];
    if |s| > 3 {
      assert s[..3] == rucksacks[i..i + 3] && s[3..] == rucksacks[i + 3..];
    } else {
      assert rucksacks[|rucksacks|..] == [] && s == rucksacks[i..|rucksacks|];
      assert Groups(s) == [s] + [];
    }
  }

  /** `sum_group_badges_priorities(rucksacks)`: None when a group has no
      badge. */
  method SumGroupBadgesPriorities(rucksacks: seq<string>) returns (r: Option<int>)
    ensures r == BadgeTotal(Groups(rucksacks))
  {
    var sum := 0;
    var i := 0;
    assert rucksacks[0..] == rucksacks;
    while i < |rucksacks|
      invariant i <= |rucksacks|
      invariant BadgeTotal(Groups(rucksacks)) == Plus(sum, BadgeTotal(Groups(rucksacks[i..])))
      decreases |rucksacks| - i
    {
      var j := if i + 3 < |rucksacks| then i + 3 else |rucksacks|;
      var group := rucksacks[i..j];
      GroupsAt(rucksacks, i);
      var badge := Badge(group);
      if badge.None? {
        return None;
      }
      sum := sum + Priority(badge.value);
      i := j;
    }
    assert rucksacks[i..] == [];
    return Some(sum);
  }
}
