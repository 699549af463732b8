/** Day 1: the calories carried by each elf. The input lists the calories of
    each item, one per line, one elf after the other, with a blank line
    between two elves.

    The stream is modelled as the sequence of its lines, without their line
    breaks, and a read position. `readline()` at the end of the input gives
    "" and on a blank line gives "\n"; here these are the position
    `|lines|` and the line "". */
module Calories {
  import opened Text

  /** What `count_next_elf_calories` makes of the stream at one position. */
  datatype Count =
    | Counted(calories: int, next: nat)  // one elf's total; reading resumes at `next`
    | Exhausted                          // EOFError: the input was already at its end
    | Invalid                            // ValueError: a line of the run is not a number

  /** `int()` of every line, or None when one of them is not a number. */
  function Values(ls: seq<string>): Option<seq<int>>
  {
    if ls == [] then Some([])
    else
      match (Values(ls[..|ls| - 1]), Int(ls[|ls| - 1]))
      case (Some(vs), Some(v)) => Some(vs + [v])
      case _ => None
  }

  /** Values holds a value exactly when every line has one, and then holds
      the value of each line, in order. */
  lemma {:induction false} ValuesPointwise(ls: seq<string>)
    ensures Values(ls).Some? <==> forall k :: 0 <= k < |ls| ==> Int(ls[k]).Some?
    ensures Values(ls).Some? ==> |Values(ls).value| == |ls| && forall k :: 0 <= k < |ls| ==> Values(ls).value[k] == Int(ls[k]).value
  {
    if ls != [] {
      var init := ls[..|ls| - 1];
      ValuesPointwise(init);
      assert forall k :: 0 <= k < |init| ==> init[k] == ls[k];
    }
  }

  /** Lines that each have the value at the same index of `vs` have the
      values `vs`. */
  lemma ValuesAre(ls: seq<string>, vs: seq<int>)
    requires |ls| == |vs| && forall k :: 0 <= k < |ls| ==> Int(ls[k]) == Some(vs[k])
    ensures Values(ls) == Some(vs)
  {
    ValuesPointwise(ls);
    assert Values(ls).value == vs;
  }

  lemma ValuesSnoc(ls: seq<string>, l: string)
    requires Values(ls).Some? && Int(l).Some?
    ensures Values(ls + [l]) == Some(Values(ls).value + [Int(l).value])
  {
    assert (ls + [l])[..|ls|] == ls;
  }

  /** `count_next_elf_calories` at position `pos`: the total of the run of
      lines up to the next blank line or the end of the input; the blank
      line is consumed too. */
  function NextElf(lines: seq<string>, pos: nat): (r: Count)
    requires pos <= |lines|
    ensures r.Exhausted? <==> pos == |lines|
    ensures r.Counted? ==> pos < r.next <= |lines|
  {
    if pos == |lines| then Exhausted
    else
      var e := NextSep(lines, "", pos);
      match Values(lines[pos..e])
      case None => Invalid
      case Some(vs) => Counted(Sum(vs), if e < |lines| then e + 1 else e)
  }

  /** The elf read at `pos` is the run of non-blank lines from `pos` up to
      the next blank line or the end of the input; the blank line is
      consumed too, and the total is the sum of the values of the run. */
  lemma NextElfReadsOneRun(lines: seq<string>, pos: nat)
    requires pos <= |lines| && NextElf(lines, pos).Counted?
    ensures var r := NextElf(lines, pos);
      var end := if lines[r.next - 1] == "" then r.next - 1 else r.next;
      && pos <= end
      && (forall j :: pos <= j < end ==> lines[j] != "" && Int(lines[j]).Some?)
      && (end == |lines| || lines[end] == "")
      && Values(lines[pos..end]).Some?
      && r.calories == Sum(Values(lines[pos..end]).value)
  {
    var r := NextElf(lines, pos);
    var e := NextSep(lines, "", pos);
    assert Values(lines[pos..e]).Some? && r.calories == Sum(Values(lines[pos..e]).value);
    assert r.next == if e < |lines| then e + 1 else e;
    var end := if lines[r.next - 1] == "" then r.next - 1 else r.next;
    assert end == e by {
      if e == |lines| {
        assert lines[e - 1] != "";
      }
    }
    ValuesPointwise(lines[pos..e]);
    forall j | pos <= j < e ensures Int(lines[j]).Some? {
      assert lines[pos..e][j - pos] == lines[j];
    }
  }

  /** `count_next_elf_calories(stream)`, the stream at position `pos`. */
  method CountNextElfCalories(lines: seq<string>, pos: nat) returns (r: Count)
    requires pos <= |lines|
    ensures r == NextElf(lines, pos)
  {
    if pos == |lines| {
      return Exhausted;
    }
    var calories := 0;
    var k := pos;
    assert lines[pos..pos] == [];
    while k < |lines| && lines[k] != ""
      invariant pos <= k <= |lines|
      invariant forall j :: pos <= j < k ==> lines[j] != ""
      invariant Values(lines[pos..k]).Some? && calories == Sum(Values(lines[pos..k]).value)
    {
      var v := Int(lines[k]);
      if v.None? {
        NoValueAt(lines, pos, k);
        return Invalid;
      }
      CountOneMore(lines, pos, k);
      calories := calories + v.value;
      k := k + 1;
    }
    NextSepUnique(lines, "", pos, k);
    return Counted(calories, if k < |lines| then k + 1 else k);
  }

  /** A line of the run that is not a number makes the whole run invalid. */
  lemma NoValueAt(lines: seq<string>, pos: nat, k: nat)
    requires pos <= k < |lines| && lines[k] != "" && Int(lines[k]).None?
    requires forall j :: pos <= j < k ==> lines[j] != ""
    ensures NextElf(lines, pos) == Invalid
  {
    var e := NextSep(lines, "", pos);
    assert k < e;
    assert lines[pos..e][k - pos] == lines[k];
    ValuesPointwise(lines[pos..e]);
  }

  /** Adding the value of line `k` to the total of the lines before it. */
  lemma CountOneMore(lines: seq<string>, pos: nat, k: nat)
    requires pos <= k < |lines| && Values(lines[pos..k]).Some? && Int(lines[k]).Some?
    ensures Values(lines[pos..k + 1]).Some?
    ensures Sum(Values(lines[pos..k + 1]).value) == Sum(Values(lines[pos..k]).value) + Int(lines[k]).value
  {
    assert lines[pos..k + 1] == lines[pos..k] + [lines[k]];
    ValuesSnoc(lines[pos..k], lines[k]);
    SumAppend(Values(lines[pos..k]).value, [Int(lines[k]).value]);
    SumSingle(Int(lines[k]).value);
  }

  /** The totals of the elves from `pos` on, in reading order; None when a
      line raises ValueError first. */
  function Elves(lines: seq<string>, pos: nat): Option<seq<int>>
    requires pos <= |lines|
    decreases |lines| - pos
  {
    match NextElf(lines, pos)
    case Exhausted => Some([])
    case Invalid => None
    case Counted(c, next) =>
      match Elves(lines, next)
      case None => None
      case Some(rest) => Some([c] + rest)
  }

  /** `seen` followed by what `o` holds, if anything. */
  function Then(seen: seq<int>, o: Option<seq<int>>): Option<seq<int>>
  {
    match o
    case None => None
    case Some(rest) => Some(seen + rest)
  }

  lemma ThenNothingSeen(o: Option<seq<int>>)
    ensures Then([], o) == o
  {
    if o.Some? {
      assert [] + o.value == o.value;
    }
  }

  /** After an elf is read, the elves left are the ones after it. */
  lemma ElvesNext(lines: seq<string>, pos: nat, rest: seq<int>)
    requires pos <= |lines| && NextElf(lines, pos).Counted?
    requires Elves(lines, NextElf(lines, pos).next) == Some(rest)
    ensures Elves(lines, pos) == Some([NextElf(lines, pos).calories] + rest)
  {
  }

  /** Reading one more elf moves its total from what is left to what was
      seen. */
  lemma ElvesStep(lines: seq<string>, pos: nat, seen: seq<int>)
    requires pos <= |lines| && NextElf(lines, pos).Counted?
    ensures var r := NextElf(lines, pos);
      Then(seen, Elves(lines, pos)) == Then(seen + [r.calories], Elves(lines, r.next))
  {
    var r := NextElf(lines, pos);
    if Elves(lines, r.next).Some? {
      var rest := Elves(lines, r.next).value;
      assert seen + ([r.calories] + rest) == (seen + [r.calories]) + rest;
    }
  }

  /** The runs of lines between blank lines, as Python's `split` would cut
      them, without the empty run after a final blank line (or of an empty
      input), which the reader never reports. */
  function Runs(lines: seq<string>): seq<seq<string>>
  {
    DropFinalEmpty(SplitOn(lines, ""))
  }

  function DropFinalEmpty(runs: seq<seq<string>>): seq<seq<string>>
  {
    if runs != [] && runs[|runs| - 1] == [] then runs[..|runs| - 1] else runs
  }

  /** The total of each run, or None when some line is not a number. */
  function RunTotals(runs: seq<seq<string>>): Option<seq<int>>
  {
    if runs == [] then Some([])
    else
      match (Values(runs[0]), RunTotals(runs[1..]))
      case (Some(vs), Some(rest)) => Some([Sum(vs)] + rest)
      case _ => None
  }

  /** The reader visits every run of lines exactly once, in order: the
      totals it reports are those of the runs between blank lines. */
  lemma ElvesAreRuns(lines: seq<string>)
    ensures Elves(lines, 0) == RunTotals(Runs(lines))
  {
    ElvesFrom(lines, 0);
  }

  lemma {:induction false} ElvesFrom(lines: seq<string>, pos: nat)
    requires pos <= |lines|
    ensures Elves(lines, pos) == RunTotals(DropFinalEmpty(SplitFrom(lines, "", pos)))
    decreases |lines| - pos
  {
    if pos == |lines| {
      assert lines[pos..] == [];
      assert SplitFrom(lines, "", pos) == [[]];
    } else if NextSep(lines, "", pos) == |lines| {
      ElvesFromLastRun(lines, pos);
    } else {
      ElvesFrom(lines, NextSep(lines, "", pos) + 1);
      ElvesFromRun(lines, pos);
    }
  }

  lemma ElvesFromLastRun(lines: seq<string>, pos: nat)
    requires pos < |lines| && NextSep(lines, "", pos) == |lines|
    ensures Elves(lines, pos) == RunTotals(DropFinalEmpty(SplitFrom(lines, "", pos)))
  {
    RunsFrom(lines, pos);
    ElvesCons(lines, pos);
    RunTotalsCons(lines[pos..], []);
  }

  lemma ElvesFromRun(lines: seq<string>, pos: nat)
    requires pos < |lines| && NextSep(lines, "", pos) < |lines|
    requires var e := NextSep(lines, "", pos);
      Elves(lines, e + 1) == RunTotals(DropFinalEmpty(SplitFrom(lines, "", e + 1)))
    ensures Elves(lines, pos) == RunTotals(DropFinalEmpty(SplitFrom(lines, "", pos)))
  {
    var e := NextSep(lines, "", pos);
    RunsFrom(lines, pos);
    ElvesCons(lines, pos);
    RunTotalsCons(lines[pos..e], DropFinalEmpty(SplitFrom(lines, "", e + 1)));
  }

  /** The runs from a position inside the input: the run up to the next
      blank line, then the runs after that line, if there is one. */
  lemma RunsFrom(lines: seq<string>, pos: nat)
    requires pos < |lines|
    ensures var e := NextSep(lines, "", pos);
      DropFinalEmpty(SplitFrom(lines, "", pos)) ==
        if e < |lines| then [lines[pos..e]] + DropFinalEmpty(SplitFrom(lines, "", e + 1))
        else [lines[pos..e]] + []
  {
    var e := NextSep(lines, "", pos);
    if e == |lines| {
      var run := lines[pos..];
      assert run == lines[pos..e] && run != [];
      assert SplitFrom(lines, "", pos) == [run];
    } else {
      var run, rest := lines[pos..e], SplitFrom(lines, "", e + 1);
      assert SplitFrom(lines, "", pos) == [run] + rest;
      DropFinalEmptyCons(run, rest);
    }
  }

  lemma DropFinalEmptyCons(run: seq<string>, rest: seq<seq<string>>)
    requires rest != []
    ensures DropFinalEmpty([run] + rest) == [run] + DropFinalEmpty(rest)
  {
    var x := [run] + rest;
    assert x[|x| - 1] == rest[|rest| - 1];
    if rest[|rest| - 1] == [] {
      assert x[..|x| - 1] == [run] + rest[..|rest| - 1];
    }
  }

  /** The elves from `pos` on: the run at `pos`, then the elves after it. */
  lemma ElvesCons(lines: seq<string>, pos: nat)
    requires pos < |lines|
    ensures var e := NextSep(lines, "", pos);
      Elves(lines, pos) ==
        match Values(lines[pos..e])
        case None => None
        case Some(vs) => Then([Sum(vs)], Elves(lines, if e < |lines| then e + 1 else e))
  {
  }

  lemma RunTotalsCons(run: seq<string>, rest: seq<seq<string>>)
    ensures RunTotals([run] + rest) ==
      match Values(run)
      case None => None
      case Some(vs) => Then([Sum(vs)], RunTotals(rest))
  {
    assert ([run] + rest)[0] == run && ([run] + rest)[1..] == rest;
  }

  /** `most_calories` after the totals `es`: the largest, or 0. */
  function Most(es: seq<int>): (m: int)
    ensures m >= 0 && forall k :: 0 <= k < |es| ==> es[k] <= m
    ensures m == 0 || m in es
  {
    if es == [] then 0
    else
      var m := Most(es[..|es| - 1]);
      if es[|es| - 1] > m then es[|es| - 1] else m
  }

  /** A non-negative total carried by one elf and not exceeded by any is
      the most calories. */
  lemma MostIsMax(es: seq<int>, m: int)
    requires m >= 0 && m in es && forall k :: 0 <= k < |es| ==> es[k] <= m
    ensures Most(es) == m
  {
    var k :| 0 <= k < |es| && es[k] == m;
    if Most(es) != 0 {
      var l :| 0 <= l < |es| && es[l] == Most(es);
    }
  }

  /** `get_most_calories(stream)`: None when a line raises ValueError. */
  method GetMostCalories(lines: seq<string>) returns (r: Option<int>)
    ensures r == match Elves(lines, 0) case None => None case Some(es) => Some(Most(es))
  {
    var most := 0;
    var pos := 0;
    ghost var seen: seq<int> := [];
    ThenNothingSeen(Elves(lines, 0));
    while true
      invariant pos <= |lines|
      invariant Elves(lines, 0) == Then(seen, Elves(lines, pos))
      invariant most == Most(seen)
      decreases |lines| - pos
    {
      var count := CountNextElfCalories(lines, pos);
      if count.Exhausted? {
        break;
      }
      if count.Invalid? {
        return None;
      }
      assert (seen + [count.calories])[..|seen|] == seen;
      ElvesStep(lines, pos, seen);
      if count.calories > most {
        most := count.calories;
      }
      seen := seen + [count.calories];
      pos := count.next;
    }
    assert seen + [] == seen;
    return Some(most);
  }

  predicate SortedDesc(s: seq<int>)
  {
    forall i, j :: 0 <= i < j < |s| ==> s[i] >= s[j]
  }

  function Insert(x: int, s: seq<int>): (r: seq<int>)
    requires SortedDesc(s)
    ensures SortedDesc(r) && multiset(r) == multiset(s) + multiset{x}
  {
    if s == [] || x >= s[0] then [x] + s
    else
      var t := Insert(x, s[1..]);
      assert s == [s[0]] + s[1..];
      assert multiset(s) == multiset{s[0]} + multiset(s[1..]);
      MultisetBound(t, s[1..], x, s[0]);
      [s[0]] + t
  }

  /** Every element of `t`, which holds those of `s` and `x`, is at most `b`
      when they all are. */
  lemma MultisetBound(t: seq<int>, s: seq<int>, x: int, b: int)
    requires multiset(t) == multiset(s) + multiset{x}
    requires forall j :: 0 <= j < |s| ==> s[j] <= b
    requires x <= b
    ensures forall j :: 0 <= j < |t| ==> t[j] <= b
  {
    forall j | 0 <= j < |t| ensures t[j] <= b {
      assert t[j] in multiset(t);
      if t[j] != x {
        assert t[j] in multiset(s);
        var l :| 0 <= l < |s| && s[l] == t[j];
      }
    }
  }

  /** `sorted(s, reverse=True)`. */
  function SortDesc(s: seq<int>): (r: seq<int>)
    ensures SortedDesc(r) && multiset(r) == multiset(s)
  {
    if s == [] then []
    else
      assert s == [s[0]] + s[1..];
      Insert(s[0], SortDesc(s[1..]))
  }

  /** There is one list sorted in decreasing order for each multiset:
      `SortDesc` is determined by what it sorts and by the order it keeps. */
  lemma {:induction false} SortedUnique(a: seq<int>, b: seq<int>)
    requires SortedDesc(a) && SortedDesc(b) && multiset(a) == multiset(b)
    ensures a == b
  {
    assert |a| == |multiset(a)| == |multiset(b)| == |b|;
    if a != [] {
      SameHead(a, b);
      SameTail(a, b);
      SortedUnique(a[1..], b[1..]);
    }
  }

  /** Two sorted permutations of each other start with the same element,
      their maximum. */
  lemma SameHead(a: seq<int>, b: seq<int>)
    requires SortedDesc(a) && SortedDesc(b) && multiset(a) == multiset(b)
    requires a != [] && b != []
    ensures a[0] == b[0]
  {
    assert a[0] in multiset(b);
    var k :| 0 <= k < |b| && b[k] == a[0];
    assert b[0] in multiset(a);
    var l :| 0 <= l < |a| && a[l] == b[0];
  }

  /** Permutations of each other with the same head have tails that are
      permutations of each other. */
  lemma SameTail(a: seq<int>, b: seq<int>)
    requires multiset(a) == multiset(b) && a != [] && b != [] && a[0] == b[0]
    ensures multiset(a[1..]) == multiset(b[1..])
  {
    assert a == [a[0]] + a[1..] && b == [b[0]] + b[1..];
    assert multiset(a) == multiset{a[0]} + multiset(a[1..]);
    assert multiset(b) == multiset{b[0]} + multiset(b[1..]);
    assert multiset(a[1..]) == multiset(a) - multiset{a[0]};
    assert multiset(b[1..]) == multiset(b) - multiset{b[0]};
  }

  /** A sorted permutation of `es` is what `SortDesc` returns. */
  lemma SortDescIs(es: seq<int>, t: seq<int>)
    requires SortedDesc(t) && multiset(t) == multiset(es)
    ensures SortDesc(es) == t
  {
    SortedUnique(SortDesc(es), t);
  }

  /** `sum(sorted(es, reverse=True)[:3])`. */
  function Top3(es: seq<int>): int
  {
    var s := SortDesc(es);
    Sum(s[..if |s| < 3 then |s| else 3])
  }

  /** The top-three total is the total of three of the elves (all of them
      when there are fewer), each carrying at least as much as any elf left
      out. */
  lemma Top3IsLargest(es: seq<int>)
    ensures exists top: seq<int>, rest: seq<int> ::
      && multiset(top) + multiset(rest) == multiset(es)
      && |top| == (if |es| < 3 then |es| else 3)
      && (forall i, j :: 0 <= i < |top| && 0 <= j < |rest| ==> top[i] >= rest[j])
      && Sum(top) == Top3(es)
  {
    var s := SortDesc(es);
    assert |s| == |es| by {
      assert |multiset(s)| == |multiset(es)|;
    }
    var n := if |s| < 3 then |s| else 3;
    SplitSorted(s, n);
    var top, rest := s[..n], s[n..];
    assert Sum(top) == Top3(es);
    assert multiset(top) + multiset(rest) == multiset(es);
  }

  /** Cutting a sorted list keeps every element and leaves the larger ones
      in front. */
  lemma SplitSorted(s: seq<int>, n: nat)
    requires SortedDesc(s) && n <= |s|
    ensures multiset(s[..n]) + multiset(s[n..]) == multiset(s)
    ensures forall i, j :: 0 <= i < |s[..n]| && 0 <= j < |s[n..]| ==> s[..n][i] >= s[n..][j]
  {
    assert s == s[..n] + s[n..];
    forall i, j | 0 <= i < |s[..n]| && 0 <= j < |s[n..]| ensures s[..n][i] >= s[n..][j] {
      assert s[..n][i] == s[i] && s[n..][j] == s[n + j];
    }
  }

  /** `get_top3_calories(stream)`: None when a line raises ValueError. */
  method GetTop3Calories(lines: seq<string>) returns (r: Option<int>)
    ensures r == match Elves(lines, 0) case None => None case Some(es) => Some(Top3(es))
  {
    var elfsCalories: seq<int> := [];
    var pos := 0;
    ThenNothingSeen(Elves(lines, 0));
    while true
      invariant pos <= |lines|
      invariant Elves(lines, 0) == Then(elfsCalories, Elves(lines, pos))
      decreases |lines| - pos
    {
      var count := CountNextElfCalories(lines, pos);
      if count.Exhausted? {
        break;
      }
      if count.Invalid? {
        return None;
      }
      ElvesStep(lines, pos, elfsCalories);
      elfsCalories := elfsCalories + [count.calories];
      pos := count.next;
    }
    assert elfsCalories + [] == elfsCalories;
    var sorted := SortDesc(elfsCalories);
    return Some(Sum(sorted[..if |sorted| < 3 then |sorted| else 3]));
  }
}
