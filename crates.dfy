/** Day 5: a dock of crate stacks, rearranged by a crane following a list
    of commands `move k from a to b`. The CrateMover 9000 moves crates one
    at a time; the CrateMover 9001 lifts all `k` at once through a holding
    stack, so they land in their original order. Stacks are numbered from 1
    and indexed in the program's list as `stack_number - 1`.

    The functions below give the value every step computes, with None where
    the program raises (IndexError, ValueError) or would wait forever on an
    empty stack; the `Dock` class and the cranes carry out the same steps
    in place. */
module Crates {
  import opened Text

  /** A stack of crates, bottom first: the last element is the top. */
  type Stack = seq<char>

  /** `move count from origin to destination`. */
  datatype Command = Command(count: nat, origin: nat, destination: nat)

  /** Which crane carries out the commands. */
  datatype CraneModel = Model9000 | Model9001

  /** The list index that stack number `n` names among `count` stacks:
      `n - 1`, counted from the end when negative, as Python does (so
      number 0 names the last stack); None when out of range (IndexError). */
  function Slot(n: int, count: nat): (r: Option<nat>)
    ensures r.Some? <==> -(count as int) < n <= count
    ensures r.Some? ==> r.value < count && r.value == (n - 1) % count
  {
    if 0 <= n - 1 < count then Some(n - 1)
    else if -(count as int) <= n - 1 < 0 then Some(count + n - 1)
    else None
  }

  function Top(s: Stack): char
    requires s != []
  {
    s[|s| - 1]
  }

  function Below(s: Stack): Stack
    requires s != []
  {
    s[..|s| - 1]
  }

  /** `pickup_crate(n)` on the stacks as values: the stacks without the
      top crate of stack `n`, and that crate; None when `n` names no stack
      or the stack is empty (the program would wait forever). */
  function PickUp(stacks: seq<Stack>, n: int): Option<(seq<Stack>, char)>
  {
    match Slot(n, |stacks|)
    case None => None
    case Some(i) =>
      if stacks[i] == [] then None
      else Some((stacks[i := Below(stacks[i])], Top(stacks[i])))
  }

  /** `store_crate(n, c)` on the stacks as values. */
  function Store(stacks: seq<Stack>, n: int, c: char): Option<seq<Stack>>
  {
    match Slot(n, |stacks|)
    case None => None
    case Some(i) => Some(stacks[i := stacks[i] + [c]])
  }

  /** Storing a crate and picking it up again gives back the stacks and the
      crate, and picking up a crate and storing it back restores the
      stacks; every other stack is left alone. */
  lemma PickUpStore(stacks: seq<Stack>, n: int, c: char)
    ensures Store(stacks, n, c).Some? <==> Slot(n, |stacks|).Some?
    ensures Store(stacks, n, c).Some? ==> PickUp(Store(stacks, n, c).value, n) == Some((stacks, c))
    ensures PickUp(stacks, n).Some? ==>
      var (rest, top) := PickUp(stacks, n).value;
      Store(rest, n, top) == Some(stacks)
    ensures Store(stacks, n, c).Some? ==>
      forall k :: 0 <= k < |stacks| && Some(k) != Slot(n, |stacks|) ==> Store(stacks, n, c).value[k] == stacks[k]
  {
    if Slot(n, |stacks|).Some? {
      var i := Slot(n, |stacks|).value;
      assert Below(stacks[i] + [c]) == stacks[i];
      assert stacks[i := stacks[i] + [c]][i := stacks[i]] == stacks;
      if stacks[i] != [] {
        assert Below(stacks[i]) + [Top(stacks[i])] == stacks[i];
        assert stacks[i := Below(stacks[i])][i := stacks[i]] == stacks;
      }
    }
  }

  /** The number of crates on the dock. */
  function CrateCount(stacks: seq<Stack>): nat
  {
    if stacks == [] then 0 else CrateCount(stacks[..|stacks| - 1]) + |stacks[|stacks| - 1]|
  }

  /** Replacing one stack changes the crate count by the difference in
      height. */
  lemma {:induction false} CrateCountUpdate(stacks: seq<Stack>, i: nat, s: Stack)
    requires i < |stacks|
    ensures CrateCount(stacks[i := s]) == CrateCount(stacks) - |stacks[i]| + |s|
  {
    var t := stacks[i := s];
    if i < |stacks| - 1 {
      assert t[..|t| - 1] == stacks[..|stacks| - 1][i := s];
      CrateCountUpdate(stacks[..|stacks| - 1], i, s);
    } else {
      assert t[..|t| - 1] == stacks[..|stacks| - 1];
    }
  }

  /** The top `k` crates of a stack, bottom first, and what lies below
      them. */
  function TopCrates(s: Stack, k: nat): Stack
    requires k <= |s|
  {
    s[|s| - k..]
  }

  function Under(s: Stack, k: nat): Stack
    requires k <= |s|
  {
    s[..|s| - k]
  }

  /** One crate off the top of the `k` crates. */
  lemma TopCratesStep(s: Stack, k: nat)
    requires 0 < k <= |s|
    ensures Reverse(TopCrates(s, k)) == [Top(s)] + Reverse(TopCrates(Below(s), k - 1))
    ensures Under(Below(s), k - 1) == Under(s, k)
  {
    assert TopCrates(s, k)[..k - 1] == TopCrates(Below(s), k - 1);
  }

  /** The CrateMover 9000 moves `k` crates one at a time: pick up from
      `from`, store on `to`, `k` times. */
  function Move9000(stacks: seq<Stack>, k: nat, from: int, to: int): Option<seq<Stack>>
    decreases k
  {
    if k == 0 then Some(stacks)
    else
      match PickUp(stacks, from)
      case None => None
      case Some((rest, c)) =>
        match Store(rest, to, c)
        case None => None
        case Some(next) => Move9000(next, k - 1, from, to)
  }

  /** Between two different stacks, the CrateMover 9000 takes the top `k`
      crates off the origin and puts them on the destination in reverse
      order; every other stack is left alone. */
  lemma {:induction false} Move9000Moves(stacks: seq<Stack>, k: nat, from: int, to: int, i: nat, j: nat)
    requires Slot(from, |stacks|) == Some(i) && Slot(to, |stacks|) == Some(j) && i != j
    requires k <= |stacks[i]|
    ensures Move9000(stacks, k, from, to) ==
      Some(stacks[i := Under(stacks[i], k)][j := stacks[j] + Reverse(TopCrates(stacks[i], k))])
    decreases k
  {
    if k == 0 {
      assert Under(stacks[i], 0) == stacks[i] && TopCrates(stacks[i], 0) == [];
      assert stacks[j] + Reverse([]) == stacks[j];
      assert stacks[i := stacks[i]][j := stacks[j]] == stacks;
    } else {
      var rest := stacks[i := Below(stacks[i])];
      var next := rest[j := stacks[j] + [Top(stacks[i])]];
      assert PickUp(stacks, from) == Some((rest, Top(stacks[i])));
      assert Store(rest, to, Top(stacks[i])) == Some(next);
      assert Move9000(stacks, k, from, to) == Move9000(next, k - 1, from, to);
      assert next[i] == Below(stacks[i]) && next[j] == stacks[j] + [Top(stacks[i])];
      Move9000Moves(next, k - 1, from, to, i, j);
      TopCratesStep(stacks[i], k);
      var under, onto := Under(stacks[i], k), stacks[j] + Reverse(TopCrates(stacks[i], k));
      assert Under(next[i], k - 1) == under;
      assert next[j] + Reverse(TopCrates(next[i], k - 1)) == onto;
      assert next[i := under][j := onto] == stacks[i := under][j := onto];
    }
  }

  /** From a stack onto itself, the CrateMover 9000 puts each crate back
      where it was: the stacks do not change, however many crates are
      moved, as long as the stack is not empty. */
  lemma {:induction false} Move9000Same(stacks: seq<Stack>, k: nat, from: int, to: int, i: nat)
    requires Slot(from, |stacks|) == Some(i) && Slot(to, |stacks|) == Some(i)
    requires stacks[i] != []
    ensures Move9000(stacks, k, from, to) == Some(stacks)
    decreases k
  {
    if k > 0 {
      assert Below(stacks[i]) + [Top(stacks[i])] == stacks[i];
      assert stacks[i := Below(stacks[i])][i := stacks[i]] == stacks;
      Move9000Same(stacks, k - 1, from, to, i);
    }
  }

  /** Between two different stacks, moving more crates than the origin
      holds has no result: the program waits forever on the empty stack. */
  lemma {:induction false} Move9000Short(stacks: seq<Stack>, k: nat, from: int, to: int, i: nat, j: nat)
    requires Slot(from, |stacks|) == Some(i) && Slot(to, |stacks|) == Some(j) && i != j
    requires k > |stacks[i]|
    ensures Move9000(stacks, k, from, to).None?
    decreases k
  {
    if stacks[i] != [] {
      var next := stacks[i := Below(stacks[i])][j := stacks[j] + [Top(stacks[i])]];
      Move9000Short(next, k - 1, from, to, i, j);
    }
  }

  /** The CrateMover 9001's first half: `k` crates picked up from `from`
      and put on the holding stack `queue`. */
  function Load(stacks: seq<Stack>, queue: Stack, k: nat, from: int): Option<(seq<Stack>, Stack)>
    decreases k
  {
    if k == 0 then Some((stacks, queue))
    else
      match PickUp(stacks, from)
      case None => None
      case Some((rest, c)) => Load(rest, queue + [c], k - 1, from)
  }

  /** The CrateMover 9001's second half: the holding stack emptied onto
      `to`, top crate first. */
  function Unload(stacks: seq<Stack>, queue: Stack, to: int): Option<seq<Stack>>
    decreases |queue|
  {
    if queue == [] then Some(stacks)
    else
      match Store(stacks, to, Top(queue))
      case None => None
      case Some(next) => Unload(next, Below(queue), to)
  }

  /** Loading takes the top `k` crates off the origin and stacks them on
      the holding stack, so the origin's top crate ends at the bottom. */
  lemma {:induction false} LoadMoves(stacks: seq<Stack>, queue: Stack, k: nat, from: int, i: nat)
    requires Slot(from, |stacks|) == Some(i) && k <= |stacks[i]|
    ensures Load(stacks, queue, k, from) ==
      Some((stacks[i := Under(stacks[i], k)], queue + Reverse(TopCrates(stacks[i], k))))
    decreases k
  {
    if k == 0 {
      assert Under(stacks[i], 0) == stacks[i] && TopCrates(stacks[i], 0) == [];
      assert stacks[i := stacks[i]] == stacks;
      assert queue + Reverse([]) == queue;
    } else {
      var rest := stacks[i := Below(stacks[i])];
      LoadMoves(rest, queue + [Top(stacks[i])], k - 1, from, i);
      TopCratesStep(stacks[i], k);
      assert rest[i := Under(rest[i], k - 1)] == stacks[i := Under(stacks[i], k)];
      assert queue + [Top(stacks[i])] + Reverse(TopCrates(rest[i], k - 1)) == queue + Reverse(TopCrates(stacks[i], k));
    }
  }

  /** Loading more crates than the origin holds waits forever. */
  lemma {:induction false} LoadShort(stacks: seq<Stack>, queue: Stack, k: nat, from: int, i: nat)
    requires Slot(from, |stacks|) == Some(i) && k > |stacks[i]|
    ensures Load(stacks, queue, k, from).None?
    decreases k
  {
    if stacks[i] != [] {
      LoadShort(stacks[i := Below(stacks[i])], queue + [Top(stacks[i])], k - 1, from, i);
    }
  }

  /** Unloading puts the holding stack on the destination in reverse, the
      holding stack's top crate first. */
  lemma {:induction false} UnloadMoves(stacks: seq<Stack>, queue: Stack, to: int, j: nat)
    requires Slot(to, |stacks|) == Some(j)
    ensures Unload(stacks, queue, to) == Some(stacks[j := stacks[j] + Reverse(queue)])
    decreases |queue|
  {
    if queue == [] {
      assert stacks[j] + Reverse(queue) == stacks[j];
      assert stacks[j := stacks[j]] == stacks;
    } else {
      var next := stacks[j := stacks[j] + [Top(queue)]];
      UnloadMoves(next, Below(queue), to, j);
      assert Reverse(queue) == [Top(queue)] + Reverse(Below(queue));
      assert next[j] + Reverse(Below(queue)) == stacks[j] + Reverse(queue);
      assert next[j := next[j] + Reverse(Below(queue))] == stacks[j := stacks[j] + Reverse(queue)];
    }
  }

  /** The CrateMover 9001: load all `k` crates, then unload them. */
  function Move9001(stacks: seq<Stack>, k: nat, from: int, to: int): Option<seq<Stack>>
  {
    match Load(stacks, [], k, from)
    case None => None
    case Some((rest, queue)) => Unload(rest, queue, to)
  }

  /** The CrateMover 9001 takes the top `k` crates off the origin and puts
      them on the destination in their original order; every other stack
      is left alone. From a stack onto itself this changes nothing. */
  lemma Move9001Moves(stacks: seq<Stack>, k: nat, from: int, to: int, i: nat, j: nat)
    requires Slot(from, |stacks|) == Some(i) && Slot(to, |stacks|) == Some(j)
    requires k <= |stacks[i]|
    ensures Move9001(stacks, k, from, to) ==
      var rest := stacks[i := Under(stacks[i], k)];
      Some(rest[j := rest[j] + TopCrates(stacks[i], k)])
    ensures i == j ==> Move9001(stacks, k, from, to) == Some(stacks)
  {
    LoadMoves(stacks, [], k, from, i);
    var rest := stacks[i := Under(stacks[i], k)];
    assert [] + Reverse(TopCrates(stacks[i], k)) == Reverse(TopCrates(stacks[i], k));
    UnloadMoves(rest, Reverse(TopCrates(stacks[i], k)), to, j);
    ReverseReverse(TopCrates(stacks[i], k));
    if i == j {
      assert Under(stacks[i], k) + TopCrates(stacks[i], k) == stacks[i];
      assert rest[i := stacks[i]] == stacks;
    }
  }

  /** Asking the CrateMover 9001 for more crates than the origin holds
      waits forever. */
  lemma Move9001Short(stacks: seq<Stack>, k: nat, from: int, to: int, i: nat)
    requires Slot(from, |stacks|) == Some(i) && k > |stacks[i]|
    ensures Move9001(stacks, k, from, to).None?
  {
    LoadShort(stacks, [], k, from, i);
  }

  /** Both cranes keep every crate: a move that has a result leaves the
      crate count as it was. */
  lemma MovesKeepCrates(stacks: seq<Stack>, k: nat, from: int, to: int, i: nat, j: nat)
    requires Slot(from, |stacks|) == Some(i) && Slot(to, |stacks|) == Some(j)
    requires k <= |stacks[i]|
    ensures Move9001(stacks, k, from, to).Some?
    ensures CrateCount(Move9001(stacks, k, from, to).value) == CrateCount(stacks)
    ensures Move9000(stacks, k, from, to).Some?
    ensures CrateCount(Move9000(stacks, k, from, to).value) == CrateCount(stacks)
  {
    Move9001Moves(stacks, k, from, to, i, j);
    var rest := stacks[i := Under(stacks[i], k)];
    CrateCountUpdate(stacks, i, Under(stacks[i], k));
    CrateCountUpdate(rest, j, rest[j] + TopCrates(stacks[i], k));
    if i == j {
      if stacks[i] != [] {
        Move9000Same(stacks, k, from, to, i);
      } else {
        assert k == 0;
      }
    } else {
      Move9000Moves(stacks, k, from, to, i, j);
      CrateCountUpdate(rest, j, rest[j] + Reverse(TopCrates(stacks[i], k)));
    }
  }

  /** `crane.execute_command(command, dock)` on the stacks as values, once
      the command is read. */
  function Move(crane: CraneModel, stacks: seq<Stack>, c: Command): Option<seq<Stack>>
  {
    match crane
    case Model9000 => Move9000(stacks, c.count, c.origin, c.destination)
    case Model9001 => Move9001(stacks, c.count, c.origin, c.destination)
  }

  /** Reading a command: the numbers written in it, which must be exactly
      three (ValueError otherwise). */
  function ParseCommand(line: string): Option<Command>
  {
    var ns := Numbers(line);
    if |ns| != 3 then None else Some(Command(ns[0], ns[1], ns[2]))
  }

  /** The text of a command. */
  function CommandText(c: Command): string
  {
    "move " + Decimal(c.count) + " from " + Decimal(c.origin) + " to " + Decimal(c.destination)
  }

  /** Reading the text of a command gives the command back. */
  lemma ParseCommandText(c: Command)
    ensures ParseCommand(CommandText(c)) == Some(c)
  {
    var a, b, d := Decimal(c.count), Decimal(c.origin), Decimal(c.destination);
    var r2 := b + (" to " + d);
    var r0 := a + (" from " + r2);
    assert CommandText(c) == "move " + r0;
    NumbersAfter("move ", r0);
    NumbersOf(a, " from " + r2);
    NumbersAfter(" from ", r2);
    NumbersOf(b, " to " + d);
    NumbersAfter(" to ", d);
    assert d + [] == d;
    NumbersOf(d, []);
    NumeralOfDecimal(c.count);
    NumeralOfDecimal(c.origin);
    NumeralOfDecimal(c.destination);
  }

  /** `execute_command` on one line. */
  function Execute(crane: CraneModel, stacks: seq<Stack>, line: string): Option<seq<Stack>>
  {
    match ParseCommand(line)
    case None => None
    case Some(c) => Move(crane, stacks, c)
  }

  /** The commands applied in order; None as soon as one fails. */
  function Run(crane: CraneModel, stacks: seq<Stack>, lines: seq<string>): Option<seq<Stack>>
    decreases |lines|
  {
    if lines == [] then Some(stacks)
    else
      match Execute(crane, stacks, lines[0])
      case None => None
      case Some(next) => Run(crane, next, lines[1..])
  }

  /** Running two lists of commands one after the other is running them
      joined. */
  lemma {:induction false} RunAppend(crane: CraneModel, stacks: seq<Stack>, xs: seq<string>, ys: seq<string>)
    ensures Run(crane, stacks, xs + ys) ==
      match Run(crane, stacks, xs)
      case None => None
      case Some(mid) => Run(crane, mid, ys)
    decreases |xs|
  {
    if xs != [] {
      assert (xs + ys)[0] == xs[0] && (xs + ys)[1..] == xs[1..] + ys;
      match Execute(crane, stacks, xs[0])
      case None =>
      case Some(next) => RunAppend(crane, next, xs[1..], ys);
    } else {
      assert xs + ys == ys;
    }
  }

  /** The stack index a label column names: the digit written in the
      label line at that column, as a stack number; None when the column is
      past the end of the label line (IndexError), holds no digit
      (ValueError), or names no stack (IndexError). */
  function LabelSlot(labels: string, p: nat, count: nat): Option<nat>
  {
    if p < |labels| && IsDigit(labels[p]) then Slot(DigitValue(labels[p]), count) else None
  }

  /** Every crate letter of a diagram row from column `p` on sits over a
      label that names a stack. */
  predicate Labelled(row: string, labels: string, count: nat, p: nat)
  {
    forall q :: p <= q < |row| && IsUpper(row[q]) ==> LabelSlot(labels, q, count).Some?
  }

  /** The crate letters of one diagram row, from column `p` on, stored left
      to right on the stack their column's label names. */
  function StoreRow(stacks: seq<Stack>, labels: string, row: string, p: nat): Option<seq<Stack>>
    requires p <= |row|
    decreases |row| - p
  {
    if p == |row| then Some(stacks)
    else if !IsUpper(row[p]) then StoreRow(stacks, labels, row, p + 1)
    else
      match LabelSlot(labels, p, |stacks|)
      case None => None
      case Some(i) => StoreRow(stacks[i := stacks[i] + [row[p]]], labels, row, p + 1)
  }

  /** The crate letters of a row, from column `p` on, whose label names
      stack `i`, left to right. */
  function Picked(row: string, labels: string, count: nat, i: nat, p: nat): Stack
    requires p <= |row|
    decreases |row| - p
  {
    if p == |row| then []
    else if IsUpper(row[p]) && LabelSlot(labels, p, count) == Some(i) then [row[p]] + Picked(row, labels, count, i, p + 1)
    else Picked(row, labels, count, i, p + 1)
  }

  /** Storing a row has a result exactly when every letter in it is
      labelled, and then each stack gains the letters of its columns, in
      order. */
  lemma {:induction false} StoreRowSpec(stacks: seq<Stack>, labels: string, row: string, p: nat)
    requires p <= |row|
    ensures StoreRow(stacks, labels, row, p).Some? <==> Labelled(row, labels, |stacks|, p)
    ensures StoreRow(stacks, labels, row, p).Some? ==>
      var t := StoreRow(stacks, labels, row, p).value;
      |t| == |stacks| &&
      forall i :: 0 <= i < |stacks| ==> t[i] == stacks[i] + Picked(row, labels, |stacks|, i, p)
    decreases |row| - p
  {
    if p < |row| {
      if !IsUpper(row[p]) {
        StoreRowSpec(stacks, labels, row, p + 1);
      } else if LabelSlot(labels, p, |stacks|).Some? {
        var j := LabelSlot(labels, p, |stacks|).value;
        var next := stacks[j := stacks[j] + [row[p]]];
        StoreRowSpec(next, labels, row, p + 1);
        if StoreRow(next, labels, row, p + 1).Some? {
          var t := StoreRow(next, labels, row, p + 1).value;
          forall i | 0 <= i < |stacks|
            ensures t[i] == stacks[i] + Picked(row, labels, |stacks|, i, p)
          {
            if i == j {
              assert t[i] == stacks[i] + [row[p]] + Picked(row, labels, |stacks|, i, p + 1);
            }
          }
        }
      }
    }
  }

  /** The rows of the diagram stored from the bottom row up
      (`reversed(dock_map[:-1])`). */
  function StoreRows(stacks: seq<Stack>, labels: string, rows: seq<string>): Option<seq<Stack>>
    decreases |rows|
  {
    if rows == [] then Some(stacks)
    else
      match StoreRow(stacks, labels, rows[|rows| - 1], 0)
      case None => None
      case Some(next) => StoreRows(next, labels, rows[..|rows| - 1])
  }

  /** The letters of stack `i`'s columns, read from the bottom row up and
      left to right within a row. */
  function Column(rows: seq<string>, labels: string, count: nat, i: nat): Stack
  {
    if rows == [] then []
    else Picked(rows[|rows| - 1], labels, count, i, 0) + Column(rows[..|rows| - 1], labels, count, i)
  }

  /** Storing the rows has a result exactly when every letter is labelled,
      and then each stack gains its column's letters, the bottom row's
      first, so the top row's crate ends on top. */
  lemma {:induction false} StoreRowsSpec(stacks: seq<Stack>, labels: string, rows: seq<string>)
    ensures StoreRows(stacks, labels, rows).Some? <==>
      forall r :: 0 <= r < |rows| ==> Labelled(rows[r], labels, |stacks|, 0)
    ensures StoreRows(stacks, labels, rows).Some? ==>
      var t := StoreRows(stacks, labels, rows).value;
      |t| == |stacks| &&
      forall i :: 0 <= i < |stacks| ==> t[i] == stacks[i] + Column(rows, labels, |stacks|, i)
    decreases |rows|
  {
    if rows != [] {
      var init := rows[..|rows| - 1];
      StoreRowSpec(stacks, labels, rows[|rows| - 1], 0);
      assert forall r :: 0 <= r < |init| ==> init[r] == rows[r];
      if StoreRow(stacks, labels, rows[|rows| - 1], 0).Some? {
        var next := StoreRow(stacks, labels, rows[|rows| - 1], 0).value;
        StoreRowsSpec(next, labels, init);
      }
    }
  }

  /** The number of stacks: the last character of the stripped label line
      read as a number; None when the map is empty, the label line blank
      (IndexError) or its last character not a digit (ValueError). */
  function StackCount(dockMap: seq<string>): Option<nat>
  {
    if dockMap == [] then None
    else
      var labels := Strip(dockMap[|dockMap| - 1]);
      if labels == [] || !IsDigit(labels[|labels| - 1]) then None
      else Some(DigitValue(labels[|labels| - 1]))
  }

  /** `count` empty stacks. */
  function EmptyStacks(count: nat): (r: seq<Stack>)
    ensures |r| == count && forall i :: 0 <= i < count ==> r[i] == []
  {
    seq(count, _ => [])
  }

  /** `Dock(dock_map)`: the stacks the diagram describes. */
  function InitialStacks(dockMap: seq<string>): Option<seq<Stack>>
  {
    match StackCount(dockMap)
    case None => None
    case Some(count) =>
      StoreRows(EmptyStacks(count), dockMap[|dockMap| - 1], dockMap[..|dockMap| - 1])
  }

  /** The dock read from a diagram has as many stacks as the label line
      says, and each stack holds the crate letters of its columns from the
      bottom row up; it exists exactly when every crate letter sits over a
      label naming a stack. */
  lemma InitialStacksSpec(dockMap: seq<string>)
    requires StackCount(dockMap).Some?
    ensures var count, labels, rows := StackCount(dockMap).value, dockMap[|dockMap| - 1], dockMap[..|dockMap| - 1];
      (InitialStacks(dockMap).Some? <==> forall r :: 0 <= r < |rows| ==> Labelled(rows[r], labels, count, 0)) &&
      (InitialStacks(dockMap).Some? ==>
        |InitialStacks(dockMap).value| == count &&
        forall i :: 0 <= i < count ==> InitialStacks(dockMap).value[i] == Column(rows, labels, count, i))
  {
    var count := StackCount(dockMap).value;
    StoreRowsSpec(EmptyStacks(count), dockMap[|dockMap| - 1], dockMap[..|dockMap| - 1]);
  }

  /** `get_top_crates()` on the stacks as values: the top crate of every
      stack, in stack order; None when a stack is empty (the program would
      wait forever). */
  function Tops(stacks: seq<Stack>): Option<string>
  {
    if stacks == [] then Some([])
    else if stacks[0] == [] then None
    else
      match Tops(stacks[1..])
      case None => None
      case Some(rest) => Some([Top(stacks[0])] + rest)
  }

  /** The top crates exist exactly when no stack is empty, one per stack,
      each the top of its stack. */
  lemma {:induction false} TopsSpec(stacks: seq<Stack>)
    ensures Tops(stacks).Some? <==> forall i :: 0 <= i < |stacks| ==> stacks[i] != []
    ensures Tops(stacks).Some? ==>
      |Tops(stacks).value| == |stacks| &&
      forall i :: 0 <= i < |stacks| ==> Tops(stacks).value[i] == Top(stacks[i])
  {
    if stacks != [] {
      TopsSpec(stacks[1..]);
      assert forall i :: 1 <= i < |stacks| ==> stacks[1..][i - 1] == stacks[i];
    }
  }

  /** The stacks once their top crates are taken. */
  function Popped(stacks: seq<Stack>): seq<Stack>
    requires forall i :: 0 <= i < |stacks| ==> stacks[i] != []
  {
    seq(|stacks|, i requires 0 <= i < |stacks| => Below(stacks[i]))
  }

  /** `execute_procedure(procedure, crane)` as a value: the diagram is the
      lines before the first empty line (ValueError when there is none),
      the commands the lines after it; the result is the top crates once
      every command has run. */
  function Procedure(procedure: seq<string>, crane: CraneModel): Option<string>
  {
    var blank := NextSep(procedure, "", 0);
    if blank == |procedure| then None
    else
      match InitialStacks(procedure[..blank])
      case None => None
      case Some(stacks) =>
        match Run(crane, stacks, procedure[blank + 1..])
        case None => None
        case Some(final) => Tops(final)
  }

  /** The dock: one stack of crates per label. */
  class Dock {
    var stacks: seq<Stack>

    /** `Dock(dock_map)`: one empty stack per label, then the crate letters
        stored row by row from the bottom row up. */
    constructor(dockMap: seq<string>)
      requires InitialStacks(dockMap).Some?
      ensures stacks == InitialStacks(dockMap).value
    {
      var count := StackCount(dockMap).value;
      var labels := dockMap[|dockMap| - 1];
      var rows := dockMap[..|dockMap| - 1];
      stacks := EmptyStacks(count);
      new;
      var r := |rows|;
      assert rows[..r] == rows;
      while r > 0
        invariant 0 <= r <= |rows| && |stacks| == count
        invariant StoreRows(stacks, labels, rows[..r]) == InitialStacks(dockMap)
      {
        var row := rows[r - 1];
        assert rows[..r][|rows[..r]| - 1] == row && rows[..r][..r - 1] == rows[..r - 1];
        ghost var start := stacks;
        for p := 0 to |row|
          invariant |stacks| == count
          invariant StoreRow(stacks, labels, row, p) == StoreRow(start, labels, row, 0)
        {
          if IsUpper(row[p]) {
            StoreCrate(DigitValue(labels[p]), row[p]);
          }
        }
        r := r - 1;
      }
      assert rows[..0] == [];
    }

    /** `pickup_crate(n)`: takes the top crate off stack `n`. */
    method PickupCrate(n: int) returns (crate: char)
      requires PickUp(stacks, n).Some?
      modifies this
      ensures (stacks, crate) == PickUp(old(stacks), n).value
    {
      var i := Slot(n, |stacks|).value;
      crate := Top(stacks[i]);
      stacks := stacks[i := Below(stacks[i])];
    }

    /** `store_crate(n, crate)`: puts `crate` on top of stack `n`. */
    method StoreCrate(n: int, crate: char)
      requires Slot(n, |stacks|).Some?
      modifies this
      ensures Some(stacks) == Store(old(stacks), n, crate)
    {
      var i := Slot(n, |stacks|).value;
      stacks := stacks[i := stacks[i] + [crate]];
    }

    /** `get_top_crates()`: takes the top crate off every stack, in stack
        order, and returns them. */
    method GetTopCrates() returns (result: string)
      requires forall i :: 0 <= i < |stacks| ==> stacks[i] != []
      modifies this
      ensures Tops(old(stacks)) == Some(result)
      ensures stacks == Popped(old(stacks))
    {
      TopsSpec(stacks);
      result := "";
      for k := 0 to |stacks|
        invariant |stacks| == |old(stacks)|
        invariant forall i :: 0 <= i < k ==> stacks[i] == Below(old(stacks)[i])
        invariant forall i :: k <= i < |stacks| ==> stacks[i] == old(stacks)[i]
        invariant |result| == k
        invariant forall i :: 0 <= i < k ==> result[i] == Top(old(stacks)[i])
      {
        var crate := PickupCrate(k + 1);
        result := result + [crate];
      }
      assert result == Tops(old(stacks)).value;
    }
  }

  /** The CrateMover 9000: one crate at a time. */
  class CrateMover9000 {
    constructor()
    {
    }

    /** `execute_command(command, dock)`: `k` times, pick up a crate from
        the origin and store it on the destination. */
    method ExecuteCommand(command: string, dock: Dock)
      requires Execute(Model9000, dock.stacks, command).Some?
      modifies dock
      ensures Some(dock.stacks) == Execute(Model9000, old(dock.stacks), command)
    {
      var c := ParseCommand(command).value;
      for t := 0 to c.count
        invariant Move9000(dock.stacks, c.count - t, c.origin, c.destination) ==
          Execute(Model9000, old(dock.stacks), command)
      {
        var crate := dock.PickupCrate(c.origin);
        dock.StoreCrate(c.destination, crate);
      }
    }
  }

  /** The CrateMover 9001: all `k` crates at once, through a holding stack
      that is empty between commands. */
  class CrateMover9001 {
    var queue: Stack

    constructor()
      ensures queue == []
    {
      queue := [];
    }

    /** `execute_command(command, dock)`: pick up `k` crates from the origin
        onto the holding stack, then empty it onto the destination. */
    method ExecuteCommand(command: string, dock: Dock)
      requires queue == []
      requires Execute(Model9001, dock.stacks, command).Some?
      modifies this, dock
      ensures queue == []
      ensures Some(dock.stacks) == Execute(Model9001, old(dock.stacks), command)
    {
      var c := ParseCommand(command).value;
      for t := 0 to c.count
        invariant Load(dock.stacks, queue, c.count - t, c.origin) == Load(old(dock.stacks), [], c.count, c.origin)
      {
        var crate := dock.PickupCrate(c.origin);
        queue := queue + [crate];
      }
      while queue != []
        invariant Unload(dock.stacks, queue, c.destination) == Execute(Model9001, old(dock.stacks), command)
        decreases |queue|
      {
        var crate := Top(queue);
        queue := Below(queue);
        dock.StoreCrate(c.destination, crate);
      }
    }
  }

  /** `execute_procedure(procedure, crane)`: read the dock from the lines
      before the first empty line, run every command after it, and take the
      top crates. */
  method ExecuteProcedure(procedure: seq<string>, crane: CraneModel) returns (r: string)
    requires Procedure(procedure, crane).Some?
    ensures Some(r) == Procedure(procedure, crane)
  {
    var blank := NextSep(procedure, "", 0);
    var dock := new Dock(procedure[..blank]);
    var mover9000 := new CrateMover9000();
    var mover9001 := new CrateMover9001();
    var commands := procedure[blank + 1..];
    ghost var final := Run(crane, dock.stacks, commands);
    for i := 0 to |commands|
      invariant mover9001.queue == []
      invariant Run(crane, dock.stacks, commands[i..]) == final
    {
      assert commands[i..][0] == commands[i] && commands[i..][1..] == commands[i + 1..];
      if crane == Model9000 {
        mover9000.ExecuteCommand(commands[i], dock);
      } else {
        mover9001.ExecuteCommand(commands[i], dock);
      }
    }
    TopsSpec(dock.stacks);
    r := dock.GetTopCrates();
  }
}
