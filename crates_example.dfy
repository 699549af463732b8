/** The example of the puzzle statement: three stacks and four commands. */
module CratesExample {
  import opened Text
  import opened Crates

  function ExampleProcedure(): seq<string>
  {
    ["    [D]    ", "[N] [C]    ", "[Z] [M] [P]", " 1   2   3 ", "",
     "move 1 from 2 to 1", "move 3 from 1 to 3", "move 2 from 2 to 1", "move 1 from 1 to 2"]
  }

  /** The label line names three stacks. */
  lemma ExampleStackCount(dockMap: seq<string>)
    requires |dockMap| == 4 && dockMap[3] == " 1   2   3 "
    ensures StackCount(dockMap) == Some(3)
  {
    var labels := dockMap[3];
    assert labels[0] == ' ' && labels[1] == '1' && labels[9] == '3' && labels[10] == ' ';
    assert SkipSpace(labels, 0) == 1;
    assert TrimEnd(labels, 1, 11) == 10;
  }

  /** Columns without a crate letter add nothing to any stack. */
  lemma {:induction false} PickedSkip(row: string, labels: string, count: nat, i: nat, p: nat, q: nat)
    requires p <= q <= |row|
    requires forall k :: p <= k < q ==> !IsUpper(row[k])
    ensures Picked(row, labels, count, i, p) == Picked(row, labels, count, i, q)
    decreases q - p
  {
    if p < q {
      PickedSkip(row, labels, count, i, p + 1, q);
    }
  }

  /** The crate letters of a row over the labels ` 1   2   3 `: only
      columns 1, 5 and 9 may hold letters, and their labels are 1, 2 and
      3. */
  lemma RowLetters(row: string, labels: string, a: char, b: char, c: char)
    requires labels == " 1   2   3 "
    requires |row| == 11 && row[1] == a && row[5] == b && row[9] == c
    requires forall q :: 0 <= q < 11 && q != 1 && q != 5 && q != 9 ==> !IsUpper(row[q])
    ensures Labelled(row, labels, 3, 0)
    ensures Picked(row, labels, 3, 0, 0) == if IsUpper(a) then [a] else []
    ensures Picked(row, labels, 3, 1, 0) == if IsUpper(b) then [b] else []
    ensures Picked(row, labels, 3, 2, 0) == if IsUpper(c) then [c] else []
  {
    assert labels[1] == '1' && labels[5] == '2' && labels[9] == '3';
    assert LabelSlot(labels, 1, 3) == Some(0);
    assert LabelSlot(labels, 5, 3) == Some(1);
    assert LabelSlot(labels, 9, 3) == Some(2);
    forall i | 0 <= i < 3
      ensures Picked(row, labels, 3, i, 0) ==
        (if IsUpper(a) && i == 0 then [a] else []) +
        (if IsUpper(b) && i == 1 then [b] else []) +
        (if IsUpper(c) && i == 2 then [c] else [])
    {
      PickedSkip(row, labels, 3, i, 10, 11);
      PickedSkip(row, labels, 3, i, 6, 9);
      PickedSkip(row, labels, 3, i, 2, 5);
      PickedSkip(row, labels, 3, i, 0, 1);
    }
  }

  /** Three rows, read from the bottom up. */
  lemma ColumnOfThree(rows: seq<string>, labels: string, count: nat, i: nat)
    requires |rows| == 3
    ensures Column(rows, labels, count, i) ==
      Picked(rows[2], labels, count, i, 0) + Picked(rows[1], labels, count, i, 0) + Picked(rows[0], labels, count, i, 0)
  {
    var two, one := rows[..2], rows[..1];
    assert two[1] == rows[1] && two[..1] == one && one[0] == rows[0] && one[..0] == [];
    assert Column(one, labels, count, i) == Picked(rows[0], labels, count, i, 0) + Column([], labels, count, i);
    assert Column(two, labels, count, i) == Picked(rows[1], labels, count, i, 0) + Column(one, labels, count, i);
    assert Column(rows, labels, count, i) == Picked(rows[2], labels, count, i, 0) + Column(two, labels, count, i);
  }

  /** A diagram of three rows over a label line naming three stacks. */
  lemma DockOfThree(dockMap: seq<string>, r0: string, r1: string, r2: string, labels: string, stacks: seq<Stack>)
    requires dockMap == [r0, r1, r2, labels] && StackCount(dockMap) == Some(3)
    requires Labelled(r0, labels, 3, 0) && Labelled(r1, labels, 3, 0) && Labelled(r2, labels, 3, 0)
    requires |stacks| == 3
    requires forall i :: 0 <= i < 3 ==>
      stacks[i] == Picked(r2, labels, 3, i, 0) + Picked(r1, labels, 3, i, 0) + Picked(r0, labels, 3, i, 0)
    ensures InitialStacks(dockMap) == Some(stacks)
  {
    var rows := dockMap[..3];
    assert rows == [r0, r1, r2] && dockMap[|dockMap| - 1] == labels;
    assert rows[0] == r0 && rows[1] == r1 && rows[2] == r2;
    assert forall r :: 0 <= r < |rows| ==> Labelled(rows[r], labels, 3, 0);
    InitialStacksSpec(dockMap);
    var v := InitialStacks(dockMap).value;
    assert |v| == 3;
    forall i | 0 <= i < 3
      ensures v[i] == stacks[i]
    {
      ColumnOfThree(rows, labels, 3, i);
    }
    assert v == stacks;
  }

  /** A row of the example diagram: its three columns, or blanks. */
  lemma ExampleRow(row: string, labels: string, a: char, b: char, c: char)
    requires labels == " 1   2   3 "
    requires row == [if a == ' ' then ' ' else '[', a, if a == ' ' then ' ' else ']', ' ',
                     if b == ' ' then ' ' else '[', b, if b == ' ' then ' ' else ']', ' ',
                     if c == ' ' then ' ' else '[', c, if c == ' ' then ' ' else ']']
    requires a == ' ' || IsUpper(a)
    requires b == ' ' || IsUpper(b)
    requires c == ' ' || IsUpper(c)
    ensures Labelled(row, labels, 3, 0)
    ensures Picked(row, labels, 3, 0, 0) == if IsUpper(a) then [a] else []
    ensures Picked(row, labels, 3, 1, 0) == if IsUpper(b) then [b] else []
    ensures Picked(row, labels, 3, 2, 0) == if IsUpper(c) then [c] else []
  {
    RowLetters(row, labels, a, b, c);
  }

  /** A diagram shaped like the example's, whatever its crate letters. */
  lemma DockOfLetters(dockMap: seq<string>, z: char, n: char, m: char, c: char, d: char, p: char)
    requires IsUpper(z) && IsUpper(n) && IsUpper(m) && IsUpper(c) && IsUpper(d) && IsUpper(p)
    requires dockMap == [[' ', ' ', ' ', ' ', '[', d, ']', ' ', ' ', ' ', ' '],
                         ['[', n, ']', ' ', '[', c, ']', ' ', ' ', ' ', ' '],
                         ['[', z, ']', ' ', '[', m, ']', ' ', '[', p, ']'],
                         " 1   2   3 "]
    ensures InitialStacks(dockMap) == Some([[z, n], [m, c, d], [p]])
  {
    ExampleStackCount(dockMap);
    var r0, r1, r2, labels := dockMap[0], dockMap[1], dockMap[2], dockMap[3];
    ExampleRow(r0, labels, ' ', d, ' ');
    ExampleRow(r1, labels, n, c, ' ');
    ExampleRow(r2, labels, z, m, p);
    var stacks: seq<Stack> := [[z, n], [m, c, d], [p]];
    assert stacks[0] == [z] + [n] + [];
    assert stacks[1] == [m] + [c] + [d];
    assert stacks[2] == [p] + [] + [];
    DockOfThree(dockMap, r0, r1, r2, labels, stacks);
  }

  /** The diagram puts Z and N on stack 1, M, C and D on stack 2, P on
      stack 3, bottom first. */
  lemma ExampleDock(dockMap: seq<string>)
    requires dockMap == ["    [D]    ", "[N] [C]    ", "[Z] [M] [P]", " 1   2   3 "]
    ensures InitialStacks(dockMap) == Some(["ZN", "MCD", "P"])
  {
    DockOfLetters(dockMap, 'Z', 'N', 'M', 'C', 'D', 'P');
  }

  /** A command whose text is known. */
  lemma ReadCommand(line: string, k: nat, a: nat, b: nat)
    requires k < 10 && a < 10 && b < 10
    requires line == "move " + [DigitChar(k)] + " from " + [DigitChar(a)] + " to " + [DigitChar(b)]
    ensures ParseCommand(line) == Some(Command(k, a, b))
  {
    assert Decimal(k) == [DigitChar(k)] && Decimal(a) == [DigitChar(a)] && Decimal(b) == [DigitChar(b)];
    ParseCommandText(Command(k, a, b));
  }

  lemma ExampleCommand0(line: string)
    requires line == "move 1 from 2 to 1"
    ensures ParseCommand(line) == Some(Command(1, 2, 1))
  {
    ReadCommand(line, 1, 2, 1);
  }

  lemma ExampleCommand1(line: string)
    requires line == "move 3 from 1 to 3"
    ensures ParseCommand(line) == Some(Command(3, 1, 3))
  {
    ReadCommand(line, 3, 1, 3);
  }

  lemma ExampleCommand2(line: string)
    requires line == "move 2 from 2 to 1"
    ensures ParseCommand(line) == Some(Command(2, 2, 1))
  {
    ReadCommand(line, 2, 2, 1);
  }

  lemma ExampleCommand3(line: string)
    requires line == "move 1 from 1 to 2"
    ensures ParseCommand(line) == Some(Command(1, 1, 2))
  {
    ReadCommand(line, 1, 1, 2);
  }

  /** Four commands, each with a known result, run one after the other. */
  lemma {:induction false} RunFour(crane: CraneModel, lines: seq<string>, cs: seq<Command>, ss: seq<seq<Stack>>)
    requires |lines| == 4 && |cs| == 4 && |ss| == 5
    requires forall n :: 0 <= n < 4 ==> ParseCommand(lines[n]) == Some(cs[n])
    requires forall n :: 0 <= n < 4 ==> Move(crane, ss[n], cs[n]) == Some(ss[n + 1])
    ensures Run(crane, ss[0], lines) == Some(ss[4])
  {
    assert lines[1..][0] == lines[1] && lines[2..][0] == lines[2] && lines[3..][0] == lines[3];
    assert lines[1..][1..] == lines[2..] && lines[2..][1..] == lines[3..] && lines[3..][1..] == [];
    assert Run(crane, ss[3], lines[3..]) == Run(crane, ss[4], []);
    assert Run(crane, ss[2], lines[2..]) == Run(crane, ss[3], lines[3..]);
    assert Run(crane, ss[1], lines[1..]) == Run(crane, ss[2], lines[2..]);
    assert Run(crane, ss[0], lines) == Run(crane, ss[1], lines[1..]);
  }

  /** The CrateMover 9000 between two different stacks, its result known. */
  lemma Move9000Is(s: seq<Stack>, k: nat, from: nat, to: nat, i: nat, j: nat, t: seq<Stack>)
    requires Slot(from, |s|) == Some(i) && Slot(to, |s|) == Some(j) && i != j && k <= |s[i]|
    requires t == s[i := Under(s[i], k)][j := s[j] + Reverse(TopCrates(s[i], k))]
    ensures Move(Model9000, s, Command(k, from, to)) == Some(t)
  {
    Move9000Moves(s, k, from, to, i, j);
  }

  /** The CrateMover 9001, its result known. */
  lemma Move9001Is(s: seq<Stack>, k: nat, from: nat, to: nat, i: nat, j: nat, t: seq<Stack>)
    requires Slot(from, |s|) == Some(i) && Slot(to, |s|) == Some(j) && k <= |s[i]|
    requires t == s[i := Under(s[i], k)][j := s[i := Under(s[i], k)][j] + TopCrates(s[i], k)]
    ensures Move(Model9001, s, Command(k, from, to)) == Some(t)
  {
    Move9001Moves(s, k, from, to, i, j);
  }

  lemma Reverse3(a: char, b: char, c: char)
    ensures Reverse([a, b, c]) == [c, b, a]
  {
    assert [a, b, c][..2] == [a, b];
    Reverse2(a, b);
  }

  lemma Reverse2(a: char, b: char)
    ensures Reverse([a, b]) == [b, a]
  {
    assert [a, b][..1] == [a] && [a][..0] == [];
  }

  lemma Reverse1(a: char)
    ensures Reverse([a]) == [a]
  {
    assert [a][..0] == [];
  }

  lemma Step9000a(s: seq<Stack>, t: seq<Stack>, z: char, n: char, m: char, c: char, d: char, p: char)
    requires s == [[z, n], [m, c, d], [p]] && t == [[z, n, d], [m, c], [p]]
    ensures Move(Model9000, s, Command(1, 2, 1)) == Some(t)
  {
    assert Under([m, c, d], 1) == [m, c] && TopCrates([m, c, d], 1) == [d];
    Reverse1(d);
    assert [z, n] + [d] == [z, n, d];
    assert s[1 := [m, c]] == [[z, n], [m, c], [p]];
    Move9000Is(s, 1, 2, 1, 1, 0, t);
  }

  lemma Step9000b(s: seq<Stack>, t: seq<Stack>, z: char, n: char, m: char, c: char, d: char, p: char)
    requires s == [[z, n, d], [m, c], [p]] && t == [[], [m, c], [p, d, n, z]]
    ensures Move(Model9000, s, Command(3, 1, 3)) == Some(t)
  {
    assert Under([z, n, d], 3) == [] && TopCrates([z, n, d], 3) == [z, n, d];
    Reverse3(z, n, d);
    assert [p] + [d, n, z] == [p, d, n, z];
    assert s[0 := []] == [[], [m, c], [p]];
    Move9000Is(s, 3, 1, 3, 0, 2, t);
  }

  lemma Step9000c(s: seq<Stack>, t: seq<Stack>, z: char, n: char, m: char, c: char, d: char, p: char)
    requires s == [[], [m, c], [p, d, n, z]] && t == [[c, m], [], [p, d, n, z]]
    ensures Move(Model9000, s, Command(2, 2, 1)) == Some(t)
  {
    assert Under([m, c], 2) == [] && TopCrates([m, c], 2) == [m, c];
    Reverse2(m, c);
    assert s[0] + Reverse(TopCrates(s[1], 2)) == [c, m];
    assert s[1 := Under(s[1], 2)] == [[], [], [p, d, n, z]];
    Move9000Is(s, 2, 2, 1, 1, 0, t);
  }

  lemma Step9000d(s: seq<Stack>, t: seq<Stack>, z: char, n: char, m: char, c: char, d: char, p: char)
    requires s == [[c, m], [], [p, d, n, z]] && t == [[c], [m], [p, d, n, z]]
    ensures Move(Model9000, s, Command(1, 1, 2)) == Some(t)
  {
    assert Under([c, m], 1) == [c] && TopCrates([c, m], 1) == [m];
    Reverse1(m);
    assert [] + [m] == [m];
    assert s[0 := [c]] == [[c], [], [p, d, n, z]];
    Move9000Is(s, 1, 1, 2, 0, 1, t);
  }

  lemma Step9001a(s: seq<Stack>, t: seq<Stack>, z: char, n: char, m: char, c: char, d: char, p: char)
    requires s == [[z, n], [m, c, d], [p]] && t == [[z, n, d], [m, c], [p]]
    ensures Move(Model9001, s, Command(1, 2, 1)) == Some(t)
  {
    assert Under([m, c, d], 1) == [m, c] && TopCrates([m, c, d], 1) == [d];
    assert [z, n] + [d] == [z, n, d];
    assert s[1 := [m, c]] == [[z, n], [m, c], [p]];
    Move9001Is(s, 1, 2, 1, 1, 0, t);
  }

  lemma Step9001b(s: seq<Stack>, t: seq<Stack>, z: char, n: char, m: char, c: char, d: char, p: char)
    requires s == [[z, n, d], [m, c], [p]] && t == [[], [m, c], [p, z, n, d]]
    ensures Move(Model9001, s, Command(3, 1, 3)) == Some(t)
  {
    assert Under([z, n, d], 3) == [] && TopCrates([z, n, d], 3) == [z, n, d];
    assert [p] + [z, n, d] == [p, z, n, d];
    assert s[0 := []] == [[], [m, c], [p]];
    Move9001Is(s, 3, 1, 3, 0, 2, t);
  }

  lemma Step9001c(s: seq<Stack>, t: seq<Stack>, z: char, n: char, m: char, c: char, d: char, p: char)
    requires s == [[], [m, c], [p, z, n, d]] && t == [[m, c], [], [p, z, n, d]]
    ensures Move(Model9001, s, Command(2, 2, 1)) == Some(t)
  {
    assert Under([m, c], 2) == [] && TopCrates([m, c], 2) == [m, c];
    assert [] + [m, c] == [m, c];
    assert s[1 := []] == [[], [], [p, z, n, d]];
    Move9001Is(s, 2, 2, 1, 1, 0, t);
  }

  lemma Step9001d(s: seq<Stack>, t: seq<Stack>, z: char, n: char, m: char, c: char, d: char, p: char)
    requires s == [[m, c], [], [p, z, n, d]] && t == [[m], [c], [p, z, n, d]]
    ensures Move(Model9001, s, Command(1, 1, 2)) == Some(t)
  {
    assert Under([m, c], 1) == [m] && TopCrates([m, c], 1) == [c];
    assert [] + [c] == [c];
    assert s[0 := [m]] == [[m], [], [p, z, n, d]];
    Move9001Is(s, 1, 1, 2, 0, 1, t);
  }

  /** The top crates of three stacks. */
  lemma TopsOfThree(s: seq<Stack>, r: string)
    requires |s| == 3 && s[0] != [] && s[1] != [] && s[2] != []
    requires r == [Top(s[0]), Top(s[1]), Top(s[2])]
    ensures Tops(s) == Some(r)
  {
    TopsSpec(s);
    assert forall i :: 0 <= i < |s| ==> s[i] != [];
    assert Tops(s).value == r;
  }

  /** The procedure splits at line 4 into the diagram and the commands. */
  lemma ExampleParts(procedure: seq<string>)
    requires procedure == ExampleProcedure()
    ensures NextSep(procedure, "", 0) == 4
    ensures procedure[..4] == ["    [D]    ", "[N] [C]    ", "[Z] [M] [P]", " 1   2   3 "]
    ensures |procedure| == 9
    ensures procedure[5] == "move 1 from 2 to 1" && procedure[6] == "move 3 from 1 to 3"
    ensures procedure[7] == "move 2 from 2 to 1" && procedure[8] == "move 1 from 1 to 2"
  {
    ExampleBlank(procedure);
  }

  /** The first empty line is line 4. */
  lemma ExampleBlank(procedure: seq<string>)
    requires procedure == ExampleProcedure()
    ensures NextSep(procedure, "", 0) == 4
  {
    assert |procedure| == 9 && procedure[4] == "";
    assert forall k :: 0 <= k < 4 ==> |procedure[k]| == 11;
    NextSepUnique(procedure, "", 0, 4);
  }

  /** The procedure's result, from its parts. */
  lemma ProcedureOf(procedure: seq<string>, crane: CraneModel, stacks: seq<Stack>, final: seq<Stack>, r: string)
    requires NextSep(procedure, "", 0) == 4 < |procedure|
    requires InitialStacks(procedure[..4]) == Some(stacks)
    requires Run(crane, stacks, procedure[5..]) == Some(final)
    requires Tops(final) == Some(r)
    ensures Procedure(procedure, crane) == Some(r)
  {
  }

  /** The commands of the example, read. */
  lemma ExampleCommands(lines: seq<string>)
    requires |lines| == 4
    requires lines[0] == "move 1 from 2 to 1" && lines[1] == "move 3 from 1 to 3"
    requires lines[2] == "move 2 from 2 to 1" && lines[3] == "move 1 from 1 to 2"
    ensures forall n :: 0 <= n < 4 ==> ParseCommand(lines[n]) == Some([Command(1, 2, 1), Command(3, 1, 3), Command(2, 2, 1), Command(1, 1, 2)][n])
  {
    ExampleCommand0(lines[0]);
    ExampleCommand1(lines[1]);
    ExampleCommand2(lines[2]);
    ExampleCommand3(lines[3]);
  }

  /** The four example commands, run by the CrateMover 9000 on stacks
      holding any letters in the example's places. */
  lemma Run9000(lines: seq<string>, z: char, n: char, m: char, c: char, d: char, p: char)
    requires |lines| == 4
    requires lines[0] == "move 1 from 2 to 1" && lines[1] == "move 3 from 1 to 3"
    requires lines[2] == "move 2 from 2 to 1" && lines[3] == "move 1 from 1 to 2"
    ensures Run(Model9000, [[z, n], [m, c, d], [p]], lines) == Some([[c], [m], [p, d, n, z]])
  {
    ExampleCommands(lines);
    var ss: seq<seq<Stack>> := [[[z, n], [m, c, d], [p]], [[z, n, d], [m, c], [p]], [[], [m, c], [p, d, n, z]], [[c, m], [], [p, d, n, z]], [[c], [m], [p, d, n, z]]];
    Step9000a(ss[0], ss[1], z, n, m, c, d, p);
    Step9000b(ss[1], ss[2], z, n, m, c, d, p);
    Step9000c(ss[2], ss[3], z, n, m, c, d, p);
    Step9000d(ss[3], ss[4], z, n, m, c, d, p);
    RunFour(Model9000, lines, [Command(1, 2, 1), Command(3, 1, 3), Command(2, 2, 1), Command(1, 1, 2)], ss);
  }

  /** The same commands run by the CrateMover 9001. */
  lemma Run9001(lines: seq<string>, z: char, n: char, m: char, c: char, d: char, p: char)
    requires |lines| == 4
    requires lines[0] == "move 1 from 2 to 1" && lines[1] == "move 3 from 1 to 3"
    requires lines[2] == "move 2 from 2 to 1" && lines[3] == "move 1 from 1 to 2"
    ensures Run(Model9001, [[z, n], [m, c, d], [p]], lines) == Some([[m], [c], [p, z, n, d]])
  {
    ExampleCommands(lines);
    var ss: seq<seq<Stack>> := [[[z, n], [m, c, d], [p]], [[z, n, d], [m, c], [p]], [[], [m, c], [p, z, n, d]], [[m, c], [], [p, z, n, d]], [[m], [c], [p, z, n, d]]];
    Step9001a(ss[0], ss[1], z, n, m, c, d, p);
    Step9001b(ss[1], ss[2], z, n, m, c, d, p);
    Step9001c(ss[2], ss[3], z, n, m, c, d, p);
    Step9001d(ss[3], ss[4], z, n, m, c, d, p);
    RunFour(Model9001, lines, [Command(1, 2, 1), Command(3, 1, 3), Command(2, 2, 1), Command(1, 1, 2)], ss);
  }

  /** `test_part_1`: with the CrateMover 9000 the top crates spell "CMZ". */
  lemma {:induction false} ExampleProcedure9000(procedure: seq<string>)
    requires procedure == ExampleProcedure()
    ensures Procedure(procedure, Model9000) == Some("CMZ")
  {
    ExampleParts(procedure);
    ExampleDock(procedure[..4]);
    Run9000(procedure[5..], 'Z', 'N', 'M', 'C', 'D', 'P');
    TopsOfThree(["C", "M", "PDNZ"], "CMZ");
    ProcedureOf(procedure, Model9000, ["ZN", "MCD", "P"], ["C", "M", "PDNZ"], "CMZ");
  }

  /** `test_part_2`: with the CrateMover 9001 the top crates spell "MCD". */
  lemma {:induction false} ExampleProcedure9001(procedure: seq<string>)
    requires procedure == ExampleProcedure()
    ensures Procedure(procedure, Model9001) == Some("MCD")
  {
    ExampleParts(procedure);
    ExampleDock(procedure[..4]);
    Run9001(procedure[5..], 'Z', 'N', 'M', 'C', 'D', 'P');
    TopsOfThree(["M", "C", "PZND"], "MCD");
    ProcedureOf(procedure, Model9001, ["ZN", "MCD", "P"], ["M", "C", "PZND"], "MCD");
  }
}
