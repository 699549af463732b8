/** The example transcript of day_7.py replayed from the root, the tree it
    builds, and the two reports on that tree (day_7.py:155-164). */
module DirectoryTreeExample {
  import opened Text
  import opened DirectoryTree

  /** The example transcript, one line per element. */
  function ExampleLines(): seq<string>
  {
    [ "$ cd /",
      "$ ls",
      "dir a",
      "14848514 b.txt",
      "8504156 c.dat",
      "dir d",
      "$ cd a",
      "$ ls",
      "dir e",
      "29116 f",
      "2557 g",
      "62596 h.lst",
      "$ cd e",
      "$ ls",
      "584 i",
      "$ cd ..",
      "$ cd ..",
      "$ cd d",
      "$ ls",
      "4060174 j",
      "8033020 d.log",
      "5626152 d.ext",
      "7214296 k" ]
  }

  /** The tree the example transcript describes: `/` holds `a` and `d`,
      and `a` holds `e`. */
  function ExampleTree(): Arena
  {
    [ Directory("/", None, [Dir("a", 1), File("b.txt", 14848514), File("c.dat", 8504156), Dir("d", 2)]),
      Directory("a", Some(0), [Dir("e", 3), File("f", 29116), File("g", 2557), File("h.lst", 62596)]),
      Directory("d", Some(0), [File("j", 4060174), File("d.log", 8033020), File("d.ext", 5626152), File("k", 7214296)]),
      Directory("e", Some(1), [File("i", 584)]) ]
  }

  /** The tree after each listed line of the transcript. */

  function Tree0(): Arena
  {
    [ Directory("/", None, []) ]
  }

  function Tree1(): Arena
  {
    [ Directory("/", None, [Dir("a", 1)]),
      Directory("a", Some(0), []) ]
  }

  function Tree2(): Arena
  {
    [ Directory("/", None, [Dir("a", 1), File("b.txt", 14848514)]),
      Directory("a", Some(0), []) ]
  }

  function Tree3(): Arena
  {
    [ Directory("/", None, [Dir("a", 1), File("b.txt", 14848514), File("c.dat", 8504156)]),
      Directory("a", Some(0), []) ]
  }

  function Tree4(): Arena
  {
    [ Directory("/", None, [Dir("a", 1), File("b.txt", 14848514), File("c.dat", 8504156), Dir("d", 2)]),
      Directory("a", Some(0), []),
      Directory("d", Some(0), []) ]
  }

  function Tree5(): Arena
  {
    [ Directory("/", None, [Dir("a", 1), File("b.txt", 14848514), File("c.dat", 8504156), Dir("d", 2)]),
      Directory("a", Some(0), [Dir("e", 3)]),
      Directory("d", Some(0), []),
      Directory("e", Some(1), []) ]
  }

  function Tree6(): Arena
  {
    [ Directory("/", None, [Dir("a", 1), File("b.txt", 14848514), File("c.dat", 8504156), Dir("d", 2)]),
      Directory("a", Some(0), [Dir("e", 3), File("f", 29116)]),
      Directory("d", Some(0), []),
      Directory("e", Some(1), []) ]
  }

  function Tree7(): Arena
  {
    [ Directory("/", None, [Dir("a", 1), File("b.txt", 14848514), File("c.dat", 8504156), Dir("d", 2)]),
      Directory("a", Some(0), [Dir("e", 3), File("f", 29116), File("g", 2557)]),
      Directory("d", Some(0), []),
      Directory("e", Some(1), []) ]
  }

  function Tree8(): Arena
  {
    [ Directory("/", None, [Dir("a", 1), File("b.txt", 14848514), File("c.dat", 8504156), Dir("d", 2)]),
      Directory("a", Some(0), [Dir("e", 3), File("f", 29116), File("g", 2557), File("h.lst", 62596)]),
      Directory("d", Some(0), []),
      Directory("e", Some(1), []) ]
  }

  function Tree9(): Arena
  {
    [ Directory("/", None, [Dir("a", 1), File("b.txt", 14848514), File("c.dat", 8504156), Dir("d", 2)]),
      Directory("a", Some(0), [Dir("e", 3), File("f", 29116), File("g", 2557), File("h.lst", 62596)]),
      Directory("d", Some(0), []),
      Directory("e", Some(1), [File("i", 584)]) ]
  }

  function Tree10(): Arena
  {
    [ Directory("/", None, [Dir("a", 1), File("b.txt", 14848514), File("c.dat", 8504156), Dir("d", 2)]),
      Directory("a", Some(0), [Dir("e", 3), File("f", 29116), File("g", 2557), File("h.lst", 62596)]),
      Directory("d", Some(0), [File("j", 4060174)]),
      Directory("e", Some(1), [File("i", 584)]) ]
  }

  function Tree11(): Arena
  {
    [ Directory("/", None, [Dir("a", 1), File("b.txt", 14848514), File("c.dat", 8504156), Dir("d", 2)]),
      Directory("a", Some(0), [Dir("e", 3), File("f", 29116), File("g", 2557), File("h.lst", 62596)]),
      Directory("d", Some(0), [File("j", 4060174), File("d.log", 8033020)]),
      Directory("e", Some(1), [File("i", 584)]) ]
  }

  function Tree12(): Arena
  {
    [ Directory("/", None, [Dir("a", 1), File("b.txt", 14848514), File("c.dat", 8504156), Dir("d", 2)]),
      Directory("a", Some(0), [Dir("e", 3), File("f", 29116), File("g", 2557), File("h.lst", 62596)]),
      Directory("d", Some(0), [File("j", 4060174), File("d.log", 8033020), File("d.ext", 5626152)]),
      Directory("e", Some(1), [File("i", 584)]) ]
  }

  lemma Tree0WellFormed()
    ensures WellFormed(Tree0())
  {
    assert Consistent(Tree0(), Root);
  }

  lemma ListedLine(line: string, x: string, y: string)
    requires line == x + " " + y && IsWord(x) && IsWord(y)
    ensures Words(line) == [x, y]
  {
    WordsOfTwo(x, y);
  }

  /** Listing a file under a new name appends it to the directory. */
  lemma ApplyNewFile(a: Arena, d: nat, name: string, size: nat)
    requires WellFormed(a) && d < |a|
    requires forall m :: m in a[d].content ==> m.name != name
    ensures Apply(a, d, SizedFile(name, size)) == a[d := a[d].(content := a[d].content + [File(name, size)])]
  {
    PutNewName(a[d].content, File(name, size));
  }

  /** Listing a subdirectory under a new name creates its record and
      appends it to the directory. */
  lemma ApplyNewDir(a: Arena, d: nat, name: string)
    requires WellFormed(a) && d < |a|
    requires forall m :: m in a[d].content ==> m.name != name
    ensures Apply(a, d, SubDir(name)) == (a + [Directory(name, Some(d), [])])[d := a[d].(content := a[d].content + [Dir(name, |a|)])]
  {
    var b := a + [Directory(name, Some(d), [])];
    assert b[d] == a[d];
    PutNewName(a[d].content, Dir(name, |a|));
  }

  /** Listing a line whose entry is known. */
  lemma ListingCons(a: Arena, d: nat, line: string, rest: seq<string>, e: Entry)
    requires WellFormed(a) && d < |a| && ParseEntry(line) == Some(e)
    ensures Listing(a, At(d), [line] + rest) == Listing(Apply(a, d, e), At(d), rest)
  {
    assert ([line] + rest)[1..] == rest;
  }

  lemma Parse0()
    ensures ParseEntry("dir a") == Some(SubDir("a"))
  {
    ListedLine("dir a", "dir", "a");
  }

  lemma Fresh0()
    ensures 0 < |Tree0()| && forall m :: m in Tree0()[0].content ==> m.name != "a"
    ensures var a := Tree0(); (a + [Directory("a", Some(0), [])])[0 := a[0].(content := a[0].content + [Dir("a", |a|)])] == Tree1()
  {
    var a := Tree0();
    assert |a| == 1;
    assert a[0].content + [Dir("a", 1)] == [Dir("a", 1)];
  }

  lemma Step0()
    requires WellFormed(Tree0())
    ensures 0 < |Tree0()| && Apply(Tree0(), 0, SubDir("a")) == Tree1() && WellFormed(Tree1())
  {
    var a := Tree0();
    Fresh0();
    ApplyNewDir(a, 0, "a");
  }

  lemma Parse1()
    ensures ParseEntry("14848514 b.txt") == Some(SizedFile("b.txt", 14848514))
  {
    ListedLine("14848514 b.txt", "14848514", "b.txt");
    assert DigitsFrom("14848514", 8);
    assert DigitsFrom("14848514", 7);
    assert DigitsFrom("14848514", 6);
    assert DigitsFrom("14848514", 5);
    assert DigitsFrom("14848514", 4);
    assert DigitsFrom("14848514", 3);
    assert DigitsFrom("14848514", 2);
    assert DigitsFrom("14848514", 1);
    assert DigitsFrom("14848514", 0);
    assert ValueFrom("14848514", 8, 14848514) == 14848514;
    assert ValueFrom("14848514", 7, 1484851) == 14848514;
    assert ValueFrom("14848514", 6, 148485) == 14848514;
    assert ValueFrom("14848514", 5, 14848) == 14848514;
    assert ValueFrom("14848514", 4, 1484) == 14848514;
    assert ValueFrom("14848514", 3, 148) == 14848514;
    assert ValueFrom("14848514", 2, 14) == 14848514;
    assert ValueFrom("14848514", 1, 1) == 14848514;
    assert ValueFrom("14848514", 0, 0) == 14848514;
  }

  lemma Fresh1()
    ensures 0 < |Tree1()| && forall m :: m in Tree1()[0].content ==> m.name != "b.txt"
    ensures var a := Tree1(); a[0 := a[0].(content := a[0].content + [File("b.txt", 14848514)])] == Tree2()
  {
    var a := Tree1();
    assert |a| == 2;
    assert a[0].content + [File("b.txt", 14848514)] == [Dir("a", 1), File("b.txt", 14848514)];
  }

  lemma Step1()
    requires WellFormed(Tree1())
    ensures 0 < |Tree1()| && Apply(Tree1(), 0, SizedFile("b.txt", 14848514)) == Tree2() && WellFormed(Tree2())
  {
    var a := Tree1();
    Fresh1();
    ApplyNewFile(a, 0, "b.txt", 14848514);
  }

  lemma Parse2()
    ensures ParseEntry("8504156 c.dat") == Some(SizedFile("c.dat", 8504156))
  {
    ListedLine("8504156 c.dat", "8504156", "c.dat");
    assert DigitsFrom("8504156", 7);
    assert DigitsFrom("8504156", 6);
    assert DigitsFrom("8504156", 5);
    assert DigitsFrom("8504156", 4);
    assert DigitsFrom("8504156", 3);
    assert DigitsFrom("8504156", 2);
    assert DigitsFrom("8504156", 1);
    assert DigitsFrom("8504156", 0);
    assert ValueFrom("8504156", 7, 8504156) == 8504156;
    assert ValueFrom("8504156", 6, 850415) == 8504156;
    assert ValueFrom("8504156", 5, 85041) == 8504156;
    assert ValueFrom("8504156", 4, 8504) == 8504156;
    assert ValueFrom("8504156", 3, 850) == 8504156;
    assert ValueFrom("8504156", 2, 85) == 8504156;
    assert ValueFrom("8504156", 1, 8) == 8504156;
    assert ValueFrom("8504156", 0, 0) == 8504156;
  }

  lemma Fresh2()
    ensures 0 < |Tree2()| && forall m :: m in Tree2()[0].content ==> m.name != "c.dat"
    ensures var a := Tree2(); a[0 := a[0].(content := a[0].content + [File("c.dat", 8504156)])] == Tree3()
  {
    var a := Tree2();
    assert |a| == 2;
    assert a[0].content + [File("c.dat", 8504156)] == [Dir("a", 1), File("b.txt", 14848514), File("c.dat", 8504156)];
  }

  lemma Step2()
    requires WellFormed(Tree2())
    ensures 0 < |Tree2()| && Apply(Tree2(), 0, SizedFile("c.dat", 8504156)) == Tree3() && WellFormed(Tree3())
  {
    var a := Tree2();
    Fresh2();
    ApplyNewFile(a, 0, "c.dat", 8504156);
  }

  lemma Parse3()
    ensures ParseEntry("dir d") == Some(SubDir("d"))
  {
    ListedLine("dir d", "dir", "d");
  }

  lemma Fresh3()
    ensures 0 < |Tree3()| && forall m :: m in Tree3()[0].content ==> m.name != "d"
    ensures var a := Tree3(); (a + [Directory("d", Some(0), [])])[0 := a[0].(content := a[0].content + [Dir("d", |a|)])] == Tree4()
  {
    var a := Tree3();
    assert |a| == 2;
    assert a[0].content + [Dir("d", 2)] == [Dir("a", 1), File("b.txt", 14848514), File("c.dat", 8504156), Dir("d", 2)];
  }

  lemma Step3()
    requires WellFormed(Tree3())
    ensures 0 < |Tree3()| && Apply(Tree3(), 0, SubDir("d")) == Tree4() && WellFormed(Tree4())
  {
    var a := Tree3();
    Fresh3();
    ApplyNewDir(a, 0, "d");
  }

  lemma Parse4()
    ensures ParseEntry("dir e") == Some(SubDir("e"))
  {
    ListedLine("dir e", "dir", "e");
  }

  lemma Fresh4()
    ensures 1 < |Tree4()| && forall m :: m in Tree4()[1].content ==> m.name != "e"
    ensures var a := Tree4(); (a + [Directory("e", Some(1), [])])[1 := a[1].(content := a[1].content + [Dir("e", |a|)])] == Tree5()
  {
    var a := Tree4();
    assert |a| == 3;
    assert a[1].content + [Dir("e", 3)] == [Dir("e", 3)];
  }

  lemma Step4()
    requires WellFormed(Tree4())
    ensures 1 < |Tree4()| && Apply(Tree4(), 1, SubDir("e")) == Tree5() && WellFormed(Tree5())
  {
    var a := Tree4();
    Fresh4();
    ApplyNewDir(a, 1, "e");
  }

  lemma Parse5()
    ensures ParseEntry("29116 f") == Some(SizedFile("f", 29116))
  {
    ListedLine("29116 f", "29116", "f");
    assert DigitsFrom("29116", 5);
    assert DigitsFrom("29116", 4);
    assert DigitsFrom("29116", 3);
    assert DigitsFrom("29116", 2);
    assert DigitsFrom("29116", 1);
    assert DigitsFrom("29116", 0);
    assert ValueFrom("29116", 5, 29116) == 29116;
    assert ValueFrom("29116", 4, 2911) == 29116;
    assert ValueFrom("29116", 3, 291) == 29116;
    assert ValueFrom("29116", 2, 29) == 29116;
    assert ValueFrom("29116", 1, 2) == 29116;
    assert ValueFrom("29116", 0, 0) == 29116;
  }

  lemma Fresh5()
    ensures 1 < |Tree5()| && forall m :: m in Tree5()[1].content ==> m.name != "f"
    ensures var a := Tree5(); a[1 := a[1].(content := a[1].content + [File("f", 29116)])] == Tree6()
  {
    var a := Tree5();
    assert |a| == 4;
    assert a[1].content + [File("f", 29116)] == [Dir("e", 3), File("f", 29116)];
  }

  lemma Step5()
    requires WellFormed(Tree5())
    ensures 1 < |Tree5()| && Apply(Tree5(), 1, SizedFile("f", 29116)) == Tree6() && WellFormed(Tree6())
  {
    var a := Tree5();
    Fresh5();
    ApplyNewFile(a, 1, "f", 29116);
  }

  lemma Parse6()
    ensures ParseEntry("2557 g") == Some(SizedFile("g", 2557))
  {
    ListedLine("2557 g", "2557", "g");
    assert DigitsFrom("2557", 4);
    assert DigitsFrom("2557", 3);
    assert DigitsFrom("2557", 2);
    assert DigitsFrom("2557", 1);
    assert DigitsFrom("2557", 0);
    assert ValueFrom("2557", 4, 2557) == 2557;
    assert ValueFrom("2557", 3, 255) == 2557;
    assert ValueFrom("2557", 2, 25) == 2557;
    assert ValueFrom("2557", 1, 2) == 2557;
    assert ValueFrom("2557", 0, 0) == 2557;
  }

  lemma Fresh6()
    ensures 1 < |Tree6()| && forall m :: m in Tree6()[1].content ==> m.name != "g"
    ensures var a := Tree6(); a[1 := a[1].(content := a[1].content + [File("g", 2557)])] == Tree7()
  {
    var a := Tree6();
    assert |a| == 4;
    assert a[1].content + [File("g", 2557)] == [Dir("e", 3), File("f", 29116), File("g", 2557)];
  }

  lemma Step6()
    requires WellFormed(Tree6())
    ensures 1 < |Tree6()| && Apply(Tree6(), 1, SizedFile("g", 2557)) == Tree7() && WellFormed(Tree7())
  {
    var a := Tree6();
    Fresh6();
    ApplyNewFile(a, 1, "g", 2557);
  }

  lemma Parse7()
    ensures ParseEntry("62596 h.lst") == Some(SizedFile("h.lst", 62596))
  {
    ListedLine("62596 h.lst", "62596", "h.lst");
    assert DigitsFrom("62596", 5);
    assert DigitsFrom("62596", 4);
    assert DigitsFrom("62596", 3);
    assert DigitsFrom("62596", 2);
    assert DigitsFrom("62596", 1);
    assert DigitsFrom("62596", 0);
    assert ValueFrom("62596", 5, 62596) == 62596;
    assert ValueFrom("62596", 4, 6259) == 62596;
    assert ValueFrom("62596", 3, 625) == 62596;
    assert ValueFrom("62596", 2, 62) == 62596;
    assert ValueFrom("62596", 1, 6) == 62596;
    assert ValueFrom("62596", 0, 0) == 62596;
  }

  lemma Fresh7()
    ensures 1 < |Tree7()| && forall m :: m in Tree7()[1].content ==> m.name != "h.lst"
    ensures var a := Tree7(); a[1 := a[1].(content := a[1].content + [File("h.lst", 62596)])] == Tree8()
  {
    var a := Tree7();
    assert |a| == 4;
    assert a[1].content + [File("h.lst", 62596)] == [Dir("e", 3), File("f", 29116), File("g", 2557), File("h.lst", 62596)];
  }

  lemma Step7()
    requires WellFormed(Tree7())
    ensures 1 < |Tree7()| && Apply(Tree7(), 1, SizedFile("h.lst", 62596)) == Tree8() && WellFormed(Tree8())
  {
    var a := Tree7();
    Fresh7();
    ApplyNewFile(a, 1, "h.lst", 62596);
  }

  lemma Parse8()
    ensures ParseEntry("584 i") == Some(SizedFile("i", 584))
  {
    ListedLine("584 i", "584", "i");
    assert DigitsFrom("584", 3);
    assert DigitsFrom("584", 2);
    assert DigitsFrom("584", 1);
    assert DigitsFrom("584", 0);
    assert ValueFrom("584", 3, 584) == 584;
    assert ValueFrom("584", 2, 58) == 584;
    assert ValueFrom("584", 1, 5) == 584;
    assert ValueFrom("584", 0, 0) == 584;
  }

  lemma Fresh8()
    ensures 3 < |Tree8()| && forall m :: m in Tree8()[3].content ==> m.name != "i"
    ensures var a := Tree8(); a[3 := a[3].(content := a[3].content + [File("i", 584)])] == Tree9()
  {
    var a := Tree8();
    assert |a| == 4;
    assert a[3].content + [File("i", 584)] == [File("i", 584)];
  }

  lemma Step8()
    requires WellFormed(Tree8())
    ensures 3 < |Tree8()| && Apply(Tree8(), 3, SizedFile("i", 584)) == Tree9() && WellFormed(Tree9())
  {
    var a := Tree8();
    Fresh8();
    ApplyNewFile(a, 3, "i", 584);
  }

  lemma Parse9()
    ensures ParseEntry("4060174 j") == Some(SizedFile("j", 4060174))
  {
    ListedLine("4060174 j", "4060174", "j");
    assert DigitsFrom("4060174", 7);
    assert DigitsFrom("4060174", 6);
    assert DigitsFrom("4060174", 5);
    assert DigitsFrom("4060174", 4);
    assert DigitsFrom("4060174", 3);
    assert DigitsFrom("4060174", 2);
    assert DigitsFrom("4060174", 1);
    assert DigitsFrom("4060174", 0);
    assert ValueFrom("4060174", 7, 4060174) == 4060174;
    assert ValueFrom("4060174", 6, 406017) == 4060174;
    assert ValueFrom("4060174", 5, 40601) == 4060174;
    assert ValueFrom("4060174", 4, 4060) == 4060174;
    assert ValueFrom("4060174", 3, 406) == 4060174;
    assert ValueFrom("4060174", 2, 40) == 4060174;
    assert ValueFrom("4060174", 1, 4) == 4060174;
    assert ValueFrom("4060174", 0, 0) == 4060174;
  }

  lemma Fresh9()
    ensures 2 < |Tree9()| && forall m :: m in Tree9()[2].content ==> m.name != "j"
    ensures var a := Tree9(); a[2 := a[2].(content := a[2].content + [File("j", 4060174)])] == Tree10()
  {
    var a := Tree9();
    assert |a| == 4;
    assert a[2].content + [File("j", 4060174)] == [File("j", 4060174)];
  }

  lemma Step9()
    requires WellFormed(Tree9())
    ensures 2 < |Tree9()| && Apply(Tree9(), 2, SizedFile("j", 4060174)) == Tree10() && WellFormed(Tree10())
  {
    var a := Tree9();
    Fresh9();
    ApplyNewFile(a, 2, "j", 4060174);
  }

  lemma Parse10()
    ensures ParseEntry("8033020 d.log") == Some(SizedFile("d.log", 8033020))
  {
    ListedLine("8033020 d.log", "8033020", "d.log");
    assert DigitsFrom("8033020", 7);
    assert DigitsFrom("8033020", 6);
    assert DigitsFrom("8033020", 5);
    assert DigitsFrom("8033020", 4);
    assert DigitsFrom("8033020", 3);
    assert DigitsFrom("8033020", 2);
    assert DigitsFrom("8033020", 1);
    assert DigitsFrom("8033020", 0);
    assert ValueFrom("8033020", 7, 8033020) == 8033020;
    assert ValueFrom("8033020", 6, 803302) == 8033020;
    assert ValueFrom("8033020", 5, 80330) == 8033020;
    assert ValueFrom("8033020", 4, 8033) == 8033020;
    assert ValueFrom("8033020", 3, 803) == 8033020;
    assert ValueFrom("8033020", 2, 80) == 8033020;
    assert ValueFrom("8033020", 1, 8) == 8033020;
    assert ValueFrom("8033020", 0, 0) == 8033020;
  }

  lemma Fresh10()
    ensures 2 < |Tree10()| && forall m :: m in Tree10()[2].content ==> m.name != "d.log"
    ensures var a := Tree10(); a[2 := a[2].(content := a[2].content + [File("d.log", 8033020)])] == Tree11()
  {
    var a := Tree10();
    assert |a| == 4;
    assert a[2].content + [File("d.log", 8033020)] == [File("j", 4060174), File("d.log", 8033020)];
  }

  lemma Step10()
    requires WellFormed(Tree10())
    ensures 2 < |Tree10()| && Apply(Tree10(), 2, SizedFile("d.log", 8033020)) == Tree11() && WellFormed(Tree11())
  {
    var a := Tree10();
    Fresh10();
    ApplyNewFile(a, 2, "d.log", 8033020);
  }

  lemma Parse11()
    ensures ParseEntry("5626152 d.ext") == Some(SizedFile("d.ext", 5626152))
  {
    ListedLine("5626152 d.ext", "5626152", "d.ext");
    assert DigitsFrom("5626152", 7);
    assert DigitsFrom("5626152", 6);
    assert DigitsFrom("5626152", 5);
    assert DigitsFrom("5626152", 4);
    assert DigitsFrom("5626152", 3);
    assert DigitsFrom("5626152", 2);
    assert DigitsFrom("5626152", 1);
    assert DigitsFrom("5626152", 0);
    assert ValueFrom("5626152", 7, 5626152) == 5626152;
    assert ValueFrom("5626152", 6, 562615) == 5626152;
    assert ValueFrom("5626152", 5, 56261) == 5626152;
    assert ValueFrom("5626152", 4, 5626) == 5626152;
    assert ValueFrom("5626152", 3, 562) == 5626152;
    assert ValueFrom("5626152", 2, 56) == 5626152;
    assert ValueFrom("5626152", 1, 5) == 5626152;
    assert ValueFrom("5626152", 0, 0) == 5626152;
  }

  lemma Fresh11()
    ensures 2 < |Tree11()| && forall m :: m in Tree11()[2].content ==> m.name != "d.ext"
    ensures var a := Tree11(); a[2 := a[2].(content := a[2].content + [File("d.ext", 5626152)])] == Tree12()
  {
    var a := Tree11();
    assert |a| == 4;
    assert a[2].content + [File("d.ext", 5626152)] == [File("j", 4060174), File("d.log", 8033020), File("d.ext", 5626152)];
  }

  lemma Step11()
    requires WellFormed(Tree11())
    ensures 2 < |Tree11()| && Apply(Tree11(), 2, SizedFile("d.ext", 5626152)) == Tree12() && WellFormed(Tree12())
  {
    var a := Tree11();
    Fresh11();
    ApplyNewFile(a, 2, "d.ext", 5626152);
  }

  lemma Parse12()
    ensures ParseEntry("7214296 k") == Some(SizedFile("k", 7214296))
  {
    ListedLine("7214296 k", "7214296", "k");
    assert DigitsFrom("7214296", 7);
    assert DigitsFrom("7214296", 6);
    assert DigitsFrom("7214296", 5);
    assert DigitsFrom("7214296", 4);
    assert DigitsFrom("7214296", 3);
    assert DigitsFrom("7214296", 2);
    assert DigitsFrom("7214296", 1);
    assert DigitsFrom("7214296", 0);
    assert ValueFrom("7214296", 7, 7214296) == 7214296;
    assert ValueFrom("7214296", 6, 721429) == 7214296;
    assert ValueFrom("7214296", 5, 72142) == 7214296;
    assert ValueFrom("7214296", 4, 7214) == 7214296;
    assert ValueFrom("7214296", 3, 721) == 7214296;
    assert ValueFrom("7214296", 2, 72) == 7214296;
    assert ValueFrom("7214296", 1, 7) == 7214296;
    assert ValueFrom("7214296", 0, 0) == 7214296;
  }

  lemma Fresh12()
    ensures 2 < |Tree12()| && forall m :: m in Tree12()[2].content ==> m.name != "k"
    ensures var a := Tree12(); a[2 := a[2].(content := a[2].content + [File("k", 7214296)])] == ExampleTree()
  {
    var a := Tree12();
    assert |a| == 4;
    assert a[2].content + [File("k", 7214296)] == [File("j", 4060174), File("d.log", 8033020), File("d.ext", 5626152), File("k", 7214296)];
  }

  lemma Step12()
    requires WellFormed(Tree12())
    ensures 2 < |Tree12()| && Apply(Tree12(), 2, SizedFile("k", 7214296)) == ExampleTree() && WellFormed(ExampleTree())
  {
    var a := Tree12();
    Fresh12();
    ApplyNewFile(a, 2, "k", 7214296);
  }

  lemma TreesWellFormed()
    ensures WellFormed(Tree0()) && WellFormed(Tree1()) && WellFormed(Tree2()) && WellFormed(Tree3()) && WellFormed(Tree4()) && WellFormed(Tree5()) && WellFormed(Tree6()) && WellFormed(Tree7()) && WellFormed(Tree8()) && WellFormed(Tree9()) && WellFormed(Tree10()) && WellFormed(Tree11()) && WellFormed(Tree12()) && WellFormed(ExampleTree())
  {
    Tree0WellFormed();
    Step0();
    Step1();
    Step2();
    Step3();
    Step4();
    Step5();
    Step6();
    Step7();
    Step8();
    Step9();
    Step10();
    Step11();
    Step12();
  }

  lemma Suffix3()
    requires WellFormed(Tree3())
    ensures 0 < |Tree3()| && Listing(Tree3(), At(0), ["dir d"]) == Outcome(true, Tree4())
  {
    Parse3();
    Step3();
    ListingCons(Tree3(), 0, "dir d", [], SubDir("d"));
    
  }

  lemma Suffix2()
    requires WellFormed(Tree2())
    ensures 0 < |Tree2()| && Listing(Tree2(), At(0), ["8504156 c.dat", "dir d"]) == Outcome(true, Tree4())
  {
    Parse2();
    Step2();
    ListingCons(Tree2(), 0, "8504156 c.dat", ["dir d"], SizedFile("c.dat", 8504156));
    Suffix3();
  }

  lemma Suffix1()
    requires WellFormed(Tree1())
    ensures 0 < |Tree1()| && Listing(Tree1(), At(0), ["14848514 b.txt", "8504156 c.dat", "dir d"]) == Outcome(true, Tree4())
  {
    Parse1();
    Step1();
    ListingCons(Tree1(), 0, "14848514 b.txt", ["8504156 c.dat", "dir d"], SizedFile("b.txt", 14848514));
    Suffix2();
  }

  lemma Suffix0()
    requires WellFormed(Tree0())
    ensures 0 < |Tree0()| && Listing(Tree0(), At(0), ["dir a", "14848514 b.txt", "8504156 c.dat", "dir d"]) == Outcome(true, Tree4())
  {
    Parse0();
    Step0();
    ListingCons(Tree0(), 0, "dir a", ["14848514 b.txt", "8504156 c.dat", "dir d"], SubDir("a"));
    Suffix1();
  }

  lemma Suffix7()
    requires WellFormed(Tree7())
    ensures 1 < |Tree7()| && Listing(Tree7(), At(1), ["62596 h.lst"]) == Outcome(true, Tree8())
  {
    Parse7();
    Step7();
    ListingCons(Tree7(), 1, "62596 h.lst", [], SizedFile("h.lst", 62596));
    
  }

  lemma Suffix6()
    requires WellFormed(Tree6())
    ensures 1 < |Tree6()| && Listing(Tree6(), At(1), ["2557 g", "62596 h.lst"]) == Outcome(true, Tree8())
  {
    Parse6();
    Step6();
    ListingCons(Tree6(), 1, "2557 g", ["62596 h.lst"], SizedFile("g", 2557));
    Suffix7();
  }

  lemma Suffix5()
    requires WellFormed(Tree5())
    ensures 1 < |Tree5()| && Listing(Tree5(), At(1), ["29116 f", "2557 g", "62596 h.lst"]) == Outcome(true, Tree8())
  {
    Parse5();
    Step5();
    ListingCons(Tree5(), 1, "29116 f", ["2557 g", "62596 h.lst"], SizedFile("f", 29116));
    Suffix6();
  }

  lemma Suffix4()
    requires WellFormed(Tree4())
    ensures 1 < |Tree4()| && Listing(Tree4(), At(1), ["dir e", "29116 f", "2557 g", "62596 h.lst"]) == Outcome(true, Tree8())
  {
    Parse4();
    Step4();
    ListingCons(Tree4(), 1, "dir e", ["29116 f", "2557 g", "62596 h.lst"], SubDir("e"));
    Suffix5();
  }

  lemma Suffix8()
    requires WellFormed(Tree8())
    ensures 3 < |Tree8()| && Listing(Tree8(), At(3), ["584 i"]) == Outcome(true, Tree9())
  {
    Parse8();
    Step8();
    ListingCons(Tree8(), 3, "584 i", [], SizedFile("i", 584));
    
  }

  lemma Suffix12()
    requires WellFormed(Tree12())
    ensures 2 < |Tree12()| && Listing(Tree12(), At(2), ["7214296 k"]) == Outcome(true, ExampleTree())
  {
    Parse12();
    Step12();
    ListingCons(Tree12(), 2, "7214296 k", [], SizedFile("k", 7214296));
    
  }

  lemma Suffix11()
    requires WellFormed(Tree11())
    ensures 2 < |Tree11()| && Listing(Tree11(), At(2), ["5626152 d.ext", "7214296 k"]) == Outcome(true, ExampleTree())
  {
    Parse11();
    Step11();
    ListingCons(Tree11(), 2, "5626152 d.ext", ["7214296 k"], SizedFile("d.ext", 5626152));
    Suffix12();
  }

  lemma Suffix10()
    requires WellFormed(Tree10())
    ensures 2 < |Tree10()| && Listing(Tree10(), At(2), ["8033020 d.log", "5626152 d.ext", "7214296 k"]) == Outcome(true, ExampleTree())
  {
    Parse10();
    Step10();
    ListingCons(Tree10(), 2, "8033020 d.log", ["5626152 d.ext", "7214296 k"], SizedFile("d.log", 8033020));
    Suffix11();
  }

  lemma Suffix9()
    requires WellFormed(Tree9())
    ensures 2 < |Tree9()| && Listing(Tree9(), At(2), ["4060174 j", "8033020 d.log", "5626152 d.ext", "7214296 k"]) == Outcome(true, ExampleTree())
  {
    Parse9();
    Step9();
    ListingCons(Tree9(), 2, "4060174 j", ["8033020 d.log", "5626152 d.ext", "7214296 k"], SizedFile("j", 4060174));
    Suffix10();
  }

  lemma Command0()
    requires WellFormed(Tree0())
    ensures 0 < |Tree0()| && 0 < |Tree0()|
    ensures Replay(Tree0(), At(0), ExampleLines(), 0) == Replay(Tree0(), At(0), ExampleLines(), 1)
  {
    WordsOfThree("$", "cd", "/");
    assert ExampleLines()[0] == "$" + " " + "cd" + " " + "/";
    ReplayStep(Tree0(), At(0), ExampleLines(), 0);
  }

  lemma Command1()
    requires WellFormed(Tree0()) && WellFormed(Tree4())
    ensures 0 < |Tree0()| && 0 < |Tree4()|
    ensures Replay(Tree0(), At(0), ExampleLines(), 1) == Replay(Tree4(), At(0), ExampleLines(), 6)
  {
    Suffix0();
    Output1();
    ReplayStep(Tree0(), At(0), ExampleLines(), 1);
  }

  lemma Output1()
    ensures 1 < |ExampleLines()| && Words(ExampleLines()[1]) == ["$", "ls"]
    ensures OutputEnd(ExampleLines(), 2) == 6 && ExampleLines()[2..6] == ["dir a", "14848514 b.txt", "8504156 c.dat", "dir d"]
  {
    WordsOfTwo("$", "ls");
    var L := ExampleLines();
    assert L[1] == "$" + " " + "ls";
    assert L[2] == "dir a" && L[2][0] != '$';
    assert L[3] == "14848514 b.txt" && L[3][0] != '$';
    assert L[4] == "8504156 c.dat" && L[4][0] != '$';
    assert L[5] == "dir d" && L[5][0] != '$';
    assert L[6][0] == '$';
    OutputEndUnique(L, 2, 6);
    assert |L[2..6]| == 4;
    assert L[2..6][0] == "dir a";
    assert L[2..6][1] == "14848514 b.txt";
    assert L[2..6][2] == "8504156 c.dat";
    assert L[2..6][3] == "dir d";
  }

  lemma Command6()
    requires WellFormed(Tree4())
    ensures 0 < |Tree4()| && 1 < |Tree4()|
    ensures Replay(Tree4(), At(0), ExampleLines(), 6) == Replay(Tree4(), At(1), ExampleLines(), 7)
  {
    WordsOfThree("$", "cd", "a");
    assert ExampleLines()[6] == "$" + " " + "cd" + " " + "a";
    ReplayStep(Tree4(), At(0), ExampleLines(), 6);
  }

  lemma Command7()
    requires WellFormed(Tree4()) && WellFormed(Tree8())
    ensures 1 < |Tree4()| && 1 < |Tree8()|
    ensures Replay(Tree4(), At(1), ExampleLines(), 7) == Replay(Tree8(), At(1), ExampleLines(), 12)
  {
    Suffix4();
    Output7();
    ReplayStep(Tree4(), At(1), ExampleLines(), 7);
  }

  lemma Output7()
    ensures 7 < |ExampleLines()| && Words(ExampleLines()[7]) == ["$", "ls"]
    ensures OutputEnd(ExampleLines(), 8) == 12 && ExampleLines()[8..12] == ["dir e", "29116 f", "2557 g", "62596 h.lst"]
  {
    WordsOfTwo("$", "ls");
    var L := ExampleLines();
    assert L[7] == "$" + " " + "ls";
    assert L[8] == "dir e" && L[8][0] != '$';
    assert L[9] == "29116 f" && L[9][0] != '$';
    assert L[10] == "2557 g" && L[10][0] != '$';
    assert L[11] == "62596 h.lst" && L[11][0] != '$';
    assert L[12][0] == '$';
    OutputEndUnique(L, 8, 12);
    assert |L[8..12]| == 4;
    assert L[8..12][0] == "dir e";
    assert L[8..12][1] == "29116 f";
    assert L[8..12][2] == "2557 g";
    assert L[8..12][3] == "62596 h.lst";
  }

  lemma Command12()
    requires WellFormed(Tree8())
    ensures 1 < |Tree8()| && 3 < |Tree8()|
    ensures Replay(Tree8(), At(1), ExampleLines(), 12) == Replay(Tree8(), At(3), ExampleLines(), 13)
  {
    WordsOfThree("$", "cd", "e");
    assert ExampleLines()[12] == "$" + " " + "cd" + " " + "e";
    ReplayStep(Tree8(), At(1), ExampleLines(), 12);
  }

  lemma Command13()
    requires WellFormed(Tree8()) && WellFormed(Tree9())
    ensures 3 < |Tree8()| && 3 < |Tree9()|
    ensures Replay(Tree8(), At(3), ExampleLines(), 13) == Replay(Tree9(), At(3), ExampleLines(), 15)
  {
    Suffix8();
    Output13();
    ReplayStep(Tree8(), At(3), ExampleLines(), 13);
  }

  lemma Output13()
    ensures 13 < |ExampleLines()| && Words(ExampleLines()[13]) == ["$", "ls"]
    ensures OutputEnd(ExampleLines(), 14) == 15 && ExampleLines()[14..15] == ["584 i"]
  {
    WordsOfTwo("$", "ls");
    var L := ExampleLines();
    assert L[13] == "$" + " " + "ls";
    assert L[14] == "584 i" && L[14][0] != '$';
    assert L[15][0] == '$';
    OutputEndUnique(L, 14, 15);
    assert |L[14..15]| == 1;
    assert L[14..15][0] == "584 i";
  }

  lemma Command15()
    requires WellFormed(Tree9())
    ensures 3 < |Tree9()| && 1 < |Tree9()|
    ensures Replay(Tree9(), At(3), ExampleLines(), 15) == Replay(Tree9(), At(1), ExampleLines(), 16)
  {
    WordsOfThree("$", "cd", "..");
    assert ExampleLines()[15] == "$" + " " + "cd" + " " + "..";
    ReplayStep(Tree9(), At(3), ExampleLines(), 15);
  }

  lemma Command16()
    requires WellFormed(Tree9())
    ensures 1 < |Tree9()| && 0 < |Tree9()|
    ensures Replay(Tree9(), At(1), ExampleLines(), 16) == Replay(Tree9(), At(0), ExampleLines(), 17)
  {
    WordsOfThree("$", "cd", "..");
    assert ExampleLines()[16] == "$" + " " + "cd" + " " + "..";
    ReplayStep(Tree9(), At(1), ExampleLines(), 16);
  }

  lemma Command17()
    requires WellFormed(Tree9())
    ensures 0 < |Tree9()| && 2 < |Tree9()|
    ensures Replay(Tree9(), At(0), ExampleLines(), 17) == Replay(Tree9(), At(2), ExampleLines(), 18)
  {
    WordsOfThree("$", "cd", "d");
    assert ExampleLines()[17] == "$" + " " + "cd" + " " + "d";
    ReplayStep(Tree9(), At(0), ExampleLines(), 17);
  }

  lemma Command18()
    requires WellFormed(Tree9()) && WellFormed(ExampleTree())
    ensures 2 < |Tree9()| && 2 < |ExampleTree()|
    ensures Replay(Tree9(), At(2), ExampleLines(), 18) == Replay(ExampleTree(), At(2), ExampleLines(), 23)
  {
    Suffix9();
    Output18();
    ReplayStep(Tree9(), At(2), ExampleLines(), 18);
  }

  lemma Output18()
    ensures 18 < |ExampleLines()| && Words(ExampleLines()[18]) == ["$", "ls"]
    ensures OutputEnd(ExampleLines(), 19) == 23 && ExampleLines()[19..23] == ["4060174 j", "8033020 d.log", "5626152 d.ext", "7214296 k"]
  {
    WordsOfTwo("$", "ls");
    var L := ExampleLines();
    assert L[18] == "$" + " " + "ls";
    assert L[19] == "4060174 j" && L[19][0] != '$';
    assert L[20] == "8033020 d.log" && L[20][0] != '$';
    assert L[21] == "5626152 d.ext" && L[21][0] != '$';
    assert L[22] == "7214296 k" && L[22][0] != '$';
    OutputEndUnique(L, 19, 23);
    assert |L[19..23]| == 4;
    assert L[19..23][0] == "4060174 j";
    assert L[19..23][1] == "8033020 d.log";
    assert L[19..23][2] == "5626152 d.ext";
    assert L[19..23][3] == "7214296 k";
  }

  /** `build_filesystem(StringIO(EXAMPLE), ROOT)` succeeds and builds the
      example tree. */
  lemma ExampleBuild()
    ensures WellFormed(Tree0()) && WellFormed(ExampleTree())
    ensures Replay(Tree0(), At(Root), ExampleLines(), 0) == Outcome(true, ExampleTree())
  {
    TreesWellFormed();
    Command0();
    Command1();
    Command6();
    Command7();
    Command12();
    Command13();
    Command15();
    Command16();
    Command17();
    Command18();
  }

  lemma ContentPrefixes(cs: seq<Node>)
    requires |cs| == 4
    ensures cs[..4] == cs && cs[..4][..3] == cs[..3] && cs[..3][..2] == cs[..2] && cs[..2][..1] == cs[..1] && cs[..1][..0] == []
  {
  }

  lemma ContentSizeOfFour(a: Arena, i: nat)
    requires WellFormed(a) && i < |a| && |a[i].content| == 4
    ensures Consistent(a, i)
    ensures var cs := a[i].content;
      Size(a, i) == NodeSize(a, i, cs[0]) + NodeSize(a, i, cs[1]) + NodeSize(a, i, cs[2]) + NodeSize(a, i, cs[3])
  {
    assert Consistent(a, i);
    var cs := a[i].content;
    ContentPrefixes(cs);
    assert ContentSize(a, i, cs[..1]) == NodeSize(a, i, cs[0]);
    assert ContentSize(a, i, cs[..2]) == ContentSize(a, i, cs[..1]) + NodeSize(a, i, cs[1]);
    assert ContentSize(a, i, cs[..3]) == ContentSize(a, i, cs[..2]) + NodeSize(a, i, cs[2]);
    assert ContentSize(a, i, cs) == ContentSize(a, i, cs[..3]) + NodeSize(a, i, cs[3]);
  }

  /** The sizes of `e`, `a`, `d` and `/` in the example tree. */
  lemma ExampleSizes()
    ensures WellFormed(ExampleTree())
    ensures Size(ExampleTree(), 3) == 584 && Size(ExampleTree(), 1) == 94853
    ensures Size(ExampleTree(), 2) == 24933642 && Size(ExampleTree(), Root) == 48381165
  {
    TreesWellFormed();
    var a := ExampleTree();
    assert a[3].content[..0] == [];
    ContentSizeOfFour(a, 1);
    ContentSizeOfFour(a, 2);
    ContentSizeOfFour(a, 0);
  }

  /** `a`, `d` and `e` lie below `/`; `/` does not lie below itself. */
  lemma ExampleBelow()
    ensures WellFormed(ExampleTree())
    ensures Below(ExampleTree(), Root, 1) && Below(ExampleTree(), Root, 2) && Below(ExampleTree(), Root, 3)
    ensures !Below(ExampleTree(), Root, Root)
  {
    TreesWellFormed();
    var a := ExampleTree();
    assert 1 in ChildIds(a[0].content) by { assert a[0].content[0] == Dir("a", 1); }
    assert 2 in ChildIds(a[0].content) by { assert a[0].content[3] == Dir("d", 2); }
    assert 3 in ChildIds(a[1].content) by { assert a[1].content[0] == Dir("e", 3); }
  }

  /** `test_part_1`: the directories of at most 100000 weigh 95437 in all. */
  lemma ExampleSumDirsSize()
    ensures WellFormed(ExampleTree())
    ensures SumDirsSize(ExampleTree(), Root, 100000) == 95437
  {
    ExampleSizes();
    ExampleBelow();
    var a := ExampleTree();
    var e: seq<nat> := [1, 3];
    forall x: nat ensures x in e <==> x < |a| && Below(a, Root, x) && Size(a, x) <= 100000 {
    }
    SumDirsSizeCountsEachOnce(a, Root, 100000, e);
    assert Sizes(a, e) == [94853, 584];
    assert Sum([94853, 584]) == 95437 by {
      assert [94853, 584][..1] == [94853];
      assert [94853][..0] == [];
    }
  }

  /** `test_part_2`: the smallest directory that frees enough space weighs
      24933642. */
  lemma ExampleFindDirToFree()
    ensures WellFormed(ExampleTree())
    ensures FindDirToFree(ExampleTree(), Root, 70000000, 30000000) == Some(24933642)
  {
    ExampleSizes();
    ExampleBelow();
    var a := ExampleTree();
    assert SpaceToFree(a, 70000000, 30000000) == 8381165;
    var r := FindDirToFree(a, Root, 70000000, 30000000);
    assert r.Some?;
    var x: nat :| x < |a| && Below(a, Root, x) && Size(a, x) == r.value;
    assert x == 2;
  }
}
