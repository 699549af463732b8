/** The directory tree rebuilt from a shell transcript, and the two size
    reports computed over it (day_7.py).

    Directories live in an arena: a directory is named by its handle, the
    index of its record in `FileSystem.dirs`, so a parent link is a handle
    and the interpreter's cursor is a handle too. A directory's content is
    kept in insertion order with at most one entry per name, as the Python
    dictionary it models. A directory is always allocated after its parent,
    which is what makes the tree acyclic and lets sizes be computed by
    recursion on handles. */
module DirectoryTree {
  import opened Text

  /** An entry of a directory: a file of fixed size, or a subdirectory given
      by its handle. */
  datatype Node = File(name: string, size: nat) | Dir(name: string, id: nat)

  /** A directory record: its name, its parent's handle (None for the root)
      and its content. */
  datatype Directory = Directory(name: string, parent: Option<nat>, content: seq<Node>)

  type Arena = seq<Directory>

  /** The handle of the root directory `/`. */
  const Root: nat := 0

  /** The handles of the subdirectories listed in `cs`. */
  function ChildIds(cs: seq<Node>): set<nat>
  {
    set n | n in cs && n.Dir? :: n.id
  }

  ghost predicate UniqueNames(cs: seq<Node>)
  {
    forall k, l :: 0 <= k < l < |cs| ==> cs[k].name != cs[l].name
  }

  ghost predicate UniqueIds(cs: seq<Node>)
  {
    forall k, l :: 0 <= k < l < |cs| && cs[k].Dir? && cs[l].Dir? ==> cs[k].id != cs[l].id
  }

  /** Directory `i`'s content: one entry per name, and every subdirectory it
      lists is a later record that names `i` as its parent and carries the
      entry's name. */
  ghost predicate Consistent(a: Arena, i: nat)
    requires i < |a|
  {
    var cs := a[i].content;
    && UniqueNames(cs)
    && UniqueIds(cs)
    && forall k :: 0 <= k < |cs| && cs[k].Dir? ==>
         i < cs[k].id < |a| && a[cs[k].id].parent == Some(i) && a[cs[k].id].name == cs[k].name
  }

  /** The tree invariant: a root without parent, every other directory
      allocated after its parent, every content consistent. */
  ghost predicate WellFormed(a: Arena)
  {
    && |a| > 0
    && a[Root].parent == None
    && (forall i :: 0 < i < |a| ==> a[i].parent.Some? && a[i].parent.value < i)
    && (forall i :: 0 <= i < |a| ==> Consistent(a, i))
  }

  /* ---------------------------------------------------------------------
     Content as a dictionary: `__getitem__` and the assignment in `add_file`
     --------------------------------------------------------------------- */

  /** `content[name]`: the entry stored under `name`, if any. */
  function Lookup(cs: seq<Node>, name: string): (r: Option<Node>)
    ensures r.Some? ==> r.value in cs && r.value.name == name
    ensures r.None? ==> forall n :: n in cs ==> n.name != name
  {
    if cs == [] then None
    else if cs[0].name == name then Some(cs[0])
    else Lookup(cs[1..], name)
  }

  /** `content[n.name] = n`: replaces the entry of that name in place, or
      appends `n` when the name is new. */
  function Put(cs: seq<Node>, n: Node): (r: seq<Node>)
    ensures n in r
    ensures forall m :: m in r ==> m == n || m in cs
    ensures forall m :: m in cs && m.name != n.name ==> m in r
    ensures |r| == if Lookup(cs, n.name).Some? then |cs| else |cs| + 1
  {
    if cs == [] then [n]
    else if cs[0].name == n.name then [n] + cs[1..]
    else [cs[0]] + Put(cs[1..], n)
  }

  /** After `Put`, the name of `n` finds `n` and every other name finds what
      it found before. */
  lemma {:induction false} LookupPut(cs: seq<Node>, n: Node, name: string)
    ensures Lookup(Put(cs, n), name) == if name == n.name then Some(n) else Lookup(cs, name)
  {
    if cs != [] && cs[0].name != n.name {
      LookupPut(cs[1..], n, name);
    }
  }

  /** A new name goes at the end, after every entry already stored (the
      insertion order of a Python dictionary); an existing name keeps its
      position. */
  lemma {:induction false} PutNewName(cs: seq<Node>, n: Node)
    requires forall m :: m in cs ==> m.name != n.name
    ensures Put(cs, n) == cs + [n]
  {
    if cs != [] {
      assert cs[0] in cs;
      PutNewName(cs[1..], n);
      assert cs == [cs[0]] + cs[1..];
    }
  }

  /** Storing the same entry twice is storing it once. */
  lemma {:induction false} PutIdempotent(cs: seq<Node>, n: Node)
    ensures Put(Put(cs, n), n) == Put(cs, n)
  {
    if cs != [] && cs[0].name != n.name {
      PutIdempotent(cs[1..], n);
    }
  }

  /** `Put` keeps the names unique. */
  lemma {:induction false} PutUniqueNames(cs: seq<Node>, n: Node)
    requires UniqueNames(cs)
    ensures UniqueNames(Put(cs, n))
  {
    if cs != [] && cs[0].name != n.name {
      PutUniqueNames(cs[1..], n);
      var r := Put(cs, n);
      forall k, l | 0 <= k < l < |r| ensures r[k].name != r[l].name {
        if k == 0 {
          assert r[l] in Put(cs[1..], n);
          assert r[l] == n || r[l] in cs[1..];
        }
      }
    }
  }

  /** `Put` of a subdirectory not yet listed keeps the handles unique. */
  lemma {:induction false} PutUniqueIds(cs: seq<Node>, n: Node)
    requires UniqueIds(cs)
    requires n.Dir? ==> n.id !in ChildIds(cs)
    ensures UniqueIds(Put(cs, n))
  {
    if cs != [] && cs[0].name != n.name {
      assert ChildIds(cs[1..]) <= ChildIds(cs);
      PutUniqueIds(cs[1..], n);
      var r := Put(cs, n);
      forall k, l | 0 <= k < l < |r| && r[k].Dir? && r[l].Dir? ensures r[k].id != r[l].id {
        if k == 0 {
          assert r[l] in Put(cs[1..], n);
          if r[l] != n {
            assert r[l] in cs[1..];
          }
        }
      }
    } else if cs != [] {
      var r := Put(cs, n);
      forall k, l | 0 <= k < l < |r| && r[k].Dir? && r[l].Dir? ensures r[k].id != r[l].id {
        if k == 0 {
          assert r[l] == cs[l];
        }
      }
    }
  }

  /* ---------------------------------------------------------------------
     Sizes (`get_size`)
     --------------------------------------------------------------------- */

  /** The size of directory `i`: the sum of its entries' sizes. */
  function Size(a: Arena, i: nat): nat
    requires WellFormed(a) && i < |a|
    decreases |a| - i, 1, 0
  {
    assert Consistent(a, i);
    ContentSize(a, i, a[i].content)
  }

  /** The summed sizes of entries `cs` of directory `i`. */
  function ContentSize(a: Arena, i: nat, cs: seq<Node>): nat
    requires WellFormed(a) && i < |a|
    requires forall k :: 0 <= k < |cs| && cs[k].Dir? ==> i < cs[k].id < |a|
    decreases |a| - i, 0, |cs|
  {
    if cs == [] then 0
    else ContentSize(a, i, cs[..|cs| - 1]) + NodeSize(a, i, cs[|cs| - 1])
  }

  /** A file's size is the size it was created with; a subdirectory's is its `Size`. */
  function NodeSize(a: Arena, i: nat, n: Node): nat
    requires WellFormed(a) && i < |a|
    requires n.Dir? ==> i < n.id < |a|
    decreases |a| - i, 0, 0
  {
    match n
    case File(_, s) => s
    case Dir(_, j) => Size(a, j)
  }

  /** The sizes of the entries `cs` of directory `i`, in order. */
  function EntrySizes(a: Arena, i: nat, cs: seq<Node>): (r: seq<int>)
    requires WellFormed(a) && i < |a|
    requires forall k :: 0 <= k < |cs| && cs[k].Dir? ==> i < cs[k].id < |a|
    ensures |r| == |cs|
    ensures forall k :: 0 <= k < |cs| && cs[k].File? ==> r[k] == cs[k].size
    ensures forall k :: 0 <= k < |cs| && cs[k].Dir? ==> r[k] == Size(a, cs[k].id)
  {
    seq(|cs|, k requires 0 <= k < |cs| => match cs[k] case File(_, s) => s case Dir(_, j) => Size(a, j))
  }

  /** A directory weighs the sum of its entries: a file the size it was
      created with, a subdirectory its own size. So an empty directory
      weighs nothing. */
  lemma SizeSumsEntries(a: Arena, i: nat)
    requires WellFormed(a) && i < |a|
    ensures Consistent(a, i)
    ensures Size(a, i) == Sum(EntrySizes(a, i, a[i].content))
    ensures a[i].content == [] ==> Size(a, i) == 0
  {
    assert Consistent(a, i);
    ContentSizeSums(a, i, a[i].content);
  }

  lemma {:induction false} ContentSizeSums(a: Arena, i: nat, cs: seq<Node>)
    requires WellFormed(a) && i < |a|
    requires forall k :: 0 <= k < |cs| && cs[k].Dir? ==> i < cs[k].id < |a|
    ensures ContentSize(a, i, cs) == Sum(EntrySizes(a, i, cs))
    decreases |cs|
  {
    if cs != [] {
      var init := cs[..|cs| - 1];
      ContentSizeSums(a, i, init);
      assert EntrySizes(a, i, cs)[..|cs| - 1] == EntrySizes(a, i, init);
    }
  }

  /* ---------------------------------------------------------------------
     Which directories hang below which
     --------------------------------------------------------------------- */

  /** `x` lies strictly below directory `i`: `x` is listed in its parent's
      content, and that parent is `i` or lies below `i` in the same way. */
  ghost predicate Below(a: Arena, i: nat, x: nat)
    requires WellFormed(a) && i < |a| && x < |a|
    decreases x
  {
    x != Root &&
    var p := a[x].parent.value;
    x in ChildIds(a[p].content) && (p == i || Below(a, i, p))
  }

  /** A subdirectory handle listed in `a[i].content` is a record whose parent is `i`. */
  lemma ChildFacts(a: Arena, i: nat, c: nat)
    requires WellFormed(a) && i < |a|
    requires c in ChildIds(a[i].content)
    ensures i < c < |a| && a[c].parent == Some(i)
  {
    var n :| n in a[i].content && n.Dir? && n.id == c;
    var k :| 0 <= k < |a[i].content| && a[i].content[k] == n;
    assert Consistent(a, i);
  }

  /** Directories lie below their ancestors only, so after them. */
  lemma {:induction false} BelowAfter(a: Arena, i: nat, x: nat)
    requires WellFormed(a) && i < |a| && x < |a|
    requires Below(a, i, x)
    ensures i < x
    decreases x
  {
    var p := a[x].parent.value;
    if p != i {
      BelowAfter(a, i, p);
    }
  }

  /** Whatever lies at or below a subdirectory of `i` lies below `i`. */
  lemma {:induction false} BelowThroughChild(a: Arena, i: nat, c: nat, x: nat)
    requires WellFormed(a) && i < |a| && x < |a|
    requires c in ChildIds(a[i].content)
    requires x == c || (c < |a| && Below(a, c, x))
    ensures Below(a, i, x)
    decreases x
  {
    ChildFacts(a, i, c);
    if x != c {
      var p := a[x].parent.value;
      if p != c {
        BelowThroughChild(a, i, c, p);
      }
    }
  }

  /** Whatever lies below `i` lies at or below one of `i`'s subdirectories. */
  lemma {:induction false} BelowHasChild(a: Arena, i: nat, x: nat) returns (c: nat)
    requires WellFormed(a) && i < |a| && x < |a|
    requires Below(a, i, x)
    ensures c in ChildIds(a[i].content) && c < |a|
    ensures x == c || Below(a, c, x)
    decreases x
  {
    var p := a[x].parent.value;
    if p == i {
      c := x;
    } else {
      c := BelowHasChild(a, i, p);
      ChildFacts(a, i, c);
    }
  }

  /** Two different subdirectories of one directory have disjoint subtrees. */
  lemma {:induction false} SiblingsDisjoint(a: Arena, i: nat, c1: nat, c2: nat, x: nat)
    requires WellFormed(a) && i < |a| && x < |a|
    requires c1 in ChildIds(a[i].content) && c2 in ChildIds(a[i].content) && c1 != c2
    requires x == c1 || (c1 < |a| && Below(a, c1, x))
    ensures !(x == c2 || (c2 < |a| && Below(a, c2, x)))
    decreases x
  {
    ChildFacts(a, i, c1);
    ChildFacts(a, i, c2);
    if x == c2 {
      if Below(a, c1, c2) {
        var p := a[c2].parent.value;
        assert p == i;
        if p != c1 {
          BelowAfter(a, c1, p);
        }
      }
    } else if x == c1 {
      if Below(a, c2, c1) {
        var p := a[c1].parent.value;
        assert p == i;
        if p != c2 {
          BelowAfter(a, c2, p);
        }
      }
    } else if Below(a, c2, x) {
      var p := a[x].parent.value;
      SiblingsDisjoint(a, i, c1, c2, p);
    }
  }

  /** Every directory weighs no more than a directory it lies below: in
      particular the root is the heaviest directory of the tree. */
  lemma {:induction false} SizeBelow(a: Arena, i: nat, x: nat)
    requires WellFormed(a) && i < |a| && x < |a|
    requires Below(a, i, x)
    ensures Size(a, x) <= Size(a, i)
    decreases x
  {
    var p := a[x].parent.value;
    ChildSize(a, p, x);
    if p != i {
      SizeBelow(a, i, p);
    }
  }

  /** A subdirectory weighs no more than its parent. */
  lemma ChildSize(a: Arena, i: nat, c: nat)
    requires WellFormed(a) && i < |a|
    requires c in ChildIds(a[i].content)
    ensures c < |a| && Size(a, c) <= Size(a, i)
  {
    ChildFacts(a, i, c);
    assert Consistent(a, i);
    ContentSizeBound(a, i, a[i].content, c);
  }

  lemma {:induction false} ContentSizeBound(a: Arena, i: nat, cs: seq<Node>, c: nat)
    requires WellFormed(a) && i < |a|
    requires forall k :: 0 <= k < |cs| && cs[k].Dir? ==> i < cs[k].id < |a|
    requires c in ChildIds(cs) && c < |a|
    ensures Size(a, c) <= ContentSize(a, i, cs)
    decreases |cs|
  {
    var last := cs[|cs| - 1];
    if !(last.Dir? && last.id == c) {
      var n :| n in cs && n.Dir? && n.id == c;
      assert cs == cs[..|cs| - 1] + [last];
      assert n in cs[..|cs| - 1];
      ContentSizeBound(a, i, cs[..|cs| - 1], c);
    }
  }

  /* ---------------------------------------------------------------------
     Listing directories by size (`list_dirs`)
     --------------------------------------------------------------------- */

  /** `size` lies in `[minSize, maxSize]`; no upper bound when `maxSize` is None. */
  predicate InRange(size: int, minSize: int, maxSize: Option<int>)
  {
    size >= minSize && (maxSize.None? || size <= maxSize.value)
  }

  /** The directories below `i` whose size is in range, in the order of a
      pre-order walk over the contents. */
  function Listed(a: Arena, i: nat, minSize: int, maxSize: Option<int>): (r: seq<nat>)
    requires WellFormed(a) && i < |a|
    ensures forall k :: 0 <= k < |r| ==> i < r[k] < |a|
    decreases |a| - i, 1, 0
  {
    assert Consistent(a, i);
    ListedContent(a, i, a[i].content, minSize, maxSize)
  }

  function ListedContent(a: Arena, i: nat, cs: seq<Node>, minSize: int, maxSize: Option<int>): (r: seq<nat>)
    requires WellFormed(a) && i < |a|
    requires forall k :: 0 <= k < |cs| && cs[k].Dir? ==> i < cs[k].id < |a|
    ensures forall k :: 0 <= k < |r| ==> i < r[k] < |a|
    decreases |a| - i, 0, |cs|
  {
    if cs == [] then []
    else ListedContent(a, i, cs[..|cs| - 1], minSize, maxSize) + ListedNode(a, i, cs[|cs| - 1], minSize, maxSize)
  }

  function ListedNode(a: Arena, i: nat, n: Node, minSize: int, maxSize: Option<int>): (r: seq<nat>)
    requires WellFormed(a) && i < |a|
    requires n.Dir? ==> i < n.id < |a|
    ensures forall k :: 0 <= k < |r| ==> i < r[k] < |a|
    decreases |a| - i, 0, 0
  {
    match n
    case File(_, _) => []
    case Dir(_, j) => (if InRange(Size(a, j), minSize, maxSize) then [j] else []) + Listed(a, j, minSize, maxSize)
  }

  /** Enumerating one more entry of a directory appends what that entry
      contributes. */
  lemma ListedContentSnoc(a: Arena, i: nat, cs: seq<Node>, k: nat, minSize: int, maxSize: Option<int>)
    requires WellFormed(a) && i < |a| && k < |cs|
    requires forall l :: 0 <= l < |cs| && cs[l].Dir? ==> i < cs[l].id < |a|
    ensures ListedContent(a, i, cs[..k + 1], minSize, maxSize)
      == ListedContent(a, i, cs[..k], minSize, maxSize) + ListedNode(a, i, cs[k], minSize, maxSize)
  {
    assert cs[..k + 1][..k] == cs[..k];
  }

  /** `x` is the subdirectory `c` itself or lies below it. */
  ghost predicate AtOrBelow(a: Arena, c: nat, x: nat)
    requires WellFormed(a) && c < |a| && x < |a|
  {
    x == c || Below(a, c, x)
  }

  lemma ChildIdsSnoc(cs: seq<Node>)
    requires cs != []
    ensures ChildIds(cs) == ChildIds(cs[..|cs| - 1]) + (if cs[|cs| - 1].Dir? then {cs[|cs| - 1].id} else {})
  {
    assert cs == cs[..|cs| - 1] + [cs[|cs| - 1]];
  }

  /** `Listed` holds exactly the directories below `i` whose size is in range. */
  lemma {:induction false} ListedMembers(a: Arena, i: nat, minSize: int, maxSize: Option<int>, x: nat)
    requires WellFormed(a) && i < |a| && x < |a|
    ensures x in Listed(a, i, minSize, maxSize) <==> Below(a, i, x) && InRange(Size(a, x), minSize, maxSize)
    decreases |a| - i, 1, 0
  {
    assert Consistent(a, i);
    var cs := a[i].content;
    ListedContentMembers(a, i, cs, minSize, maxSize, x);
    if x in Listed(a, i, minSize, maxSize) {
      var c :| c in ChildIds(cs) && c < |a| && AtOrBelow(a, c, x);
      BelowThroughChild(a, i, c, x);
    }
    if Below(a, i, x) {
      var c := BelowHasChild(a, i, x);
      assert AtOrBelow(a, c, x);
    }
  }

  lemma {:induction false} ListedContentMembers(a: Arena, i: nat, cs: seq<Node>, minSize: int, maxSize: Option<int>, x: nat)
    requires WellFormed(a) && i < |a| && x < |a|
    requires forall k :: 0 <= k < |cs| && cs[k].Dir? ==> i < cs[k].id < |a|
    ensures x in ListedContent(a, i, cs, minSize, maxSize) <==>
      InRange(Size(a, x), minSize, maxSize) && exists c :: c in ChildIds(cs) && c < |a| && AtOrBelow(a, c, x)
    decreases |a| - i, 0, |cs|
  {
    if cs != [] {
      var init, last := cs[..|cs| - 1], cs[|cs| - 1];
      ChildIdsSnoc(cs);
      ListedContentMembers(a, i, init, minSize, maxSize, x);
      if last.Dir? {
        var j := last.id;
        ListedMembers(a, j, minSize, maxSize, x);
        if x in ListedNode(a, i, last, minSize, maxSize) {
          assert AtOrBelow(a, j, x);
        }
        if InRange(Size(a, x), minSize, maxSize) && AtOrBelow(a, j, x) {
          assert x in ListedNode(a, i, last, minSize, maxSize);
        }
      }
    }
  }

  ghost predicate NoDup(s: seq<nat>)
  {
    forall k, l :: 0 <= k < l < |s| ==> s[k] != s[l]
  }

  lemma NoDupAppend(s: seq<nat>, t: seq<nat>)
    requires NoDup(s) && NoDup(t)
    requires forall x :: x in s ==> x !in t
    ensures NoDup(s + t)
  {
    var u := s + t;
    forall k, l | 0 <= k < l < |u| ensures u[k] != u[l] {
      if k < |s| && l >= |s| {
        assert u[k] in s && u[l] == t[l - |s|];
      }
    }
  }

  /** `Listed` names each directory at most once. */
  lemma {:induction false} ListedNoDup(a: Arena, i: nat, minSize: int, maxSize: Option<int>)
    requires WellFormed(a) && i < |a|
    ensures NoDup(Listed(a, i, minSize, maxSize))
    decreases |a| - i, 1, 0
  {
    assert Consistent(a, i);
    var cs := a[i].content;
    assert cs[..|cs|] == cs;
    ListedPrefixNoDup(a, i, |cs|, minSize, maxSize);
  }

  lemma {:induction false} ListedPrefixNoDup(a: Arena, i: nat, m: nat, minSize: int, maxSize: Option<int>)
    requires WellFormed(a) && i < |a| && m <= |a[i].content|
    ensures Consistent(a, i)
    ensures NoDup(ListedContent(a, i, a[i].content[..m], minSize, maxSize))
    decreases |a| - i, 0, m
  {
    assert Consistent(a, i);
    var content := a[i].content;
    var cs := content[..m];
    if m > 0 {
      var init, last := cs[..m - 1], cs[m - 1];
      assert init == content[..m - 1];
      ListedPrefixNoDup(a, i, m - 1, minSize, maxSize);
      var A := ListedContent(a, i, init, minSize, maxSize);
      var B := ListedNode(a, i, last, minSize, maxSize);
      if last.Dir? {
        ListedNodeNoDup(a, i, last, minSize, maxSize);
        forall x | x in A ensures x !in B {
          LaterSiblingDisjoint(a, i, m - 1, minSize, maxSize, x);
        }
      }
      NoDupAppend(A, B);
    }
  }

  lemma {:induction false} ListedNodeNoDup(a: Arena, i: nat, n: Node, minSize: int, maxSize: Option<int>)
    requires WellFormed(a) && i < |a| && n.Dir? && i < n.id < |a|
    ensures NoDup(ListedNode(a, i, n, minSize, maxSize))
    decreases |a| - i, 0, 0
  {
    var j := n.id;
    ListedNoDup(a, j, minSize, maxSize);
    ListedMembers(a, j, minSize, maxSize, j);
    if InRange(Size(a, j), minSize, maxSize) {
      NoDupAppend([j], Listed(a, j, minSize, maxSize));
    }
  }

  /** What is listed through the first `m` entries of a directory is
      disjoint from what is listed through entry `m`. */
  lemma LaterSiblingDisjoint(a: Arena, i: nat, m: nat, minSize: int, maxSize: Option<int>, x: nat)
    requires WellFormed(a) && i < |a| && m < |a[i].content|
    requires Consistent(a, i)
    requires x in ListedContent(a, i, a[i].content[..m], minSize, maxSize)
    ensures x !in ListedNode(a, i, a[i].content[m], minSize, maxSize)
  {
    var last := a[i].content[m];
    if last.Dir? {
      var j := last.id;
      ListedContentMembers(a, i, a[i].content[..m], minSize, maxSize, x);
      var c :| c in ChildIds(a[i].content[..m]) && c < |a| && AtOrBelow(a, c, x);
      EarlierChild(a, i, m, c);
      SiblingsDisjoint(a, i, c, j, x);
      ListedMembers(a, j, minSize, maxSize, x);
      assert x != j && x !in Listed(a, j, minSize, maxSize);
      var own := if InRange(Size(a, j), minSize, maxSize) then [j] else [];
      assert ListedNode(a, i, last, minSize, maxSize) == own + Listed(a, j, minSize, maxSize);
    }
  }

  /** A subdirectory among the first `m` entries is a subdirectory of the
      directory, other than the one at entry `m`. */
  lemma EarlierChild(a: Arena, i: nat, m: nat, c: nat)
    requires i < |a| && m < |a[i].content| && Consistent(a, i)
    requires c in ChildIds(a[i].content[..m])
    ensures c in ChildIds(a[i].content)
    ensures a[i].content[m].Dir? ==> a[i].content[m].id in ChildIds(a[i].content) && c != a[i].content[m].id
  {
    var content := a[i].content;
    var n :| n in content[..m] && n.Dir? && n.id == c;
    var k :| 0 <= k < m && content[..m][k] == n;
    assert content[k] == n;
    assert content[m] in content;
  }


  /* ---------------------------------------------------------------------
     The two reports
     --------------------------------------------------------------------- */

  /** `[d.get_size() for d in dirs]`. */
  function Sizes(a: Arena, ids: seq<nat>): (r: seq<int>)
    requires WellFormed(a) && forall k :: 0 <= k < |ids| ==> ids[k] < |a|
    ensures |r| == |ids| && forall k :: 0 <= k < |ids| ==> r[k] == Size(a, ids[k])
  {
    seq(|ids|, k requires 0 <= k < |ids| => Size(a, ids[k]))
  }

  /** Dropping entry `k` of a duplicate-free sequence keeps it duplicate-free
      and removes exactly that element. */
  lemma RemoveAt(e: seq<nat>, k: nat)
    requires NoDup(e) && k < |e|
    ensures NoDup(e[..k] + e[k + 1..])
    ensures forall y :: y in e[..k] + e[k + 1..] <==> y in e && y != e[k]
  {
    var rest := e[..k] + e[k + 1..];
    forall p, q | 0 <= p < q < |rest| ensures rest[p] != rest[q] {
      var p' := if p < k then p else p + 1;
      var q' := if q < k then q else q + 1;
      assert rest[p] == e[p'] && rest[q] == e[q'];
    }
    forall y ensures y in rest <==> y in e && y != e[k] {
      if y in e && y != e[k] {
        var m :| 0 <= m < |e| && e[m] == y;
        if m < k { assert rest[m] == y; } else { assert rest[m - 1] == y; }
      }
      if y in rest {
        var m :| 0 <= m < |rest| && rest[m] == y;
        var m' := if m < k then m else m + 1;
        assert e[m'] == y && m' != k;
      }
    }
  }

  lemma HeadIn(s: seq<nat>)
    requires s != []
    ensures s[0] in s
  {
  }

  lemma SizesAppend(a: Arena, u: seq<nat>, v: seq<nat>)
    requires WellFormed(a)
    requires forall l :: 0 <= l < |u| ==> u[l] < |a|
    requires forall l :: 0 <= l < |v| ==> v[l] < |a|
    ensures Sizes(a, u + v) == Sizes(a, u) + Sizes(a, v)
  {
  }

  lemma SumSizesRemove(a: Arena, e: seq<nat>, k: nat)
    requires WellFormed(a) && k < |e|
    requires forall l :: 0 <= l < |e| ==> e[l] < |a|
    ensures Sum(Sizes(a, e)) == Sum(Sizes(a, e[..k] + e[k + 1..])) + Size(a, e[k])
  {
    var u, v := e[..k], e[k + 1..];
    assert e == (u + [e[k]]) + v;
    SizesAppend(a, u + [e[k]], v);
    SizesAppend(a, u, [e[k]]);
    SizesAppend(a, u, v);
    var su, sv, sx := Sizes(a, u), Sizes(a, v), Sizes(a, [e[k]]);
    assert sx == [Size(a, e[k])];
    SumAppend(su + sx, sv);
    SumAppend(su, sx);
    SumSingle(Size(a, e[k]));
    SumAppend(su, sv);
  }

  /** Summing sizes does not depend on the order in which the directories
      are enumerated, only on which directories they are. */
  lemma {:induction false} SumSizesAnyOrder(a: Arena, e1: seq<nat>, e2: seq<nat>)
    requires WellFormed(a)
    requires forall k :: 0 <= k < |e1| ==> e1[k] < |a|
    requires forall k :: 0 <= k < |e2| ==> e2[k] < |a|
    requires NoDup(e1) && NoDup(e2)
    requires forall x :: x in e1 <==> x in e2
    ensures Sum(Sizes(a, e1)) == Sum(Sizes(a, e2))
    decreases |e1|
  {
    if e1 == [] {
      if e2 != [] {
        HeadIn(e2);
        assert false;
      }
    } else {
      var last := |e1| - 1;
      var x := e1[last];
      assert x in e2;
      var k :| 0 <= k < |e2| && e2[k] == x;
      RemoveAt(e1, last);
      RemoveAt(e2, k);
      assert e1[..last] + e1[last + 1..] == e1[..last];
      var rest := e2[..k] + e2[k + 1..];
      forall y ensures y in e1[..last] <==> y in rest {
        assert y in e1[..last] <==> y in e1[..last] + e1[last + 1..];
        assert y in e1[..last] + e1[last + 1..] <==> y in e1 && y != x;
        assert y in rest <==> y in e2 && y != x;
        assert y in e1 <==> y in e2;
      }
      SumSizesAnyOrder(a, e1[..last], e2[..k] + e2[k + 1..]);
      SumSizesRemove(a, e1, last);
      SumSizesRemove(a, e2, k);
    }
  }

  /** `sum_dirs_size`: total size of the directories below `i` of size at
      most `maxSize`. */
  function SumDirsSize(a: Arena, i: nat, maxSize: int): int
    requires WellFormed(a) && i < |a|
  {
    Sum(Sizes(a, Listed(a, i, 0, Some(maxSize))))
  }

  /** The bounded-sum report counts every directory below `i` of size at
      most `maxSize` exactly once: any duplicate-free enumeration of those
      directories, in any order, has the same total. */
  lemma SumDirsSizeCountsEachOnce(a: Arena, i: nat, maxSize: int, e: seq<nat>)
    requires WellFormed(a) && i < |a|
    requires forall k :: 0 <= k < |e| ==> e[k] < |a|
    requires NoDup(e)
    requires forall x: nat :: x in e <==> x < |a| && Below(a, i, x) && Size(a, x) <= maxSize
    ensures Sum(Sizes(a, e)) == SumDirsSize(a, i, maxSize)
  {
    var listed := Listed(a, i, 0, Some(maxSize));
    ListedNoDup(a, i, 0, Some(maxSize));
    forall x: nat ensures x in e <==> x in listed {
      if x < |a| {
        ListedMembers(a, i, 0, Some(maxSize), x);
      }
    }
    SumSizesAnyOrder(a, e, listed);
  }

  /** `min` of a non-empty sequence. */
  function Min(s: seq<int>): (m: int)
    requires s != []
    ensures m in s && forall k :: 0 <= k < |s| ==> m <= s[k]
  {
    if |s| == 1 then s[0]
    else
      var m := Min(s[1..]);
      assert s[1..][0] == s[1];
      if s[0] <= m then s[0] else m
  }

  /** The space to free: what is needed beyond what the disk has left. */
  function SpaceToFree(a: Arena, totalSpace: int, spaceNeeded: int): int
    requires WellFormed(a)
  {
    spaceNeeded - (totalSpace - Size(a, Root))
  }

  /** `find_dir_to_free`: the size of the smallest directory below `i` that
      frees enough space, None when no directory is big enough (the source's
      `min` of an empty list raises). The free space is measured from the
      root, whichever directory the search starts from. */
  function FindDirToFree(a: Arena, i: nat, totalSpace: int, spaceNeeded: int): (r: Option<int>)
    requires WellFormed(a) && i < |a|
    ensures r.None? <==> forall x: nat :: x < |a| && Below(a, i, x) ==> Size(a, x) < SpaceToFree(a, totalSpace, spaceNeeded)
    ensures r.Some? ==> r.value >= SpaceToFree(a, totalSpace, spaceNeeded)
    ensures r.Some? ==> exists x: nat :: x < |a| && Below(a, i, x) && Size(a, x) == r.value
    ensures r.Some? ==> forall x: nat :: x < |a| && Below(a, i, x) && Size(a, x) >= SpaceToFree(a, totalSpace, spaceNeeded) ==> r.value <= Size(a, x)
  {
    var toFree := SpaceToFree(a, totalSpace, spaceNeeded);
    var listed := Listed(a, i, toFree, None);
    NoneAtLeast(a, i, toFree);
    if listed == [] then None
    else
      SmallestAtLeast(a, i, toFree);
      Some(Min(Sizes(a, listed)))
  }

  /** No directory below `i` is listed as at least `toFree` exactly when
      every directory below `i` is smaller. */
  lemma NoneAtLeast(a: Arena, i: nat, toFree: int)
    requires WellFormed(a) && i < |a|
    ensures Listed(a, i, toFree, None) == [] <==> forall x: nat :: x < |a| && Below(a, i, x) ==> Size(a, x) < toFree
  {
    var listed := Listed(a, i, toFree, None);
    ListedMembersAll(a, i, toFree, None);
    if listed == [] {
      forall x: nat | x < |a| && Below(a, i, x) ensures Size(a, x) < toFree {
        assert x !in listed;
      }
    } else {
      var w := listed[0];
      assert w in listed;
      assert w < |a| && Below(a, i, w) && !(Size(a, w) < toFree);
      assert exists x: nat :: x < |a| && Below(a, i, x) && !(Size(a, x) < toFree);
    }
  }

  /** The smallest size among the directories below `i` that are at least
      `toFree` is attained, at least `toFree`, and bounds every such
      directory. */
  lemma SmallestAtLeast(a: Arena, i: nat, toFree: int)
    requires WellFormed(a) && i < |a| && Listed(a, i, toFree, None) != []
    ensures var m := Min(Sizes(a, Listed(a, i, toFree, None)));
      && m >= toFree
      && (exists x: nat :: x < |a| && Below(a, i, x) && Size(a, x) == m)
      && (forall x: nat :: x < |a| && Below(a, i, x) && Size(a, x) >= toFree ==> m <= Size(a, x))
  {
    var listed := Listed(a, i, toFree, None);
    var sizes := Sizes(a, listed);
    ListedMembersAll(a, i, toFree, None);
    var m := Min(sizes);
    var k :| 0 <= k < |sizes| && sizes[k] == m;
    var w := listed[k];
    assert w in listed;
    assert w < |a| && Below(a, i, w) && Size(a, w) == m && m >= toFree;
    assert exists x: nat :: x < |a| && Below(a, i, x) && Size(a, x) == m;
    SizesBoundMembers(a, listed, m);
  }

  /** A lower bound of the sizes of `ids` bounds the size of each member. */
  lemma SizesBoundMembers(a: Arena, ids: seq<nat>, m: int)
    requires WellFormed(a) && forall k :: 0 <= k < |ids| ==> ids[k] < |a|
    requires forall k :: 0 <= k < |ids| ==> m <= Sizes(a, ids)[k]
    ensures forall y :: y in ids ==> m <= Size(a, y)
  {
    forall y | y in ids ensures m <= Size(a, y) {
      var k :| 0 <= k < |ids| && ids[k] == y;
      assert Sizes(a, ids)[k] == Size(a, y);
    }
  }

  lemma ListedMembersAll(a: Arena, i: nat, minSize: int, maxSize: Option<int>)
    requires WellFormed(a) && i < |a|
    ensures forall x: nat :: x < |a| ==> (x in Listed(a, i, minSize, maxSize) <==> Below(a, i, x) && InRange(Size(a, x), minSize, maxSize))
  {
    forall x: nat | x < |a| ensures x in Listed(a, i, minSize, maxSize) <==> Below(a, i, x) && InRange(Size(a, x), minSize, maxSize) {
      ListedMembers(a, i, minSize, maxSize, x);
    }
  }

  /* ---------------------------------------------------------------------
     Growing the tree: `Directory(name, parent)` and `add_file`
     --------------------------------------------------------------------- */

  /** A fresh empty directory record keeps the tree well formed. */
  lemma NewDirWellFormed(a: Arena, name: string, d: nat)
    requires WellFormed(a) && d < |a|
    ensures WellFormed(a + [Directory(name, Some(d), [])])
  {
    var b := a + [Directory(name, Some(d), [])];
    forall i | 0 <= i < |b| ensures Consistent(b, i) {
      if i < |a| {
        assert Consistent(a, i) && b[i] == a[i];
      }
    }
  }

  /** What `add_file` needs of a subdirectory entry: the record it names
      was created for directory `d` under the entry's name, and `d` does not
      list it yet. */
  ghost predicate Storable(a: Arena, d: nat, n: Node)
    requires d < |a|
  {
    n.Dir? ==> n.id < |a| && a[n.id].parent == Some(d) && a[n.id].name == n.name && n.id !in ChildIds(a[d].content)
  }

  /** `a[d].add_file(n)`: directory `d` stores `n` under its name. */
  function AddEntry(a: Arena, d: nat, n: Node): (r: Arena)
    requires WellFormed(a) && d < |a| && Storable(a, d, n)
    ensures WellFormed(r) && |r| == |a|
    ensures forall j :: 0 <= j < |a| ==> r[j].name == a[j].name && r[j].parent == a[j].parent
    ensures forall j :: 0 <= j < |a| && j != d ==> r[j].content == a[j].content
    ensures forall name :: Lookup(r[d].content, name) == if name == n.name then Some(n) else Lookup(a[d].content, name)
  {
    var r := a[d := a[d].(content := Put(a[d].content, n))];
    AddEntryWellFormed(a, d, n);
    forall name ensures Lookup(r[d].content, name) == if name == n.name then Some(n) else Lookup(a[d].content, name) {
      LookupPut(a[d].content, n, name);
    }
    r
  }

  lemma AddEntryWellFormed(a: Arena, d: nat, n: Node)
    requires WellFormed(a) && d < |a| && Storable(a, d, n)
    ensures WellFormed(a[d := a[d].(content := Put(a[d].content, n))])
  {
    var b := a[d := a[d].(content := Put(a[d].content, n))];
    assert forall j :: 0 <= j < |a| ==> b[j].name == a[j].name && b[j].parent == a[j].parent;
    assert Consistent(a, d);
    var old_cs, cs := a[d].content, b[d].content;
    PutUniqueNames(old_cs, n);
    PutUniqueIds(old_cs, n);
    forall k | 0 <= k < |cs| && cs[k].Dir?
      ensures d < cs[k].id < |b| && b[cs[k].id].parent == Some(d) && b[cs[k].id].name == cs[k].name
    {
      assert cs[k] in cs;
      if cs[k] != n {
        var l :| 0 <= l < |old_cs| && old_cs[l] == cs[k];
      } else {
        assert n.id != Root;
      }
    }
    assert Consistent(b, d);
    OthersConsistent(a, b, d);
  }

  /** Records whose content is unchanged stay consistent when no record
      changes its name or parent. */
  lemma OthersConsistent(a: Arena, b: Arena, d: nat)
    requires WellFormed(a) && |b| == |a|
    requires forall j :: 0 <= j < |a| ==> b[j].name == a[j].name && b[j].parent == a[j].parent
    requires forall j :: 0 <= j < |a| && j != d ==> b[j].content == a[j].content
    ensures forall i :: 0 <= i < |b| && i != d ==> Consistent(b, i)
  {
    forall i | 0 <= i < |b| && i != d ensures Consistent(b, i) {
      assert Consistent(a, i);
    }
  }

  /* ---------------------------------------------------------------------
     `cd_command`
     --------------------------------------------------------------------- */

  /** Where the interpreter stands: a directory, or no directory at all.
      `NoDirectory` stands for both the `None` that `cd ..` yields at the
      root and a file reached by `cd <file name>`: from either, only `cd /`
      and an `ls` with empty output succeed. */
  datatype Cursor = At(id: nat) | NoDirectory

  ghost predicate CursorIn(a: Arena, c: Cursor)
  {
    c.At? ==> c.id < |a|
  }

  /** `cd_command(arg, current_dir)`; None when the source raises (a missing
      name, or a `..` or a name asked of no directory). */
  function Cd(a: Arena, arg: string, cur: Cursor): (r: Option<Cursor>)
    requires WellFormed(a) && CursorIn(a, cur)
    ensures r.Some? ==> CursorIn(a, r.value)
    ensures arg == "/" ==> r == Some(At(Root))
    ensures arg != "/" && cur.NoDirectory? ==> r.None?
    ensures arg == ".." && cur.At? ==>
      r.Some? && (r.value.At? <==> cur.id != Root) && (r.value.At? ==> a[cur.id].parent == Some(r.value.id))
    ensures arg != "/" && arg != ".." && cur.At? ==>
      && (r.None? <==> Lookup(a[cur.id].content, arg).None?)
      && (r == Some(NoDirectory) <==> Lookup(a[cur.id].content, arg).Some? && Lookup(a[cur.id].content, arg).value.File?)
      && (r.Some? && r.value.At? ==> Dir(arg, r.value.id) in a[cur.id].content)
  {
    if arg == "/" then Some(At(Root))
    else match cur
      case NoDirectory => None
      case At(d) =>
        if arg == ".." then
          match a[d].parent
          case None => Some(NoDirectory)
          case Some(p) => Some(At(p))
        else
          match Lookup(a[d].content, arg)
          case None => None
          case Some(File(_, _)) => Some(NoDirectory)
          case Some(Dir(_, j)) =>
            assert Consistent(a, d);
            Some(At(j))
  }

  /** `cd <name>` into a subdirectory followed by `cd ..` comes back. */
  lemma CdChildThenParent(a: Arena, d: nat, name: string)
    requires WellFormed(a) && d < |a|
    requires name != "/" && name != ".."
    requires Lookup(a[d].content, name).Some? && Lookup(a[d].content, name).value.Dir?
    ensures Cd(a, name, At(d)).Some? && Cd(a, name, At(d)).value.At?
    ensures Cd(a, "..", Cd(a, name, At(d)).value) == Some(At(d))
  {
    var n := Lookup(a[d].content, name).value;
    var k :| 0 <= k < |a[d].content| && a[d].content[k] == n;
    assert Consistent(a, d);
    assert n.id != Root;
  }

  /* ---------------------------------------------------------------------
     `ls_command`
     --------------------------------------------------------------------- */

  /** A line of `ls` output. */
  datatype Entry = SubDir(name: string) | SizedFile(name: string, size: nat)

  /** `dir_or_size, name = line.split()` followed by `int(dir_or_size)` for
      a file; None when the source raises. */
  function ParseEntry(line: string): (r: Option<Entry>)
    ensures r.Some? <==> |Words(line)| == 2 && (Words(line)[0] == "dir" || IsNumeral(Words(line)[0]))
    ensures r.Some? ==> r.value.name == Words(line)[1] && (r.value.SubDir? <==> Words(line)[0] == "dir")
    ensures r.Some? && r.value.SizedFile? ==> r.value.size == NumeralValue(Words(line)[0])
  {
    var w := Words(line);
    if |w| != 2 then None
    else if w[0] == "dir" then Some(SubDir(w[1]))
    else match ParseInt(w[0])
      case None => None
      case Some(k) => Some(SizedFile(w[1], k))
  }

  /** The line `ls` prints for an entry: `dir <name>` or `<size> <name>`. */
  function FormatEntry(e: Entry): string
  {
    match e
    case SubDir(n) => "dir " + n
    case SizedFile(n, size) => Decimal(size) + " " + n
  }

  /** Every entry whose name is one word is read back from its `ls` line. */
  lemma ParseFormatEntry(e: Entry)
    requires IsWord(e.name)
    ensures ParseEntry(FormatEntry(e)) == Some(e)
  {
    match e
    case SubDir(n) =>
      assert "dir " + n == "dir" + " " + n;
      WordsOfTwo("dir", n);
    case SizedFile(n, size) =>
      var digits := Decimal(size);
      NumeralIsWord(digits);
      WordsOfTwo(digits, n);
      DecimalRoundTrip(size);
      DigitsFromAll(digits, 0);
      assert digits != "dir" by {
        assert IsDigit(digits[0]);
      }
  }

  /** The entry a listed line stores, a new subdirectory getting handle `handle`. */
  function EntryNode(e: Entry, handle: nat): Node
  {
    match e
    case SubDir(n) => Dir(n, handle)
    case SizedFile(n, s) => File(n, s)
  }

  /** One listed line applied to directory `d`: `dir n` creates a new empty
      directory `n` under `d` and stores it (replacing whatever `d` held
      under `n`); `<size> n` stores a file. */
  function Apply(a: Arena, d: nat, e: Entry): (r: Arena)
    requires WellFormed(a) && d < |a|
    ensures WellFormed(r)
    ensures |r| == |a| + (if e.SubDir? then 1 else 0)
    ensures forall j :: 0 <= j < |a| ==> r[j].name == a[j].name && r[j].parent == a[j].parent
    ensures forall j :: 0 <= j < |a| && j != d ==> r[j].content == a[j].content
    ensures e.SubDir? ==> r[|a|] == Directory(e.name, Some(d), [])
    ensures forall name :: Lookup(r[d].content, name) == if name == e.name then Some(EntryNode(e, |a|)) else Lookup(a[d].content, name)
  {
    match e
    case SizedFile(n, s) => AddEntry(a, d, File(n, s))
    case SubDir(n) =>
      NewDirWellFormed(a, n, d);
      var b := a + [Directory(n, Some(d), [])];
      assert Consistent(a, d);
      AddEntry(b, d, Dir(n, |a|))
  }

  /** The outcome of running commands: whether they all succeeded, and the
      tree as it stands when they stopped. */
  datatype Outcome = Outcome(ok: bool, tree: Arena)

  /** `ls_command(output, current_dir)`: the lines applied one after the
      other; the first line that does not parse, or any line when there is
      no current directory, stops the listing with what was stored so far. */
  function Listing(a: Arena, cur: Cursor, out: seq<string>): (r: Outcome)
    requires WellFormed(a) && CursorIn(a, cur)
    ensures WellFormed(r.tree) && |a| <= |r.tree|
    ensures r.ok <==> (forall k :: 0 <= k < |out| ==> ParseEntry(out[k]).Some?) && (out == [] || cur.At?)
    ensures forall j :: 0 <= j < |a| ==> r.tree[j].name == a[j].name && r.tree[j].parent == a[j].parent
    ensures forall j :: 0 <= j < |a| && (cur.NoDirectory? || j != cur.id) ==> r.tree[j].content == a[j].content
    ensures forall j :: |a| <= j < |r.tree| ==> cur.At? && r.tree[j].parent == Some(cur.id) && r.tree[j].content == []
    decreases |out|
  {
    if out == [] then Outcome(true, a)
    else match ParseEntry(out[0])
      case None => Outcome(false, a)
      case Some(e) =>
        if cur.NoDirectory? then Outcome(false, a)
        else
          var b := Apply(a, cur.id, e);
          var r := Listing(b, cur, out[1..]);
          assert forall k :: 1 <= k < |out| ==> out[k] == out[1..][k - 1];
          assert forall j :: |a| <= j < |r.tree| ==> r.tree[j].parent == Some(cur.id) && r.tree[j].content == [] by {
            forall j | |a| <= j < |r.tree| ensures r.tree[j].parent == Some(cur.id) && r.tree[j].content == [] {
              if j < |b| {
                assert j == |a| && e.SubDir?;
              }
            }
          }
          r
  }

  /** Listing two runs of lines is listing the first, then, if it
      succeeded, the second. */
  lemma {:induction false} ListingAppend(a: Arena, cur: Cursor, o1: seq<string>, o2: seq<string>)
    requires WellFormed(a) && CursorIn(a, cur)
    ensures Listing(a, cur, o1 + o2) ==
      var r := Listing(a, cur, o1); if r.ok then Listing(r.tree, cur, o2) else r
    decreases |o1|
  {
    if o1 == [] {
      assert o1 + o2 == o2;
    } else {
      assert (o1 + o2)[0] == o1[0] && (o1 + o2)[1..] == o1[1..] + o2;
      match ParseEntry(o1[0])
      case None =>
      case Some(e) =>
        if cur.At? {
          ListingAppend(Apply(a, cur.id, e), cur, o1[1..], o2);
        }
    }
  }

  /** A name that no line of a listing mentions keeps its entry. */
  lemma {:induction false} ListingUnnamed(a: Arena, d: nat, out: seq<string>, name: string)
    requires WellFormed(a) && d < |a|
    requires forall k :: 0 <= k < |out| && ParseEntry(out[k]).Some? ==> ParseEntry(out[k]).value.name != name
    ensures Lookup(Listing(a, At(d), out).tree[d].content, name) == Lookup(a[d].content, name)
    decreases |out|
  {
    if out != [] && ParseEntry(out[0]).Some? {
      var e := ParseEntry(out[0]).value;
      assert forall k :: 1 <= k < |out| ==> out[k] == out[1..][k - 1];
      ListingUnnamed(Apply(a, d, e), d, out[1..], name);
    }
  }

  /** The last line naming an entry decides it: a file of the listed size, or
      a new, empty subdirectory. */
  lemma ListingLastWins(a: Arena, d: nat, out: seq<string>, line: string)
    requires WellFormed(a) && d < |a|
    requires Listing(a, At(d), out).ok && ParseEntry(line).Some?
    ensures var before := Listing(a, At(d), out).tree;
      var after := Listing(a, At(d), out + [line]);
      var e := ParseEntry(line).value;
      && after.ok
      && Lookup(after.tree[d].content, e.name) == Some(EntryNode(e, |before|))
      && (e.SubDir? ==> |after.tree| == |before| + 1 && after.tree[|before|] == Directory(e.name, Some(d), []))
  {
    ListingAppend(a, At(d), out, [line]);
  }

  /* ---------------------------------------------------------------------
     `get_command_output` and `build_filesystem`
     --------------------------------------------------------------------- */

  /** A prompt line: its first character is `$`. */
  predicate IsCommand(line: string)
  {
    |line| > 0 && line[0] == '$'
  }

  /** End of the run of output lines starting at `k`: the next prompt line,
      or the end of the transcript. */
  function OutputEnd(lines: seq<string>, k: nat): (e: nat)
    requires k <= |lines|
    ensures k <= e <= |lines|
    ensures forall j :: k <= j < e ==> !IsCommand(lines[j])
    ensures e < |lines| ==> IsCommand(lines[e])
    decreases |lines| - k
  {
    if k < |lines| && !IsCommand(lines[k]) then OutputEnd(lines, k + 1) else k
  }

  /** The end of an output run is determined by where it starts. */
  lemma {:induction false} OutputEndUnique(lines: seq<string>, k: nat, e: nat)
    requires k <= e <= |lines|
    requires forall j :: k <= j < e ==> !IsCommand(lines[j])
    requires e < |lines| ==> IsCommand(lines[e])
    ensures e == OutputEnd(lines, k)
    decreases |lines| - k
  {
    if k < e {
      OutputEndUnique(lines, k + 1, e);
    }
  }

  /** `get_command_output`: the lines from `pos` up to the next prompt line
      or the end; `next` is where reading resumes (the source seeks back to
      the prompt line). */
  method GetCommandOutput(lines: seq<string>, pos: nat) returns (output: seq<string>, next: nat)
    requires pos <= |lines|
    ensures pos <= next <= |lines| && output == lines[pos..next]
    ensures forall j :: pos <= j < next ==> !IsCommand(lines[j])
    ensures next < |lines| ==> IsCommand(lines[next])
  {
    output := [];
    next := pos;
    while next < |lines| && !IsCommand(lines[next])
      invariant pos <= next <= |lines| && output == lines[pos..next]
      invariant forall j :: pos <= j < next ==> !IsCommand(lines[j])
    {
      output := output + [lines[next]];
      next := next + 1;
    }
  }

  /** `build_filesystem(lines[pos:], cur)`: reads the transcript line by line.
      A line that splits into no words, a prompt with no command, or a `cd`
      with no argument raises; `$ cd x` moves the cursor; `$ ls` applies the
      output lines that follow it; every other line is skipped. */
  function Replay(a: Arena, cur: Cursor, lines: seq<string>, pos: nat): (r: Outcome)
    requires WellFormed(a) && CursorIn(a, cur) && pos <= |lines|
    ensures WellFormed(r.tree) && |a| <= |r.tree|
    ensures forall j :: 0 <= j < |a| ==> r.tree[j].name == a[j].name && r.tree[j].parent == a[j].parent
    decreases |lines| - pos
  {
    if pos == |lines| then Outcome(true, a)
    else
      var args := Words(lines[pos]);
      if |args| == 0 then Outcome(false, a)
      else if args[0] != "$" then Replay(a, cur, lines, pos + 1)
      else if |args| < 2 then Outcome(false, a)
      else if args[1] == "cd" then
        if |args| < 3 then Outcome(false, a)
        else match Cd(a, args[2], cur)
          case None => Outcome(false, a)
          case Some(next) => Replay(a, next, lines, pos + 1)
      else if args[1] == "ls" then
        var end := OutputEnd(lines, pos + 1);
        var listed := Listing(a, cur, lines[pos + 1..end]);
        if !listed.ok then listed else Replay(listed.tree, cur, lines, end)
      else Replay(a, cur, lines, pos + 1)
  }

  /** After `$ cd /` the transcript no longer depends on where it started. */
  lemma ReplayCdRoot(a: Arena, c1: Cursor, c2: Cursor, lines: seq<string>, pos: nat)
    requires WellFormed(a) && CursorIn(a, c1) && CursorIn(a, c2) && pos < |lines|
    requires Words(lines[pos]) == ["$", "cd", "/"]
    ensures Replay(a, c1, lines, pos) == Replay(a, c2, lines, pos)
  {
  }

  /** A final `$ ls` applies every line after it to the current directory:
      the transcript's outcome is that listing, which succeeds exactly when
      every line after the prompt reads and, if there is any, the cursor is
      on a directory. */
  lemma ReplayLs(a: Arena, cur: Cursor, lines: seq<string>, pos: nat)
    requires WellFormed(a) && CursorIn(a, cur) && pos < |lines|
    requires Words(lines[pos]) == ["$", "ls"]
    requires forall k :: pos < k < |lines| ==> !IsCommand(lines[k])
    ensures Replay(a, cur, lines, pos) == Listing(a, cur, lines[pos + 1..])
    ensures Replay(a, cur, lines, pos).ok <==>
      (forall k :: pos < k < |lines| ==> ParseEntry(lines[k]).Some?) && (pos + 1 == |lines| || cur.At?)
  {
    assert Replay(a, cur, lines, pos) == Listing(a, cur, lines[pos + 1..]) by {
      OutputEndUnique(lines, pos + 1, |lines|);
      ReplayStep(a, cur, lines, pos);
      assert lines[pos + 1..OutputEnd(lines, pos + 1)] == lines[pos + 1..];
    }
    ListingOkFrom(a, cur, lines, pos + 1);
  }

  /** `Listing`'s success condition for the lines from `from` on. */
  lemma ListingOkFrom(a: Arena, cur: Cursor, lines: seq<string>, from: nat)
    requires WellFormed(a) && CursorIn(a, cur) && from <= |lines|
    ensures Listing(a, cur, lines[from..]).ok <==>
      (forall k :: from <= k < |lines| ==> ParseEntry(lines[k]).Some?) && (from == |lines| || cur.At?)
  {
    forall k | from <= k < |lines|
      ensures lines[k] == lines[from..][k - from]
    {
    }
  }

  /** `$ cd <name>` into a subdirectory moves the cursor to that
      subdirectory and carries on with the next line. */
  lemma ReplayCd(a: Arena, d: nat, name: string, lines: seq<string>, pos: nat)
    requires WellFormed(a) && d < |a| && name != "/" && name != ".."
    requires Lookup(a[d].content, name).Some? && Lookup(a[d].content, name).value.Dir?
    requires pos < |lines| && Words(lines[pos]) == ["$", "cd", name]
    ensures var c := Lookup(a[d].content, name).value.id;
      c < |a| && Replay(a, At(d), lines, pos) == Replay(a, At(c), lines, pos + 1)
  {
    var c := Lookup(a[d].content, name).value.id;
    assert Cd(a, name, At(d)) == Some(At(c));
    ReplayStep(a, At(d), lines, pos);
  }

  /** `$ cd <name>` into a subdirectory, then `$ ls` and its output: the
      transcript comes to the listing of that output in the subdirectory,
      and succeeds exactly when every output line reads. */
  lemma ReplayCdLs(a: Arena, d: nat, name: string, lines: seq<string>)
    requires WellFormed(a) && d < |a| && name != "/" && name != ".."
    requires Lookup(a[d].content, name).Some? && Lookup(a[d].content, name).value.Dir?
    requires |lines| >= 2 && Words(lines[0]) == ["$", "cd", name] && Words(lines[1]) == ["$", "ls"]
    requires forall k :: 2 <= k < |lines| ==> !IsCommand(lines[k])
    ensures var c := Lookup(a[d].content, name).value.id;
      c < |a| && Replay(a, At(d), lines, 0) == Listing(a, At(c), lines[2..])
    ensures Replay(a, At(d), lines, 0).ok <==> forall k :: 2 <= k < |lines| ==> ParseEntry(lines[k]).Some?
  {
    var c := Lookup(a[d].content, name).value.id;
    ReplayCd(a, d, name, lines, 0);
    ReplayLs(a, At(c), lines, 1);
  }

  /** When every line from `from` on reads, the last one decides the entry
      it names: a file of the listed size, or a new directory allocated
      after everything the earlier lines made. */
  lemma ListingReadsLastWins(a: Arena, d: nat, lines: seq<string>, from: nat)
    requires WellFormed(a) && d < |a| && from < |lines|
    requires forall k :: from <= k < |lines| ==> ParseEntry(lines[k]).Some?
    ensures var r := Listing(a, At(d), lines[from..]);
      var e := ParseEntry(lines[|lines| - 1]).value;
      && r.ok
      && Lookup(r.tree[d].content, e.name) == Some(EntryNode(e, |Listing(a, At(d), lines[from..|lines| - 1]).tree|))
  {
    var out := lines[from..|lines| - 1];
    forall k | 0 <= k < |out|
      ensures ParseEntry(out[k]).Some?
    {
      assert out[k] == lines[from + k];
    }
    assert lines[from..] == out + [lines[|lines| - 1]];
    ListingLastWins(a, d, out, lines[|lines| - 1]);
  }

  /** After `$ cd <name>` and `$ ls` with output that reads, the last output
      line decides the entry it names in that subdirectory. */
  lemma ReplayCdLsLastWins(a: Arena, d: nat, name: string, lines: seq<string>)
    requires WellFormed(a) && d < |a| && name != "/" && name != ".."
    requires Lookup(a[d].content, name).Some? && Lookup(a[d].content, name).value.Dir?
    requires |lines| >= 3 && Words(lines[0]) == ["$", "cd", name] && Words(lines[1]) == ["$", "ls"]
    requires forall k :: 2 <= k < |lines| ==> !IsCommand(lines[k]) && ParseEntry(lines[k]).Some?
    ensures var c := Lookup(a[d].content, name).value.id;
      var r := Replay(a, At(d), lines, 0);
      var e := ParseEntry(lines[|lines| - 1]).value;
      && c < |a| && r.ok
      && Lookup(r.tree[c].content, e.name) == Some(EntryNode(e, |Listing(a, At(c), lines[2..|lines| - 1]).tree|))
  {
    var c := Lookup(a[d].content, name).value.id;
    ReplayCdLs(a, d, name, lines);
    ListingReadsLastWins(a, c, lines, 2);
  }

  /** One step of a listing: the line at `k` parsed and applied. */
  lemma ListingStep(a: Arena, cur: Cursor, out: seq<string>, k: nat)
    requires WellFormed(a) && CursorIn(a, cur) && k < |out|
    ensures Listing(a, cur, out[k..]) ==
      match ParseEntry(out[k])
      case None => Outcome(false, a)
      case Some(e) => if cur.NoDirectory? then Outcome(false, a) else Listing(Apply(a, cur.id, e), cur, out[k + 1..])
  {
    assert out[k..][0] == out[k] && out[k..][1..] == out[k + 1..];
  }

  /** One step of the transcript: the line at `pos` and the lines after it. */
  lemma ReplayStep(a: Arena, cur: Cursor, lines: seq<string>, pos: nat)
    requires WellFormed(a) && CursorIn(a, cur) && pos < |lines|
    ensures var args := Words(lines[pos]);
      Replay(a, cur, lines, pos) ==
        if |args| == 0 || (args[0] == "$" && |args| < 2) then Outcome(false, a)
        else if args[0] == "$" && args[1] == "cd" then
          if |args| < 3 || Cd(a, args[2], cur).None? then Outcome(false, a)
          else Replay(a, Cd(a, args[2], cur).value, lines, pos + 1)
        else if args[0] == "$" && args[1] == "ls" then
          var end := OutputEnd(lines, pos + 1);
          var listed := Listing(a, cur, lines[pos + 1..end]);
          if !listed.ok then listed else Replay(listed.tree, cur, lines, end)
        else Replay(a, cur, lines, pos + 1)
  {
  }

  /** Every directory of the tree: each record, indexed by its handle. The
      root is the first record. */
  class FileSystem {
    var dirs: Arena

    ghost predicate Valid()
      reads this
    {
      WellFormed(dirs)
    }

    /** `ROOT = Directory("/", None)`: a tree holding the empty root only. */
    constructor ()
      ensures Valid() && dirs == [Directory("/", None, [])]
    {
      dirs := [Directory("/", None, [])];
    }

    /** `Directory(name, parent)`: a new empty directory record; its handle
        is returned. */
    method NewDirectory(name: string, parent: nat) returns (id: nat)
      requires Valid() && parent < |dirs|
      modifies this
      ensures Valid()
      ensures id == |old(dirs)| && dirs == old(dirs) + [Directory(name, Some(parent), [])]
    {
      NewDirWellFormed(dirs, name, parent);
      id := |dirs|;
      dirs := dirs + [Directory(name, Some(parent), [])];
    }

    /** `dirs[d].add_file(n)`. */
    method AddFile(d: nat, n: Node)
      requires Valid() && d < |dirs| && Storable(dirs, d, n)
      modifies this
      ensures Valid()
      ensures dirs == AddEntry(old(dirs), d, n)
    {
      AddEntryWellFormed(dirs, d, n);
      dirs := dirs[d := dirs[d].(content := Put(dirs[d].content, n))];
    }

    /** `dirs[d].list_dirs(minSize, maxSize)`. */
    method ListDirs(d: nat, minSize: int, maxSize: Option<int>) returns (r: seq<nat>)
      requires Valid() && d < |dirs|
      ensures r == Listed(dirs, d, minSize, maxSize)
      decreases |dirs| - d
    {
      var cs := dirs[d].content;
      assert Consistent(dirs, d);
      assert forall l :: 0 <= l < |cs| && cs[l].Dir? ==> d < cs[l].id < |dirs|;
      r := [];
      for k := 0 to |cs|
        invariant r == ListedContent(dirs, d, cs[..k], minSize, maxSize)
      {
        ListedContentSnoc(dirs, d, cs, k, minSize, maxSize);
        var f := cs[k];
        if f.Dir? {
          var size := Size(dirs, f.id);
          var own: seq<nat> := [];
          if size >= minSize && (maxSize.None? || size <= maxSize.value) {
            own := [f.id];
          }
          var sub := ListDirs(f.id, minSize, maxSize);
          assert own + sub == ListedNode(dirs, d, f, minSize, maxSize);
          r := r + (own + sub);
        }
      }
      assert cs[..|cs|] == cs;
    }

    /** One line of `ls` output stored in directory `d`: a new empty
        subdirectory registered under its name, or a file. */
    method ApplyEntry(d: nat, e: Entry)
      requires Valid() && d < |dirs|
      modifies this
      ensures Valid() && dirs == Apply(old(dirs), d, e)
    {
      match e {
        case SubDir(name) =>
          var id := NewDirectory(name, d);
          assert Consistent(old(dirs), d);
          AddFile(d, Dir(name, id));
        case SizedFile(name, size) =>
          AddFile(d, File(name, size));
      }
    }

    /** `ls_command(output, cur)`. */
    method LsCommand(output: seq<string>, cur: Cursor) returns (ok: bool)
      requires Valid() && CursorIn(dirs, cur)
      modifies this
      ensures Valid()
      ensures Outcome(ok, dirs) == Listing(old(dirs), cur, output)
    {
      for k := 0 to |output|
        invariant Valid() && CursorIn(dirs, cur)
        invariant Listing(old(dirs), cur, output) == Listing(dirs, cur, output[k..])
      {
        ListingStep(dirs, cur, output, k);
        var entry := ParseEntry(output[k]);
        if entry.None? || cur.NoDirectory? {
          return false;
        }
        ApplyEntry(cur.id, entry.value);
      }
      assert output[|output|..] == [];
      return true;
    }

    /** The `ls` branch of `build_filesystem`: reads the output lines after
        the prompt at `pos` and applies them to the current directory. */
    method ListAt(lines: seq<string>, pos: nat, cur: Cursor) returns (ok: bool, end: nat)
      requires Valid() && CursorIn(dirs, cur) && pos < |lines|
      modifies this
      ensures Valid() && end == OutputEnd(lines, pos + 1)
      ensures Outcome(ok, dirs) == Listing(old(dirs), cur, lines[pos + 1..end])
    {
      var output;
      output, end := GetCommandOutput(lines, pos + 1);
      OutputEndUnique(lines, pos + 1, end);
      ok := LsCommand(output, cur);
    }

    /** `build_filesystem(lines, start)`, the recursion on the rest of the
        transcript run as a loop. */
    method Build(lines: seq<string>, start: Cursor) returns (ok: bool)
      requires Valid() && CursorIn(dirs, start)
      modifies this
      ensures Valid()
      ensures Outcome(ok, dirs) == Replay(old(dirs), start, lines, 0)
    {
      var cur := start;
      var pos := 0;
      while pos < |lines|
        invariant Valid() && CursorIn(dirs, cur) && pos <= |lines|
        invariant Replay(dirs, cur, lines, pos) == Replay(old(dirs), start, lines, 0)
        decreases |lines| - pos
      {
        ReplayStep(dirs, cur, lines, pos);
        var args := Words(lines[pos]);
        if |args| == 0 || (args[0] == "$" && |args| < 2) {
          return false;
        }
        if args[0] == "$" && args[1] == "cd" {
          if |args| < 3 {
            return false;
          }
          var next := Cd(dirs, args[2], cur);
          if next.None? {
            return false;
          }
          cur := next.value;
          pos := pos + 1;
        } else if args[0] == "$" && args[1] == "ls" {
          var end;
          ok, end := ListAt(lines, pos, cur);
          if !ok {
            return;
          }
          pos := end;
        } else {
          pos := pos + 1;
        }
      }
      return true;
    }
  }
}
