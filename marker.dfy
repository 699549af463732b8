/** Day 6: the start-of-packet and start-of-message markers of a
    datastream. The program keeps the last `size` characters read in a
    list, newest first, and reads on until no two of them are equal; the
    answer is the stream position reached. Past the end of the stream a
    read gives the empty string, which takes a place in the list like any
    character. */
module Datastream {
  import opened Text

  /** `IO[str]` opened on a text: `read(1)` and `tell()`. */
  class Stream {
    const text: string
    var pos: nat

    constructor(text: string)
      ensures this.text == text && pos == 0
    {
      this.text := text;
      pos := 0;
    }

    /** `read(1)`: the next character, or "" once the text is used up. */
    method Read() returns (r: string)
      requires pos <= |text|
      modifies this
      ensures r == Item(text, old(pos))
      ensures pos == if old(pos) < |text| then old(pos) + 1 else old(pos)
    {
      if pos < |text| {
        r := [text[pos]];
        pos := pos + 1;
      } else {
        r := "";
      }
    }

    /** `tell()`: the number of characters read so far. */
    function Tell(): nat
      reads this
    {
      pos
    }
  }

  /** What the `k`-th read from the start of `text` gives. */
  function Item(text: string, k: nat): string
  {
    if k < |text| then [text[k]] else ""
  }

  /** The list after `k` reads: the last `size` reads, newest first. */
  function Window(text: string, size: nat, k: nat): (w: seq<string>)
    requires size <= k
    ensures |w| == size
  {
    seq(size, i requires 0 <= i < size => Item(text, k - 1 - i))
  }

  /** After `k` reads the last `size` reads are pairwise different. */
  predicate IsMarker(text: string, size: nat, k: nat)
  {
    size <= k && Distinct(Window(text, size, k))
  }

  /** The first marker position from `k` on, if there is one. Past
      `|text| + 1` reads at least two places hold "", so no later position
      can be a marker (see NoMarkerPastEnd). */
  function MarkerFrom(text: string, size: nat, k: nat): Option<nat>
    requires size <= k
    decreases |text| + 2 - k
  {
    if k > |text| + 1 then None
    else if IsMarker(text, size, k) then Some(k)
    else MarkerFrom(text, size, k + 1)
  }

  /** The first marker position of `text`; None when there is none, where
      the program reads forever. */
  function Marker(text: string, size: nat): Option<nat>
  {
    MarkerFrom(text, size, size)
  }

  /** With at least two places, a list read past the end of the text by
      two or more holds "" twice. */
  lemma NoMarkerPastEnd(text: string, size: nat, k: nat)
    requires 2 <= size <= k && |text| + 2 <= k
    ensures !IsMarker(text, size, k)
  {
    var w := Window(text, size, k);
    assert w[0] == Item(text, k - 1) == "";
    assert w[1] == Item(text, k - 2) == "";
  }

  /** A list of at most one place never repeats. */
  lemma ShortWindowIsMarker(text: string, size: nat)
    requires size <= 1
    ensures IsMarker(text, size, size)
  {
  }

  lemma {:induction false} MarkerFromSpec(text: string, size: nat, k: nat, m: nat)
    requires size <= k
    requires forall j :: size <= j < k ==> !IsMarker(text, size, j)
    ensures MarkerFrom(text, size, k) == Some(m) <==>
      IsMarker(text, size, m) && forall j :: size <= j < m ==> !IsMarker(text, size, j)
    ensures MarkerFrom(text, size, k) == None <==> forall j :: size <= j ==> !IsMarker(text, size, j)
    decreases |text| + 2 - k
  {
    if k > |text| + 1 {
      if size <= 1 {
        ShortWindowIsMarker(text, size);
        assert false;
      }
      forall j | size <= j
        ensures !IsMarker(text, size, j)
      {
        if j >= k {
          NoMarkerPastEnd(text, size, j);
        }
      }
    } else if IsMarker(text, size, k) {
      assert MarkerFrom(text, size, k) == Some(k);
    } else {
      MarkerFromSpec(text, size, k + 1, m);
    }
  }

  /** The marker the program finds is the first position whose last `size`
      reads are pairwise different. */
  lemma MarkerIsFirst(text: string, size: nat, m: nat)
    ensures Marker(text, size) == Some(m) <==>
      IsMarker(text, size, m) && forall j :: size <= j < m ==> !IsMarker(text, size, j)
  {
    MarkerFromSpec(text, size, size, m);
  }

  /** There is no marker exactly when no position has pairwise different
      last reads: then the program never stops. */
  lemma MarkerNone(text: string, size: nat)
    ensures Marker(text, size) == None <==> forall j :: size <= j ==> !IsMarker(text, size, j)
  {
    MarkerFromSpec(text, size, size, 0);
  }

  /** A marker lies at least `size` reads in and at most one read past the
      end of the text. */
  lemma {:induction false} MarkerBounds(text: string, size: nat)
    ensures Marker(text, size).Some? ==> size <= Marker(text, size).value <= |text| + 1
  {
    if Marker(text, size).Some? {
      var m := Marker(text, size).value;
      MarkerIsFirst(text, size, m);
      if m > |text| + 1 {
        if size <= 1 {
          ShortWindowIsMarker(text, size);
          assert false;
        }
        NoMarkerPastEnd(text, size, m);
        assert false;
      }
    }
  }

  /** One more read pushes the oldest entry out of the list and puts the
      new one in front. */
  lemma WindowStep(text: string, size: nat, k: nat)
    requires 1 <= size <= k
    ensures Window(text, size, k + 1) == [Item(text, k)] + Window(text, size, k)[..size - 1]
  {
  }

  /** The first `size` reads, reversed, are the list after `size` reads. */
  lemma WindowStart(text: string, size: nat, taken: seq<string>)
    requires |taken| == size && forall j :: 0 <= j < size ==> taken[j] == Item(text, j)
    ensures Reverse(taken) == Window(text, size, size)
  {
    ReverseIndex(taken);
  }

  /** The smaller of two numbers. */
  function Min(a: int, b: int): int
  {
    if a < b then a else b
  }

  /** `list(reversed([stream.read(1) for _ in range(size)]))`: the first
      `size` reads, newest first. */
  method ReadWindow(stream: Stream, size: nat) returns (window: seq<string>)
    requires stream.pos <= |stream.text|
    modifies stream
    ensures window == Window(stream.text[old(stream.pos)..], size, size)
    ensures stream.pos == old(stream.pos) + Min(size, |stream.text| - old(stream.pos))
  {
    ghost var p0 := stream.pos;
    ghost var rest := stream.text[p0..];
    var taken: seq<string> := [];
    for i := 0 to size
      invariant stream.pos == p0 + Min(i, |rest|)
      invariant |taken| == i && forall j :: 0 <= j < i ==> taken[j] == Item(rest, j)
    {
      var c := stream.Read();
      assert c == Item(rest, i);
      taken := taken + [c];
    }
    window := Reverse(taken);
    WindowStart(rest, size, taken);
  }

  /** `find_marker_subroutine(stream, size)`: the position in the stream
      once the last `size` characters read are pairwise different, counting
      from where the stream stood; the program never stops when that never
      happens, so that is excluded. */
  method FindMarker(stream: Stream, size: nat) returns (r: nat)
    requires stream.pos <= |stream.text|
    requires Marker(stream.text[stream.pos..], size).Some?
    modifies stream
    ensures r == stream.pos
    ensures var rest := stream.text[old(stream.pos)..];
      r == old(stream.pos) + Min(Marker(rest, size).value, |rest|)
  {
    ghost var p0 := stream.pos;
    ghost var rest := stream.text[p0..];
    var window := ReadWindow(stream, size);
    ghost var k := size;
    ghost var m := Marker(rest, size).value;
    MarkerIsFirst(rest, size, m);
    while |window| > |Elems(window)|
      invariant size <= k <= m
      invariant window == Window(rest, size, k)
      invariant stream.pos == p0 + Min(k, |rest|)
      decreases m - k
    {
      DistinctCard(window);
      assert !IsMarker(rest, size, k);
      WindowStep(rest, size, k);
      window := window[..|window| - 1];
      var c := stream.Read();
      assert c == Item(rest, k);
      window := [c] + window;
      k := k + 1;
    }
    DistinctCard(window);
    assert IsMarker(rest, size, k);
    r := stream.Tell();
  }
}
