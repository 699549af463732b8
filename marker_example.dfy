/** The five datastreams of the puzzle statement, with their
    start-of-packet (four different characters) and start-of-message
    (fourteen different characters) positions. */
module DatastreamExample {
  import opened Text
  import opened Datastream

  /** The list after `j` reads repeats the characters `a` and `b` places
      back from the newest. */
  lemma NotMarkerAt(text: string, size: nat, j: nat, a: nat, b: nat)
    requires size <= j <= |text| && a < b < size
    requires text[j - 1 - a] == text[j - 1 - b]
    ensures !IsMarker(text, size, j)
  {
    var w := Window(text, size, j);
    assert w[a] == Item(text, j - 1 - a) && w[b] == Item(text, j - 1 - b);
  }

  /** A position that is no marker passes the search on to the next. */
  lemma Skip(text: string, size: nat, j: nat, a: nat, b: nat)
    requires size <= j <= |text| && a < b < size
    requires text[j - 1 - a] == text[j - 1 - b]
    ensures MarkerFrom(text, size, j) == MarkerFrom(text, size, j + 1)
  {
    NotMarkerAt(text, size, j, a, b);
  }

  /** Positions `j` to `j + |ws| - 1` are no markers, each shown by a
      pair of equal places: the search passes them all by. */
  lemma {:induction false} SkipAll(text: string, size: nat, j: nat, ws: seq<(nat, nat)>)
    requires size <= j && j + |ws| <= |text|
    requires forall n :: 0 <= n < |ws| ==>
      ws[n].0 < ws[n].1 < size && text[j + n - 1 - ws[n].0] == text[j + n - 1 - ws[n].1]
    ensures MarkerFrom(text, size, j) == MarkerFrom(text, size, j + |ws|)
    decreases |ws|
  {
    if ws != [] {
      Skip(text, size, j, ws[0].0, ws[0].1);
      assert forall n :: 0 <= n < |ws| - 1 ==> ws[1..][n] == ws[n + 1];
      SkipAll(text, size, j + 1, ws[1..]);
    }
  }

  /** The search stops at a position whose last `size` characters are
      pairwise different. */
  lemma Found(text: string, size: nat, k: nat)
    requires size <= k <= |text|
    requires forall a, b :: k - size <= a < b < k ==> text[a] != text[b]
    ensures MarkerFrom(text, size, k) == Some(k)
  {
    MarkerAt(text, size, k);
  }

  /** The last `size` characters before position `k` are pairwise
      different. */
  lemma MarkerAt(text: string, size: nat, k: nat)
    requires size <= k <= |text|
    requires forall a, b :: k - size <= a < b < k ==> text[a] != text[b]
    ensures IsMarker(text, size, k)
  {
    var w := Window(text, size, k);
    forall i, j | 0 <= i < j < size
      ensures w[i] != w[j]
    {
      assert w[i] == Item(text, k - 1 - i) == [text[k - 1 - i]];
      assert w[j] == Item(text, k - 1 - j) == [text[k - 1 - j]];
      assert w[i][0] != w[j][0];
    }
  }


  /** The characters of stream 0 that rule out positions 4 to 6 as
      markers of size 4, and the 4 different characters before
      position 7. */
  lemma Facts0_4(text: string)
    requires text == "mjqjpqmgbljsphdztnvjfqwrcgsmlb"
    ensures |text| == 30 && text[3] == text[1] && text[5] == text[2]
    ensures forall a, b :: 3 <= a < b < 7 ==> text[a] != text[b]
  {
  }

  /** The search for a marker of size 4 in any text with those
      characters. */
  lemma Search0_4(text: string)
    requires |text| == 30 && text[3] == text[1] && text[5] == text[2]
    requires forall a, b :: 3 <= a < b < 7 ==> text[a] != text[b]
    ensures Marker(text, 4) == Some(7)
  {
    SkipAll(text, 4, 4, [(0, 2), (1, 3), (0, 3)]);
    Found(text, 4, 7);
  }

  /** `mjqjpqmgbljsphdztnvjfqwrcgsmlb` with marker size 4: the program stops at position 7. */
  lemma Example0_4(text: string)
    requires text == "mjqjpqmgbljsphdztnvjfqwrcgsmlb"
    ensures Marker(text, 4) == Some(7)
  {
    Facts0_4(text);
    Search0_4(text);
  }

  /** The characters of stream 0 that rule out positions 14 to 18 as
      markers of size 14, and the 14 different characters before
      position 19. */
  lemma Facts0_14(text: string)
    requires text == "mjqjpqmgbljsphdztnvjfqwrcgsmlb"
    ensures |text| == 30 && text[12] == text[4]
    ensures forall a, b :: 5 <= a < b < 19 ==> text[a] != text[b]
  {
  }

  /** The search for a marker of size 14 in any text with those
      characters. */
  lemma Search0_14(text: string)
    requires |text| == 30 && text[12] == text[4]
    requires forall a, b :: 5 <= a < b < 19 ==> text[a] != text[b]
    ensures Marker(text, 14) == Some(19)
  {
    SkipAll(text, 14, 14, [(1, 9), (2, 10), (3, 11), (4, 12), (5, 13)]);
    Found(text, 14, 19);
  }

  /** `mjqjpqmgbljsphdztnvjfqwrcgsmlb` with marker size 14: the program stops at position 19. */
  lemma Example0_14(text: string)
    requires text == "mjqjpqmgbljsphdztnvjfqwrcgsmlb"
    ensures Marker(text, 14) == Some(19)
  {
    Facts0_14(text);
    Search0_14(text);
  }

  /** The characters of stream 1 that rule out positions 4 to 4 as
      markers of size 4, and the 4 different characters before
      position 5. */
  lemma Facts1_4(text: string)
    requires text == "bvwbjplbgvbhsrlpgdmjqwftvncz"
    ensures |text| == 28 && text[3] == text[0]
    ensures forall a, b :: 1 <= a < b < 5 ==> text[a] != text[b]
  {
  }

  /** The search for a marker of size 4 in any text with those
      characters. */
  lemma Search1_4(text: string)
    requires |text| == 28 && text[3] == text[0]
    requires forall a, b :: 1 <= a < b < 5 ==> text[a] != text[b]
    ensures Marker(text, 4) == Some(5)
  {
    SkipAll(text, 4, 4, [(0, 3)]);
    Found(text, 4, 5);
  }

  /** `bvwbjplbgvbhsrlpgdmjqwftvncz` with marker size 4: the program stops at position 5. */
  lemma Example1_4(text: string)
    requires text == "bvwbjplbgvbhsrlpgdmjqwftvncz"
    ensures Marker(text, 4) == Some(5)
  {
    Facts1_4(text);
    Search1_4(text);
  }

  /** The characters of stream 1 that rule out positions 14 to 22 as
      markers of size 14, and the 14 different characters before
      position 23. */
  lemma Facts1_14(text: string)
    requires text == "bvwbjplbgvbhsrlpgdmjqwftvncz"
    ensures |text| == 28 && text[10] == text[7] && text[14] == text[6] && text[15] == text[5] &&
      text[16] == text[8]
    ensures forall a, b :: 9 <= a < b < 23 ==> text[a] != text[b]
  {
  }

  /** The search for a marker of size 14 in any text with those
      characters. */
  lemma Search1_14(text: string)
    requires |text| == 28 && text[10] == text[7] && text[14] == text[6] && text[15] == text[5] &&
      text[16] == text[8]
    requires forall a, b :: 9 <= a < b < 23 ==> text[a] != text[b]
    ensures Marker(text, 14) == Some(23)
  {
    SkipAll(text, 14, 14, [(3, 6), (0, 8), (0, 10), (0, 8), (1, 9), (2, 10), (3, 11), (4, 12), (5, 13)]);
    Found(text, 14, 23);
  }

  /** `bvwbjplbgvbhsrlpgdmjqwftvncz` with marker size 14: the program stops at position 23. */
  lemma Example1_14(text: string)
    requires text == "bvwbjplbgvbhsrlpgdmjqwftvncz"
    ensures Marker(text, 14) == Some(23)
  {
    Facts1_14(text);
    Search1_14(text);
  }

  /** The characters of stream 2 that rule out positions 4 to 5 as
      markers of size 4, and the 4 different characters before
      position 6. */
  lemma Facts2_4(text: string)
    requires text == "nppdvjthqldpwncqszvftbrmjlhg"
    ensures |text| == 28 && text[2] == text[1]
    ensures forall a, b :: 2 <= a < b < 6 ==> text[a] != text[b]
  {
  }

  /** The search for a marker of size 4 in any text with those
      characters. */
  lemma Search2_4(text: string)
    requires |text| == 28 && text[2] == text[1]
    requires forall a, b :: 2 <= a < b < 6 ==> text[a] != text[b]
    ensures Marker(text, 4) == Some(6)
  {
    SkipAll(text, 4, 4, [(1, 2), (2, 3)]);
    Found(text, 4, 6);
  }

  /** `nppdvjthqldpwncqszvftbrmjlhg` with marker size 4: the program stops at position 6. */
  lemma Example2_4(text: string)
    requires text == "nppdvjthqldpwncqszvftbrmjlhg"
    ensures Marker(text, 4) == Some(6)
  {
    Facts2_4(text);
    Search2_4(text);
  }

  /** The characters of stream 2 that rule out positions 14 to 22 as
      markers of size 14, and the 14 different characters before
      position 23. */
  lemma Facts2_14(text: string)
    requires text == "nppdvjthqldpwncqszvftbrmjlhg"
    ensures |text| == 28 && text[11] == text[2] && text[13] == text[0] && text[15] == text[8]
    ensures forall a, b :: 9 <= a < b < 23 ==> text[a] != text[b]
  {
  }

  /** The search for a marker of size 14 in any text with those
      characters. */
  lemma Search2_14(text: string)
    requires |text| == 28 && text[11] == text[2] && text[13] == text[0] && text[15] == text[8]
    requires forall a, b :: 9 <= a < b < 23 ==> text[a] != text[b]
    ensures Marker(text, 14) == Some(23)
  {
    SkipAll(text, 14, 14, [(0, 13), (3, 12), (0, 7), (1, 8), (2, 9), (3, 10), (4, 11), (5, 12), (6, 13)]);
    Found(text, 14, 23);
  }

  /** `nppdvjthqldpwncqszvftbrmjlhg` with marker size 14: the program stops at position 23. */
  lemma Example2_14(text: string)
    requires text == "nppdvjthqldpwncqszvftbrmjlhg"
    ensures Marker(text, 14) == Some(23)
  {
    Facts2_14(text);
    Search2_14(text);
  }

  /** The characters of stream 3 that rule out positions 4 to 9 as
      markers of size 4, and the 4 different characters before
      position 10. */
  lemma Facts3_4(text: string)
    requires text == "nznrnfrfntjfmvfwmzdfjlvtqnbhcprsg"
    ensures |text| == 33 && text[2] == text[0] && text[4] == text[2] && text[6] == text[3] &&
      text[7] == text[5]
    ensures forall a, b :: 6 <= a < b < 10 ==> text[a] != text[b]
  {
  }

  /** The search for a marker of size 4 in any text with those
      characters. */
  lemma Search3_4(text: string)
    requires |text| == 33 && text[2] == text[0] && text[4] == text[2] && text[6] == text[3] &&
      text[7] == text[5]
    requires forall a, b :: 6 <= a < b < 10 ==> text[a] != text[b]
    ensures Marker(text, 4) == Some(10)
  {
    SkipAll(text, 4, 4, [(1, 3), (0, 2), (1, 3), (0, 3), (0, 2), (1, 3)]);
    Found(text, 4, 10);
  }

  /** `nznrnfrfntjfmvfwmzdfjlvtqnbhcprsg` with marker size 4: the program stops at position 10. */
  lemma Example3_4(text: string)
    requires text == "nznrnfrfntjfmvfwmzdfjlvtqnbhcprsg"
    ensures Marker(text, 4) == Some(10)
  {
    Facts3_4(text);
    Search3_4(text);
  }

  /** The characters of stream 3 that rule out positions 14 to 28 as
      markers of size 14, and the 14 different characters before
      position 29. */
  lemma Facts3_14(text: string)
    requires text == "nznrnfrfntjfmvfwmzdfjlvtqnbhcprsg"
    ensures |text| == 33 && text[11] == text[7] && text[14] == text[11] && text[16] == text[12] &&
      text[19] == text[14] && text[20] == text[10] && text[22] == text[13]
    ensures forall a, b :: 15 <= a < b < 29 ==> text[a] != text[b]
  {
  }

  /** The search for a marker of size 14 in any text with those
      characters. */
  lemma Search3_14(text: string)
    requires |text| == 33 && text[11] == text[7] && text[14] == text[11] && text[16] == text[12] &&
      text[19] == text[14] && text[20] == text[10] && text[22] == text[13]
    requires forall a, b :: 15 <= a < b < 29 ==> text[a] != text[b]
    ensures Marker(text, 14) == Some(29)
  {
    SkipAll(text, 14, 14, [(2, 6), (0, 3), (1, 4), (0, 4), (1, 5), (2, 6), (0, 5), (0, 10), (1, 11), (0, 9), (1, 10), (2, 11), (3, 12), (4, 13), (8, 13)]);
    Found(text, 14, 29);
  }

  /** `nznrnfrfntjfmvfwmzdfjlvtqnbhcprsg` with marker size 14: the program stops at position 29. */
  lemma Example3_14(text: string)
    requires text == "nznrnfrfntjfmvfwmzdfjlvtqnbhcprsg"
    ensures Marker(text, 14) == Some(29)
  {
    Facts3_14(text);
    Search3_14(text);
  }

  /** The characters of stream 4 that rule out positions 4 to 10 as
      markers of size 4, and the 4 different characters before
      position 11. */
  lemma Facts4_4(text: string)
    requires text == "zcfzfwzzqfrljwzlrfnpqdbhtmscgvjw"
    ensures |text| == 32 && text[3] == text[0] && text[4] == text[2] && text[6] == text[3] &&
      text[7] == text[6]
    ensures forall a, b :: 7 <= a < b < 11 ==> text[a] != text[b]
  {
  }

  /** The search for a marker of size 4 in any text with those
      characters. */
  lemma Search4_4(text: string)
    requires |text| == 32 && text[3] == text[0] && text[4] == text[2] && text[6] == text[3] &&
      text[7] == text[6]
    requires forall a, b :: 7 <= a < b < 11 ==> text[a] != text[b]
    ensures Marker(text, 4) == Some(11)
  {
    SkipAll(text, 4, 4, [(0, 3), (0, 2), (1, 3), (0, 3), (0, 1), (1, 2), (2, 3)]);
    Found(text, 4, 11);
  }

  /** `zcfzfwzzqfrljwzlrfnpqdbhtmscgvjw` with marker size 4: the program stops at position 11. */
  lemma Example4_4(text: string)
    requires text == "zcfzfwzzqfrljwzlrfnpqdbhtmscgvjw"
    ensures Marker(text, 4) == Some(11)
  {
    Facts4_4(text);
    Search4_4(text);
  }

  /** The characters of stream 4 that rule out positions 14 to 25 as
      markers of size 14, and the 14 different characters before
      position 26. */
  lemma Facts4_14(text: string)
    requires text == "zcfzfwzzqfrljwzlrfnpqdbhtmscgvjw"
    ensures |text| == 32 && text[13] == text[5] && text[14] == text[7] && text[15] == text[11] &&
      text[16] == text[10] && text[17] == text[9] && text[20] == text[8]
    ensures forall a, b :: 12 <= a < b < 26 ==> text[a] != text[b]
  {
  }

  /** The search for a marker of size 14 in any text with those
      characters. */
  lemma Search4_14(text: string)
    requires |text| == 32 && text[13] == text[5] && text[14] == text[7] && text[15] == text[11] &&
      text[16] == text[10] && text[17] == text[9] && text[20] == text[8]
    requires forall a, b :: 12 <= a < b < 26 ==> text[a] != text[b]
    ensures Marker(text, 14) == Some(26)
  {
    SkipAll(text, 14, 14, [(0, 8), (0, 7), (0, 4), (0, 6), (0, 8), (1, 9), (2, 10), (0, 12), (1, 13), (5, 13), (7, 13), (9, 13)]);
    Found(text, 14, 26);
  }

  /** `zcfzfwzzqfrljwzlrfnpqdbhtmscgvjw` with marker size 14: the program stops at position 26. */
  lemma Example4_14(text: string)
    requires text == "zcfzfwzzqfrljwzlrfnpqdbhtmscgvjw"
    ensures Marker(text, 14) == Some(26)
  {
    Facts4_14(text);
    Search4_14(text);
  }

  /** `find_marker_subroutine(StringIO(text), size)` on a text whose
      marker lies within it. */
  method RunOnText(text: string, size: nat, k: nat) returns (r: nat)
    requires Marker(text, size) == Some(k) && k <= |text|
    ensures r == k
  {
    var stream := new Stream(text);
    assert stream.text[stream.pos..] == text;
    r := FindMarker(stream, size);
  }

  /** `test_part_1`: each example stream, read from its start, stops at
      the expected position. */
  method TestPart1() returns (r: seq<nat>)
    ensures r == [7, 5, 6, 10, 11]
  {
    var t0 := "mjqjpqmgbljsphdztnvjfqwrcgsmlb";
    Example0_4(t0);
    var k0 := RunOnText(t0, 4, 7);
    var t1 := "bvwbjplbgvbhsrlpgdmjqwftvncz";
    Example1_4(t1);
    var k1 := RunOnText(t1, 4, 5);
    var t2 := "nppdvjthqldpwncqszvftbrmjlhg";
    Example2_4(t2);
    var k2 := RunOnText(t2, 4, 6);
    var t3 := "nznrnfrfntjfmvfwmzdfjlvtqnbhcprsg";
    Example3_4(t3);
    var k3 := RunOnText(t3, 4, 10);
    var t4 := "zcfzfwzzqfrljwzlrfnpqdbhtmscgvjw";
    Example4_4(t4);
    var k4 := RunOnText(t4, 4, 11);
    r := [k0, k1, k2, k3, k4];
  }

  /** `test_part_2`: each example stream, read from its start, stops at
      the expected position. */
  method TestPart2() returns (r: seq<nat>)
    ensures r == [19, 23, 23, 29, 26]
  {
    var t0 := "mjqjpqmgbljsphdztnvjfqwrcgsmlb";
    Example0_14(t0);
    var k0 := RunOnText(t0, 14, 19);
    var t1 := "bvwbjplbgvbhsrlpgdmjqwftvncz";
    Example1_14(t1);
    var k1 := RunOnText(t1, 14, 23);
    var t2 := "nppdvjthqldpwncqszvftbrmjlhg";
    Example2_14(t2);
    var k2 := RunOnText(t2, 14, 23);
    var t3 := "nznrnfrfntjfmvfwmzdfjlvtqnbhcprsg";
    Example3_14(t3);
    var k3 := RunOnText(t3, 14, 29);
    var t4 := "zcfzfwzzqfrljwzlrfnpqdbhtmscgvjw";
    Example4_14(t4);
    var k4 := RunOnText(t4, 14, 26);
    r := [k0, k1, k2, k3, k4];
  }
}
