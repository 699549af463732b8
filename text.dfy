/** Shared vocabulary: an optional value, sums, and the few pieces of Python's
    string handling that the puzzle solvers rely on (`str.split()`,
    `str.split(sep)`, `str.strip()` and `int()` on a string of digits). */
module Text {

  datatype Option<T> = None | Some(value: T)

  /** Sum of a sequence of integers (Python's `sum`). */
  function Sum(s: seq<int>): int
  {
    if s == [] then 0 else Sum(s[..|s| - 1]) + s[|s| - 1]
  }

  lemma {:induction false} SumAppend(s: seq<int>, t: seq<int>)
    ensures Sum(s + t) == Sum(s) + Sum(t)
    decreases |t|
  {
    if t == [] {
      assert s + t == s;
    } else {
      assert (s + t)[..|s + t| - 1] == s + t[..|t| - 1];
      SumAppend(s, t[..|t| - 1]);
    }
  }

  lemma SumSingle(x: int)
    ensures Sum([x]) == x
  {
    assert [x][..0] == [];
  }

  /** Every element within [lo, hi] bounds the sum by |s| * lo and |s| * hi. */
  lemma {:induction false} SumBounds(s: seq<int>, lo: int, hi: int)
    requires forall i :: 0 <= i < |s| ==> lo <= s[i] <= hi
    ensures |s| * lo <= Sum(s) <= |s| * hi
  {
    if s != [] {
      SumBounds(s[..|s| - 1], lo, hi);
    }
  }

  /** The running total of a loop over lines that adds `points(line)` for
      each line and stops with an error (None) at the first line that has no
      points. */
  function Total(lines: seq<string>, points: string -> Option<int>): Option<int>
  {
    if lines == [] then Some(0)
    else
      match (Total(lines[..|lines| - 1], points), points(lines[|lines| - 1]))
      case (Some(t), Some(p)) => Some(t + p)
      case _ => None
  }

  /** The total exists exactly when every line has points, and lies between
      `lo` and `hi` points per line when each line's points do. */
  lemma {:induction false} TotalBounds(lines: seq<string>, points: string -> Option<int>, lo: int, hi: int)
    requires forall l :: points(l).Some? ==> lo <= points(l).value <= hi
    ensures Total(lines, points).Some? <==> forall k :: 0 <= k < |lines| ==> points(lines[k]).Some?
    ensures Total(lines, points).Some? ==>
      |lines| * lo <= Total(lines, points).value <= |lines| * hi
  {
    if lines != [] {
      var init := lines[..|lines| - 1];
      TotalBounds(init, points, lo, hi);
      assert forall k :: 0 <= k < |init| ==> init[k] == lines[k];
    }
  }

  /** One more line adds its points to the total. */
  lemma TotalStep(lines: seq<string>, points: string -> Option<int>, i: nat, t: int)
    requires i < |lines| && Total(lines[..i], points) == Some(t)
    ensures Total(lines[..i + 1], points) ==
      if points(lines[i]).Some? then Some(t + points(lines[i]).value) else None
  {
    assert lines[..i + 1][..i] == lines[..i];
  }

  /** A line without points makes every longer run of lines fail. */
  lemma {:induction false} TotalFailsAfter(lines: seq<string>, points: string -> Option<int>, i: nat)
    requires i <= |lines| && Total(lines[..i], points).None?
    ensures Total(lines, points).None?
    decreases |lines| - i
  {
    if i < |lines| {
      assert lines[..i + 1][..i] == lines[..i];
      TotalFailsAfter(lines, points, i + 1);
    } else {
      assert lines[..i] == lines;
    }
  }

  /** The ASCII characters Python's `str.split()` and `str.strip()` treat
      as whitespace: tab, line feed, vertical tab, form feed, carriage
      return, the four separators 0x1C to 0x1F, and the space. */
  predicate IsSpace(c: char)
  {
    ('\U{09}' <= c <= '\U{0D}') || ('\U{1C}' <= c <= '\U{1F}') || c == ' '
  }

  /** End of the run of non-whitespace characters that starts at `i`. */
  function WordEnd(s: string, i: nat): (e: nat)
    requires i <= |s|
    ensures i <= e <= |s|
    ensures forall k :: i <= k < e ==> !IsSpace(s[k])
    ensures e < |s| ==> IsSpace(s[e])
    decreases |s| - i
  {
    if i < |s| && !IsSpace(s[i]) then WordEnd(s, i + 1) else i
  }

  /** The words of `s[i..]`. */
  function WordsFrom(s: string, i: nat): (r: seq<string>)
    requires i <= |s|
    ensures forall k :: 0 <= k < |r| ==> IsWord(r[k])
    decreases |s| - i
  {
    if i == |s| then []
    else if IsSpace(s[i]) then WordsFrom(s, i + 1)
    else
      var e := WordEnd(s, i);
      [s[i..e]] + WordsFrom(s, e)
  }

  /** A non-empty run of non-whitespace characters. */
  predicate IsWord(w: string)
  {
    w != [] && forall c :: c in w ==> !IsSpace(c)
  }

  /** Python's `str.split()` with no argument: the maximal runs of
      non-whitespace characters, in order. */
  function Words(s: string): seq<string>
  {
    WordsFrom(s, 0)
  }

  lemma {:induction false} WordEndShift(s: string, i: nat, k: nat)
    requires i + k <= |s|
    ensures WordEnd(s, i + k) == i + WordEnd(s[i..], k)
    decreases |s| - (i + k)
  {
    if i + k < |s| && !IsSpace(s[i + k]) {
      WordEndShift(s, i, k + 1);
    }
  }

  /** Splitting a suffix of `s` is splitting `s` from where the suffix starts. */
  lemma {:induction false} WordsFromShift(s: string, i: nat, k: nat)
    requires i + k <= |s|
    ensures WordsFrom(s, i + k) == WordsFrom(s[i..], k)
    decreases |s| - (i + k)
  {
    var t := s[i..];
    if i + k < |s| {
      if IsSpace(s[i + k]) {
        WordsFromShift(s, i, k + 1);
      } else {
        WordEndShift(s, i, k);
        var e := WordEnd(s, i + k);
        WordsFromShift(s, i, e - i);
        assert s[i + k..e] == t[k..e - i];
      }
    }
  }

  /** Leading whitespace does not make a word. */
  lemma WordsLeadingSpace(c: char, rest: string)
    requires IsSpace(c)
    ensures Words([c] + rest) == Words(rest)
  {
    WordsFromShift([c] + rest, 1, 0);
    assert ([c] + rest)[1..] == rest;
  }

  /** A word followed by whitespace, or by nothing, is the first word. */
  lemma WordsLeadingWord(w: string, rest: string)
    requires IsWord(w)
    requires rest != [] ==> IsSpace(rest[0])
    ensures Words(w + rest) == [w] + Words(rest)
  {
    var s := w + rest;
    assert forall k :: 0 <= k < |w| ==> s[k] == w[k] && w[k] in w;
    WordEndAt(s, 0, |w|);
    assert s[0..|w|] == w;
    WordsFromShift(s, |w|, 0);
    assert s[|w|..] == rest;
  }

  lemma {:induction false} WordEndAt(s: string, i: nat, e: nat)
    requires i <= e <= |s|
    requires forall k :: i <= k < e ==> !IsSpace(s[k])
    requires e < |s| ==> IsSpace(s[e])
    ensures WordEnd(s, i) == e
    decreases e - i
  {
    if i < e {
      WordEndAt(s, i + 1, e);
    }
  }

  /** A line of two words separated by a single space splits into those words. */
  lemma WordsOfTwo(x: string, y: string)
    requires IsWord(x)
    requires IsWord(y)
    ensures Words(x + " " + y) == [x, y]
  {
    assert x + " " + y == x + ([' '] + y);
    WordsLeadingWord(x, [' '] + y);
    WordsLeadingSpace(' ', y);
    assert y == y + [];
    WordsLeadingWord(y, []);
  }

  /** A line of three words separated by single spaces splits into those words. */
  lemma WordsOfThree(x: string, y: string, z: string)
    requires IsWord(x)
    requires IsWord(y)
    requires IsWord(z)
    ensures Words(x + " " + y + " " + z) == [x, y, z]
  {
    assert x + " " + y + " " + z == x + ([' '] + (y + " " + z));
    WordsLeadingWord(x, [' '] + (y + " " + z));
    WordsLeadingSpace(' ', y + " " + z);
    WordsOfTwo(y, z);
  }

  /** First occurrence of `sep` at or after `i`, or `|s|`. */
  function NextSep<T(==)>(s: seq<T>, sep: T, i: nat): (e: nat)
    requires i <= |s|
    ensures i <= e <= |s|
    ensures forall k :: i <= k < e ==> s[k] != sep
    ensures e < |s| ==> s[e] == sep
    decreases |s| - i
  {
    if i < |s| && s[i] != sep then NextSep(s, sep, i + 1) else i
  }

  /** The first separator at or after `i` is the one every earlier
      element differs from. */
  lemma NextSepUnique<T>(s: seq<T>, sep: T, i: nat, e: nat)
    requires i <= e <= |s|
    requires forall k :: i <= k < e ==> s[k] != sep
    requires e < |s| ==> s[e] == sep
    ensures NextSep(s, sep, i) == e
  {
  }

  /** The pieces of `s[i..]` between occurrences of `sep`. */
  function SplitFrom<T(==)>(s: seq<T>, sep: T, i: nat): (r: seq<seq<T>>)
    requires i <= |s|
    ensures |r| >= 1
    ensures forall k :: 0 <= k < |r| ==> sep !in r[k]
    decreases |s| - i
  {
    var e := NextSep(s, sep, i);
    if e == |s| then [s[i..]] else [s[i..e]] + SplitFrom(s, sep, e + 1)
  }

  /** Python's `str.split(sep)`: the pieces between occurrences of `sep`,
      empty pieces included; there is always one more piece than separators.
      On a sequence of lines with the empty line as separator, the runs of
      lines between blank lines. */
  function SplitOn<T(==)>(s: seq<T>, sep: T): seq<seq<T>>
  {
    SplitFrom(s, sep, 0)
  }

  /** Pieces glued back with the separator between them. */
  function Join<T>(parts: seq<seq<T>>, sep: T): seq<T>
    requires |parts| >= 1
  {
    if |parts| == 1 then parts[0] else parts[0] + [sep] + Join(parts[1..], sep)
  }

  /** Splitting loses nothing: joining the pieces gives the sequence back. */
  lemma {:induction false} JoinSplitFrom<T>(s: seq<T>, sep: T, i: nat)
    requires i <= |s|
    ensures Join(SplitFrom(s, sep, i), sep) == s[i..]
    decreases |s| - i
  {
    var e := NextSep(s, sep, i);
    if e < |s| {
      var rest := SplitFrom(s, sep, e + 1);
      JoinSplitFrom(s, sep, e + 1);
      assert SplitFrom(s, sep, i) == [s[i..e]] + rest;
      JoinCons(s[i..e], rest, sep);
      SliceAround(s, i, e);
    } else {
      assert SplitFrom(s, sep, i) == [s[i..]];
    }
  }

  lemma SliceAround<T>(s: seq<T>, i: nat, e: nat)
    requires i <= e < |s|
    ensures s[i..] == s[i..e] + [s[e]] + s[e + 1..]
  {
  }

  lemma JoinCons<T>(x: seq<T>, rest: seq<seq<T>>, sep: T)
    requires |rest| >= 1
    ensures Join([x] + rest, sep) == x + [sep] + Join(rest, sep)
  {
    assert ([x] + rest)[1..] == rest;
  }

  lemma JoinSplitOn<T>(s: seq<T>, sep: T)
    ensures Join(SplitOn(s, sep), sep) == s
  {
    JoinSplitFrom(s, sep, 0);
  }

  /** With one separator between two pieces free of it, splitting gives
      the two pieces back. */
  lemma SplitOnTwo<T>(x: seq<T>, y: seq<T>, sep: T)
    requires sep !in x && sep !in y
    ensures SplitOn(x + [sep] + y, sep) == [x, y]
  {
    var s := x + [sep] + y;
    NextSepUnique(s, sep, 0, |x|);
    NextSepUnique(s, sep, |x| + 1, |s|);
    assert s[..|x|] == x && s[|x| + 1..] == y;
    assert SplitFrom(s, sep, |x| + 1) == [y];
    assert SplitFrom(s, sep, 0) == [x] + [y];
  }

  /** A numeral holds no character other than digits. */
  lemma NumeralHasNo(s: string, c: char)
    requires IsNumeral(s) && !IsDigit(c)
    ensures c !in s
  {
    DigitsFromAll(s, 0);
  }

  /** Index of the first non-whitespace character at or after `i`. */
  function SkipSpace(s: string, i: nat): (e: nat)
    requires i <= |s|
    ensures i <= e <= |s|
    ensures forall k :: i <= k < e ==> IsSpace(s[k])
    ensures e < |s| ==> !IsSpace(s[e])
    decreases |s| - i
  {
    if i < |s| && IsSpace(s[i]) then SkipSpace(s, i + 1) else i
  }

  /** One past the last non-whitespace character before `j`, not below `i`. */
  function TrimEnd(s: string, i: nat, j: nat): (e: nat)
    requires i <= j <= |s|
    ensures i <= e <= j
    ensures forall k :: e <= k < j ==> IsSpace(s[k])
    ensures e > i ==> !IsSpace(s[e - 1])
  {
    if j > i && IsSpace(s[j - 1]) then TrimEnd(s, i, j - 1) else j
  }

  /** Python's `str.strip()`: whitespace removed from both ends, and
      nothing else. */
  function Strip(s: string): (r: string)
    ensures r != [] ==> !IsSpace(r[0]) && !IsSpace(r[|r| - 1])
  {
    var i := SkipSpace(s, 0);
    var j := TrimEnd(s, i, |s|);
    assert forall k :: j <= k < |s| ==> IsSpace(s[k]);
    s[i..j]
  }

  /** `str.strip()` removes whitespace from both ends and nothing else: the
      result is a slice of `s` with only whitespace before and after it. */
  lemma StripSpec(s: string)
    ensures exists i, j ::
      && 0 <= i <= j <= |s| && Strip(s) == s[i..j]
      && (forall k :: 0 <= k < i ==> IsSpace(s[k]))
      && (forall k :: j <= k < |s| ==> IsSpace(s[k]))
  {
    var i := SkipSpace(s, 0);
    var j := TrimEnd(s, i, |s|);
    assert Strip(s) == s[i..j];
  }

  /** ASCII letters, as the regular expressions `[a-z]` and `[A-Z]`
      match them. */
  predicate IsLower(c: char) { 'a' <= c <= 'z' }

  predicate IsUpper(c: char) { 'A' <= c <= 'Z' }

  predicate IsLetter(c: char) { IsLower(c) || IsUpper(c) }

  predicate IsDigit(c: char)
  {
    '0' <= c <= '9'
  }

  function DigitValue(c: char): (d: nat)
    requires IsDigit(c)
    ensures d <= 9
  {
    c as int - '0' as int
  }

  /** The characters of `s` from `i` on are digits. */
  predicate DigitsFrom(s: string, i: nat)
    requires i <= |s|
    decreases |s| - i
  {
    i == |s| || (IsDigit(s[i]) && DigitsFrom(s, i + 1))
  }

  /** A well-formed decimal numeral: what `int()` accepts here. */
  predicate IsNumeral(s: string)
  {
    s != [] && DigitsFrom(s, 0)
  }

  /** Reads the digits of `s` from `i` on after the value `acc` read so far. */
  function ValueFrom(s: string, i: nat, acc: nat): nat
    requires i <= |s| && DigitsFrom(s, i)
    decreases |s| - i
  {
    if i == |s| then acc else ValueFrom(s, i + 1, acc * 10 + DigitValue(s[i]))
  }

  /** The value `int()` gives a decimal numeral. */
  function NumeralValue(s: string): nat
    requires IsNumeral(s)
  {
    ValueFrom(s, 0, 0)
  }

  /** `int(s)` on a string: the value of a numeral, nothing otherwise. */
  function ParseInt(s: string): Option<nat>
  {
    if IsNumeral(s) then Some(NumeralValue(s)) else None
  }

  /** Python's `int(s)`: a decimal numeral once surrounding whitespace is
      stripped, nothing otherwise. */
  function Int(s: string): Option<nat>
  {
    ParseInt(Strip(s))
  }

  /** A numeral has no surrounding whitespace, so `int()` reads it as is. */
  lemma IntOfNumeral(s: string)
    requires IsNumeral(s)
    ensures Strip(s) == s && Int(s) == ParseInt(s)
  {
    DigitsFromAll(s, 0);
    assert SkipSpace(s, 0) == 0;
    assert TrimEnd(s, 0, |s|) == |s|;
  }

  /** The characters of `s` from `i` on are digits, pointwise. */
  lemma {:induction false} DigitsFromAll(s: string, i: nat)
    requires i <= |s|
    ensures DigitsFrom(s, i) <==> forall k :: i <= k < |s| ==> IsDigit(s[k])
    decreases |s| - i
  {
    if i < |s| {
      DigitsFromAll(s, i + 1);
    }
  }

  /** Reading one more digit multiplies what was read by ten and adds it. */
  lemma {:induction false} ValueFromSnoc(s: string, c: char, i: nat, acc: nat)
    requires i <= |s| && DigitsFrom(s, i) && IsDigit(c)
    ensures DigitsFrom(s + [c], i)
    ensures ValueFrom(s + [c], i, acc) == ValueFrom(s, i, acc) * 10 + DigitValue(c)
    decreases |s| - i
  {
    var t := s + [c];
    DigitsFromAll(s, i);
    DigitsFromAll(t, i);
    if i == |s| {
      assert t[i] == c;
      assert ValueFrom(t, i, acc) == ValueFrom(t, i + 1, acc * 10 + DigitValue(c));
    } else {
      assert t[i] == s[i];
      ValueFromSnoc(s, c, i + 1, acc * 10 + DigitValue(s[i]));
    }
  }

  function DigitChar(d: nat): (c: char)
    requires d <= 9
    ensures IsDigit(c) && DigitValue(c) == d
  {
    ('0' as int + d) as char
  }

  /** The decimal numeral of `n`, without leading zeros (Python's `str(n)`). */
  function Decimal(n: nat): (s: string)
    ensures IsNumeral(s)
    ensures s[0] == '0' ==> n == 0
    decreases n
  {
    if n < 10 then [DigitChar(n)]
    else
      var p := Decimal(n / 10);
      var s := p + [DigitChar(n % 10)];
      ValueFromSnoc(p, DigitChar(n % 10), 0, 0);
      s
  }

  /** `int(str(n)) == n`. */
  lemma {:induction false} DecimalRoundTrip(n: nat)
    ensures ParseInt(Decimal(n)) == Some(n)
    decreases n
  {
    if n < 10 {
      assert ValueFrom(Decimal(n), 1, DigitValue(DigitChar(n))) == n;
    } else {
      DecimalRoundTrip(n / 10);
      ValueFromSnoc(Decimal(n / 10), DigitChar(n % 10), 0, 0);
    }
  }

  /** `int(str(n)) == n`, whitespace stripping included. */
  lemma IntOfDecimal(n: nat)
    ensures Int(Decimal(n)) == Some(n)
  {
    DecimalRoundTrip(n);
    IntOfNumeral(Decimal(n));
  }

  /** A numeral is one word: it holds no whitespace. */
  lemma NumeralIsWord(s: string)
    requires IsNumeral(s)
    ensures IsWord(s)
  {
    DigitsFromAll(s, 0);
  }

  /** End of the run of digits that starts at `i`. */
  function DigitEnd(s: string, i: nat): (e: nat)
    requires i <= |s|
    ensures i <= e <= |s|
    ensures forall k :: i <= k < e ==> IsDigit(s[k])
    ensures e < |s| ==> !IsDigit(s[e])
    decreases |s| - i
  {
    if i < |s| && IsDigit(s[i]) then DigitEnd(s, i + 1) else i
  }

  lemma {:induction false} DigitEndAt(s: string, i: nat, e: nat)
    requires i <= e <= |s|
    requires forall k :: i <= k < e ==> IsDigit(s[k])
    requires e < |s| ==> !IsDigit(s[e])
    ensures DigitEnd(s, i) == e
    decreases e - i
  {
    if i < e {
      DigitEndAt(s, i + 1, e);
    }
  }

  /** The values of the maximal runs of digits of `s[i..]`, in order. */
  function NumbersFrom(s: string, i: nat): seq<nat>
    requires i <= |s|
    decreases |s| - i
  {
    if i == |s| then []
    else if !IsDigit(s[i]) then NumbersFrom(s, i + 1)
    else
      var e := DigitEnd(s, i);
      DigitsFromAll(s[i..e], 0);
      [NumeralValue(s[i..e])] + NumbersFrom(s, e)
  }

  /** Python's `[int(d) for d in re.findall(r"\d+", s)]`: the numbers
      written in `s`, in order. */
  function Numbers(s: string): seq<nat>
  {
    NumbersFrom(s, 0)
  }

  /** Characters other than digits between `i` and `j` are skipped. */
  lemma {:induction false} NumbersSkip(s: string, i: nat, j: nat)
    requires i <= j <= |s|
    requires forall k :: i <= k < j ==> !IsDigit(s[k])
    ensures NumbersFrom(s, i) == NumbersFrom(s, j)
    decreases j - i
  {
    if i < j {
      NumbersSkip(s, i + 1, j);
    }
  }

  /** A numeral from `i` to `e` not followed by a digit is the next number. */
  lemma NumbersAt(s: string, i: nat, e: nat)
    requires i < e <= |s| && IsNumeral(s[i..e])
    requires e < |s| ==> !IsDigit(s[e])
    ensures NumbersFrom(s, i) == [NumeralValue(s[i..e])] + NumbersFrom(s, e)
  {
    DigitsFromAll(s[i..e], 0);
    assert forall k :: i <= k < e ==> s[k] == s[i..e][k - i];
    DigitEndAt(s, i, e);
  }

  /** The numeral of `n` reads back as `n`. */
  lemma NumeralOfDecimal(n: nat)
    ensures NumeralValue(Decimal(n)) == n
  {
    DecimalRoundTrip(n);
  }

  lemma {:induction false} DigitEndShift(s: string, i: nat, k: nat)
    requires i + k <= |s|
    ensures DigitEnd(s, i + k) == i + DigitEnd(s[i..], k)
    decreases |s| - (i + k)
  {
    if i + k < |s| && IsDigit(s[i + k]) {
      DigitEndShift(s, i, k + 1);
    }
  }

  /** Reading a suffix of `s` is reading `s` from where the suffix starts. */
  lemma {:induction false} NumbersFromShift(s: string, i: nat, k: nat)
    requires i + k <= |s|
    ensures NumbersFrom(s, i + k) == NumbersFrom(s[i..], k)
    decreases |s| - (i + k)
  {
    var t := s[i..];
    if i + k < |s| {
      if !IsDigit(s[i + k]) {
        NumbersFromShift(s, i, k + 1);
      } else {
        DigitEndShift(s, i, k);
        var e := DigitEnd(s, i + k);
        NumbersFromShift(s, i, e - i);
        assert s[i + k..e] == t[k..e - i];
      }
    }
  }

  /** Text without digits in front of `rest` adds no number. */
  lemma NumbersAfter(p: string, rest: string)
    requires forall k :: 0 <= k < |p| ==> !IsDigit(p[k])
    ensures Numbers(p + rest) == Numbers(rest)
  {
    var s := p + rest;
    NumbersSkip(s, 0, |p|);
    NumbersFromShift(s, |p|, 0);
    assert s[|p|..] == rest;
  }

  /** A numeral in front of `rest` not starting with a digit is the first
      number. */
  lemma NumbersOf(x: string, rest: string)
    requires IsNumeral(x)
    requires rest != [] ==> !IsDigit(rest[0])
    ensures Numbers(x + rest) == [NumeralValue(x)] + Numbers(rest)
  {
    var s := x + rest;
    assert s[0..|x|] == x;
    NumbersAt(s, 0, |x|);
    NumbersFromShift(s, |x|, 0);
    assert s[|x|..] == rest;
  }

  /** `set(xs)`: the elements of a list. */
  function Elems<T>(s: seq<T>): set<T>
  {
    set x | x in s
  }

  /** No element of the list occurs twice. */
  predicate Distinct<T(==)>(s: seq<T>)
  {
    forall i, j :: 0 <= i < j < |s| ==> s[i] != s[j]
  }

  /** A list has at least as many elements as its set, and exactly as
      many when no element occurs twice. */
  lemma {:induction false} DistinctCard<T>(s: seq<T>)
    ensures |Elems(s)| <= |s|
    ensures |Elems(s)| == |s| <==> Distinct(s)
  {
    if s != [] {
      var init, last := s[..|s| - 1], s[|s| - 1];
      DistinctCard(init);
      assert s == init + [last];
      assert Elems(s) == Elems(init) + {last};
      if last in init {
        var k :| 0 <= k < |init| && init[k] == last;
        assert s[k] == s[|s| - 1];
        assert Elems(s) == Elems(init);
      } else {
        assert Distinct(s) <==> Distinct(init) by {
          if Distinct(init) {
            forall i, j | 0 <= i < j < |s|
              ensures s[i] != s[j]
            {
              if j < |s| - 1 {
                assert s[i] == init[i] && s[j] == init[j];
              } else {
                assert s[i] == init[i];
              }
            }
          }
          if Distinct(s) {
            forall i, j | 0 <= i < j < |init|
              ensures init[i] != init[j]
            {
              assert s[i] == init[i] && s[j] == init[j];
            }
          }
        }
      }
    }
  }

  /** A subset is no larger than its superset, and as large only when the
      two are equal. */
  lemma SubsetCard<T>(x: set<T>, y: set<T>)
    requires x <= y
    ensures |x| <= |y|
    ensures |x| == |y| ==> x == y
  {
    assert y == x + (y - x);
    assert x * (y - x) == {};
    if |x| == |y| {
      assert |y - x| == 0;
    }
  }

  /** A list in reverse order (Python's `reversed`). */
  function Reverse<T>(s: seq<T>): (r: seq<T>)
    ensures |r| == |s|
  {
    if s == [] then [] else [s[|s| - 1]] + Reverse(s[..|s| - 1])
  }

  /** The `i`-th element of the reversed list is the `i`-th from the end. */
  lemma {:induction false} ReverseIndex<T>(s: seq<T>)
    ensures forall i :: 0 <= i < |s| ==> Reverse(s)[i] == s[|s| - 1 - i]
  {
    if s != [] {
      ReverseIndex(s[..|s| - 1]);
    }
  }

  /** Reversing twice gives the list back. */
  lemma {:induction false} ReverseReverse<T>(s: seq<T>)
    ensures Reverse(Reverse(s)) == s
  {
    if s != [] {
      var r := Reverse(s[..|s| - 1]);
      ReverseReverse(s[..|s| - 1]);
      ReverseAppend([s[|s| - 1]], r);
      assert Reverse([s[|s| - 1]]) == [s[|s| - 1]];
    }
  }

  lemma {:induction false} ReverseAppend<T>(a: seq<T>, b: seq<T>)
    ensures Reverse(a + b) == Reverse(b) + Reverse(a)
    decreases |b|
  {
    if b == [] {
      assert a + b == a;
    } else {
      assert (a + b)[..|a + b| - 1] == a + b[..|b| - 1];
      ReverseAppend(a, b[..|b| - 1]);
    }
  }
}
