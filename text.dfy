/** Byte-string primitives of Python 2 used by the brain: whitespace
    splitting, splitting on a separator, joining with a single space,
    character classes, substring search and ASCII lower-casing.

    A Python 2 `str` is a byte string, so a `string` here stands for a
    sequence of bytes: every `char` is one byte of the UTF-8 text. */
module Text {

  /** `str.isspace()` for one byte in the C locale: space, \t, \n, \v, \f, \r. */
  predicate IsSpace(c: char) {
    c == ' ' || ('\t' <= c <= '\r')
  }

  /** `str.isalpha()` for one byte in the C locale: ASCII letters only. */
  predicate IsAlpha(c: char) {
    ('a' <= c <= 'z') || ('A' <= c <= 'Z')
  }

  /** `str.isdigit()` for one byte. */
  predicate IsDigit(c: char) {
    '0' <= c <= '9'
  }

  /** Membership in the byte string of vowels at pyborg.py:263, tested one
      byte at a time. The accented vowels of that literal are stored encoded
      twice over: each one is the four bytes C3 83 C2 xx, where xx is the
      second UTF-8 byte of the vowel. So besides a e i o u y the string holds
      the bytes 0xC3, 0x83 and 0xC2 and each of those second bytes. */
  predicate IsVowel(c: char) {
    c in {'a', 'e', 'i', 'o', 'u', 'y'}
    || (c as int) in {0xC3, 0x83, 0xC2, 0xA0, 0xA2, 0xA9, 0xA8, 0xAA, 0xAE, 0xAF, 0xB6, 0xB4, 0xBC, 0xBB}
  }

  /** Number of vowel bytes in `w`. */
  function CountVowels(w: string): nat {
    if w == [] then 0 else CountVowels(w[..|w| - 1]) + (if IsVowel(w[|w| - 1]) then 1 else 0)
  }

  /** Number of letters in `w`. */
  function CountAlpha(w: string): nat {
    if w == [] then 0 else CountAlpha(w[..|w| - 1]) + (if IsAlpha(w[|w| - 1]) then 1 else 0)
  }

  /** Number of digits in `w`. */
  function CountDigits(w: string): nat {
    if w == [] then 0 else CountDigits(w[..|w| - 1]) + (if IsDigit(w[|w| - 1]) then 1 else 0)
  }

  /** `x.isdigit()` on a whole string: non-empty and made of digits only. */
  predicate IsNumeric(x: string) {
    |x| > 0 && forall i :: 0 <= i < |x| ==> IsDigit(x[i])
  }

  /** A token as produced by `str.split()`: non-empty, no whitespace. */
  predicate IsToken(w: string) {
    |w| > 0 && forall i :: 0 <= i < |w| ==> !IsSpace(w[i])
  }

  /** Length of the leading run of non-whitespace bytes of `s`. */
  function TokenLen(s: string): (n: nat)
    ensures n <= |s|
    ensures forall i :: 0 <= i < n ==> !IsSpace(s[i])
    ensures n < |s| ==> IsSpace(s[n])
  {
    if s == [] || IsSpace(s[0]) then 0 else 1 + TokenLen(s[1..])
  }

  /** `s.split()`: the maximal runs of non-whitespace bytes, in order. */
  function Split(s: string): (ws: seq<string>)
    ensures forall i :: 0 <= i < |ws| ==> IsToken(ws[i])
    decreases |s|
  {
    if s == [] then []
    else if IsSpace(s[0]) then Split(s[1..])
    else
      var n := TokenLen(s);
      [s[..n]] + Split(s[n..])
  }

  /** `" ".join(ws)`. */
  function Join(ws: seq<string>): string {
    if ws == [] then "" else if |ws| == 1 then ws[0] else ws[0] + " " + Join(ws[1..])
  }

  /** `sep.join(parts)`. */
  function JoinWith(parts: seq<string>, sep: string): string {
    if parts == [] then "" else if |parts| == 1 then parts[0] else parts[0] + sep + JoinWith(parts[1..], sep)
  }

  /** `s.split(sep)` for a non-empty separator: cut at every leftmost,
      non-overlapping occurrence of `sep`; empty pieces are kept. */
  function SplitOn(s: string, sep: string): (parts: seq<string>)
    requires |sep| > 0
    ensures |parts| >= 1
    decreases |s|
  {
    if |s| < |sep| then [s]
    else if s[..|sep|] == sep then [""] + SplitOn(s[|sep|..], sep)
    else
      var rest := SplitOn(s[1..], sep);
      [[s[0]] + rest[0]] + rest[1..]
  }

  /** `needle` occurs in `hay` starting at index `i`. */
  predicate OccursAt(hay: string, needle: string, i: int) {
    0 <= i <= |hay| - |needle| && hay[i..i + |needle|] == needle
  }

  /** `hay.find(needle) != -1`. */
  predicate Contains(hay: string, needle: string) {
    exists i :: 0 <= i <= |hay| - |needle| && OccursAt(hay, needle, i)
  }

  /** A line's text padded with one space on each side, as pyborg.py:351 builds it. */
  function Padded(ws: seq<string>): string {
    " " + Join(ws) + " "
  }

  /** `s.lower()` on a byte string in the C locale: ASCII upper-case letters only. */
  function Lower(s: string): (r: string)
    ensures |r| == |s|
    ensures forall i :: 0 <= i < |s| ==> r[i] == (if 'A' <= s[i] <= 'Z' then (s[i] as int + 32) as char else s[i])
  {
    if s == [] then "" else Lower(s[..|s| - 1]) + [if 'A' <= s[|s| - 1] <= 'Z' then (s[|s| - 1] as int + 32) as char else s[|s| - 1]]
  }

  // ---------------------------------------------------------------------
  // Round trips

  lemma {:induction false} TokenLenOfToken(w: string, rest: string)
    requires IsToken(w)
    requires rest == [] || IsSpace(rest[0])
    ensures TokenLen(w + rest) == |w|
    decreases |w|
  {
    var s := w + rest;
    if |w| == 1 {
      assert s[1..] == rest;
    } else {
      assert s[1..] == w[1..] + rest;
      TokenLenOfToken(w[1..], rest);
    }
  }

  /** Splitting the joined text of a line gives its tokens back, so a line can
      be stored as its token sequence instead of its text. */
  lemma {:induction false} SplitJoin(ws: seq<string>)
    requires forall i :: 0 <= i < |ws| ==> IsToken(ws[i])
    ensures Split(Join(ws)) == ws
  {
    if ws == [] {
    } else if |ws| == 1 {
      var w := ws[0];
      TokenLenOfToken(w, "");
      assert w + "" == w;
      assert w[|w|..] == [];
      assert w[..|w|] == w;
    } else {
      var w := ws[0];
      var rest := " " + Join(ws[1..]);
      var s := ws[0] + " " + Join(ws[1..]);
      assert s == w + rest;
      TokenLenOfToken(w, rest);
      assert s[..|w|] == w;
      assert s[|w|..] == rest;
      assert rest[1..] == Join(ws[1..]);
      SplitJoin(ws[1..]);
    }
  }

  /** Joining a piece in front of at least one more. */
  lemma JoinWithCons(p: string, rest: seq<string>, sep: string)
    requires |rest| >= 1
    ensures JoinWith([p] + rest, sep) == p + sep + JoinWith(rest, sep)
  {
    assert ([p] + rest)[1..] == rest;
  }

  /** Growing the first piece by one character in front grows the joined text by it. */
  lemma JoinWithGrowHead(c: char, rest: seq<string>, sep: string)
    requires |rest| >= 1
    ensures JoinWith([[c] + rest[0]] + rest[1..], sep) == [c] + JoinWith(rest, sep)
  {
    var parts := [[c] + rest[0]] + rest[1..];
    if |rest| > 1 {
      assert parts[1..] == rest[1..];
    }
  }

  /** A token is split into itself. */
  lemma SplitToken(w: string)
    requires IsToken(w)
    ensures Split(w) == [w]
  {
    SplitJoin([w]);
  }

  /** A string in which `sep` never occurs is one piece. */
  lemma {:induction false} SplitOnWhole(s: string, sep: string)
    requires |sep| > 0
    requires forall i :: !OccursAt(s, sep, i)
    ensures SplitOn(s, sep) == [s]
    decreases |s|
  {
    if |s| >= |sep| {
      assert !OccursAt(s, sep, 0);
      assert s[..|sep|] == s[0..0 + |sep|];
      forall i ensures !OccursAt(s[1..], sep, i) {
        if OccursAt(s[1..], sep, i) {
          assert s[1..][i..i + |sep|] == s[i + 1..i + 1 + |sep|];
          assert OccursAt(s, sep, i + 1);
        }
      }
      SplitOnWhole(s[1..], sep);
      assert [s[0]] + s[1..] == s;
    }
  }

  /** A token holds no space, so `split('. ')` leaves it whole. */
  lemma TokenSplitOnWhole(w: string)
    requires IsToken(w)
    ensures SplitOn(w, ". ") == [w]
  {
    forall i ensures !OccursAt(w, ". ", i) {
      if 0 <= i <= |w| - 2 {
        assert w[i..i + 2][1] == w[i + 1] && !IsSpace(w[i + 1]);
      }
    }
    SplitOnWhole(w, ". ");
  }

  /** Joining the pieces of `s.split(sep)` with `sep` gives `s` back. */
  lemma {:induction false} JoinSplitOn(s: string, sep: string)
    requires |sep| > 0
    ensures JoinWith(SplitOn(s, sep), sep) == s
    decreases |s|
  {
    if |s| < |sep| {
    } else if s[..|sep|] == sep {
      var rest := SplitOn(s[|sep|..], sep);
      assert SplitOn(s, sep) == [""] + rest;
      JoinSplitOn(s[|sep|..], sep);
      JoinWithCons("", rest, sep);
      assert s == s[..|sep|] + s[|sep|..];
    } else {
      var rest := SplitOn(s[1..], sep);
      assert SplitOn(s, sep) == [[s[0]] + rest[0]] + rest[1..];
      JoinSplitOn(s[1..], sep);
      JoinWithGrowHead(s[0], rest, sep);
      assert s == [s[0]] + s[1..];
    }
  }

  // ---------------------------------------------------------------------
  // Padded search

  lemma ContainsShift(hay: string, pre: string, needle: string)
    requires Contains(hay, needle)
    ensures Contains(pre + hay, needle)
  {
    var i :| 0 <= i <= |hay| - |needle| && OccursAt(hay, needle, i);
    assert hay[i..i + |needle|] == needle;
    assert (pre + hay)[|pre| + i..|pre| + i + |needle|] == needle;
    assert OccursAt(pre + hay, needle, |pre| + i);
  }

  /** Every token of a line, padded with spaces, occurs in the padded text of
      the line: the search at pyborg.py:352 finds every word of the line. */
  lemma {:induction false} PaddedTokenFound(ws: seq<string>, i: nat)
    requires i < |ws|
    ensures Contains(Padded(ws), " " + ws[i] + " ")
  {
    var needle := " " + ws[i] + " ";
    if |ws| == 1 {
      assert Padded(ws)[0..|needle|] == needle;
      assert OccursAt(Padded(ws), needle, 0);
    } else {
      var tail := Padded(ws[1..]);
      assert Padded(ws) == " " + ws[0] + tail;
      if i == 0 {
        assert tail[0] == ' ';
        assert Padded(ws)[0..|needle|] == needle;
        assert OccursAt(Padded(ws), needle, 0);
      } else {
        PaddedTokenFound(ws[1..], i - 1);
        assert ws[1..][i - 1] == ws[i];
        ContainsShift(tail, " " + ws[0], needle);
      }
    }
  }
}
