/**
 * The pieces of Python's `str` behaviour the scanner intake relies on:
 * `strip()` with no argument, `split(sep)` with an explicit one-character
 * separator, and the UTF-8 encoding applied before percent-encoding and signing.
 */
module Text {
  import opened Wrappers

  type Byte = b: int | 0 <= b < 256

  /** Python's `str.isspace()`: the characters `strip()` removes. */
  predicate IsSpace(c: char) {
    || c == ' ' || ('\t' <= c <= '\r') || ('\U{1C}' <= c <= '\U{1F}')
    || c == '\U{85}' || c == '\U{A0}' || c == '\U{1680}'
    || ('\U{2000}' <= c <= '\U{200A}') || c == '\U{2028}' || c == '\U{2029}'
    || c == '\U{202F}' || c == '\U{205F}' || c == '\U{3000}'
  }

  predicate AllSpace(s: string) {
    forall k | 0 <= k < |s| :: IsSpace(s[k])
  }

  /** Drops the leading white space: what is left is a suffix that starts with a non-space. */
  function TrimStart(s: string): (r: string)
    ensures |r| <= |s| && r == s[|s| - |r|..]
    ensures AllSpace(s[..|s| - |r|])
    ensures r == [] || !IsSpace(r[0])
  {
    if |s| > 0 && IsSpace(s[0]) then
      var r := TrimStart(s[1..]);
      var spaces := s[1..][..|s| - 1 - |r|];
      assert forall k | 0 <= k < |spaces| :: spaces[k] == s[k + 1];
      r
    else s
  }

  /** Drops the trailing white space: what is left is a prefix that ends with a non-space. */
  function TrimEnd(s: string): (r: string)
    ensures |r| <= |s| && r == s[..|r|]
    ensures AllSpace(s[|r|..])
    ensures r == [] || !IsSpace(r[|r| - 1])
  {
    if |s| > 0 && IsSpace(s[|s| - 1]) then
      var t := s[..|s| - 1];
      var r := TrimEnd(t);
      assert t[..|r|] == s[..|r|];
      AllSpaceSnoc(t[|r|..], s[|s| - 1]);
      assert s[|r|..] == t[|r|..] + [s[|s| - 1]];
      r
    else s
  }

  lemma AllSpaceSnoc(t: string, c: char)
    requires AllSpace(t) && IsSpace(c)
    ensures AllSpace(t + [c])
  {
    assert forall k | 0 <= k < |t| :: (t + [c])[k] == t[k];
  }

  /** Python's `str.strip()` (parteye.py:93). */
  function Strip(s: string): (r: string)
    ensures |r| <= |s|
    ensures r == [] || (!IsSpace(r[0]) && !IsSpace(r[|r| - 1]))
    ensures r == [] <==> AllSpace(s)
  {
    var t := TrimStart(s);
    assert AllSpace(s) ==> t == [];
    TrimEnd(t)
  }

  lemma {:induction false} TrimStartPadded(pre: string, t: string)
    requires AllSpace(pre)
    requires t == [] || !IsSpace(t[0])
    ensures TrimStart(pre + t) == t
    decreases |pre|
  {
    if pre != [] {
      assert (pre + t)[1..] == pre[1..] + t;
      TrimStartPadded(pre[1..], t);
    } else {
      assert pre + t == t;
    }
  }

  lemma {:induction false} TrimEndPadded(t: string, post: string)
    requires AllSpace(post)
    requires t == [] || !IsSpace(t[|t| - 1])
    ensures TrimEnd(t + post) == t
    decreases |post|
  {
    if post != [] {
      var s := t + post;
      assert s[..|s| - 1] == t + post[..|post| - 1];
      TrimEndPadded(t, post[..|post| - 1]);
    } else {
      assert t + post == t;
    }
  }

  /**
   * `strip()` removes exactly the white-space padding: a text whose ends are
   * not white space comes back unchanged from any padding around it.
   */
  lemma StripPadded(pre: string, t: string, post: string)
    requires AllSpace(pre) && AllSpace(post)
    requires t == [] || (!IsSpace(t[0]) && !IsSpace(t[|t| - 1]))
    ensures Strip(pre + t + post) == t
  {
    if t == [] {
      assert pre + t + post == pre + post;
      assert AllSpace(pre + post);
    } else {
      assert pre + t + post == pre + (t + post);
      TrimStartPadded(pre, t + post);
      TrimEndPadded(t, post);
    }
  }

  /** Stripping twice is stripping once. */
  lemma StripIdempotent(s: string)
    ensures Strip(Strip(s)) == Strip(s)
  {
    var r := Strip(s);
    assert TrimStart(r) == r;
    assert TrimEnd(r) == r;
  }

  /** Joins parts with one separator between neighbours: the inverse of `Split`. */
  function Join(parts: seq<string>, sep: char): string {
    if |parts| == 0 then []
    else if |parts| == 1 then parts[0]
    else parts[0] + [sep] + Join(parts[1..], sep)
  }

  /**
   * Python's `s.split(sep)` with an explicit separator: never empty, the
   * pieces hold no separator, neighbouring separators give an empty piece.
   */
  function Split(s: string, sep: char): (r: seq<string>)
    ensures |r| >= 1
    ensures forall i | 0 <= i < |r| :: sep !in r[i]
    ensures Join(r, sep) == s
    decreases |s|
  {
    if s == [] then [[]]
    else
      var rest := Split(s[1..], sep);
      if s[0] == sep then
        assert [[]] + rest == [[]] + rest;
        [[]] + rest
      else
        var r := [[s[0]] + rest[0]] + rest[1..];
        assert r[1..] == rest[1..];
        assert |rest| > 1 ==> rest == [rest[0]] + rest[1..];
        r
  }

  /** Splitting a text that starts with a separator-free piece `a` glues `a` onto the first piece. */
  lemma {:induction false} SplitPrefix(a: string, y: string, sep: char)
    requires sep !in a
    ensures Split(a + y, sep) == [a + Split(y, sep)[0]] + Split(y, sep)[1..]
    decreases |a|
  {
    if a != [] {
      assert (a + y)[1..] == a[1..] + y;
      SplitPrefix(a[1..], y, sep);
      var rest := Split(a[1..] + y, sep);
      assert rest[0] == a[1..] + Split(y, sep)[0] && rest[1..] == Split(y, sep)[1..];
      assert (a + y)[0] == a[0] != sep;
      assert Split(a + y, sep) == [[a[0]] + rest[0]] + rest[1..];
      assert [a[0]] + (a[1..] + Split(y, sep)[0]) == a + Split(y, sep)[0];
    } else {
      assert a + y == y;
      assert a + Split(y, sep)[0] == Split(y, sep)[0];
      assert Split(y, sep) == [Split(y, sep)[0]] + Split(y, sep)[1..];
    }
  }

  /** A separator-free piece followed by a separator becomes a piece of its own. */
  lemma SplitAtSeparator(a: string, z: string, sep: char)
    requires sep !in a
    ensures Split(a + [sep] + z, sep) == [a] + Split(z, sep)
  {
    var y := [sep] + z;
    assert a + [sep] + z == a + y;
    assert y[0] == sep && y[1..] == z;
    assert Split(y, sep) == [[]] + Split(z, sep);
    SplitPrefix(a, y, sep);
    assert a + [] == a;
  }

  /** The first piece is the longest separator-free prefix: the text up to the first separator. */
  lemma {:induction false} SplitFirstPiece(s: string, sep: char)
    ensures var p := Split(s, sep)[0];
      |p| <= |s| && s[..|p|] == p && (|p| == |s| || s[|p|] == sep)
    decreases |s|
  {
    if s != [] && s[0] != sep {
      SplitFirstPiece(s[1..], sep);
    }
  }

  /** Round trip: splitting what was joined gives back the pieces. */
  lemma {:induction false} SplitJoin(parts: seq<string>, sep: char)
    requires |parts| >= 1
    requires forall i | 0 <= i < |parts| :: sep !in parts[i]
    ensures Split(Join(parts, sep), sep) == parts
    decreases |parts|
  {
    if |parts| == 1 {
      SplitPrefix(parts[0], [], sep);
      assert parts[0] + [] == parts[0];
    } else {
      SplitJoin(parts[1..], sep);
      SplitAtSeparator(parts[0], Join(parts[1..], sep), sep);
      assert parts == [parts[0]] + parts[1..];
    }
  }

  /** Python's `s.encode('utf-8')` of one Unicode scalar value. */
  function Utf8Char(c: char): (r: seq<Byte>)
    ensures 1 <= |r| <= 4
    ensures (|r| == 1) <==> (c as int < 0x80)
    ensures |r| == 1 ==> r[0] == c as int
  {
    var cp := c as int;
    if cp < 0x80 then [cp]
    else if cp < 0x800 then [0xC0 + cp / 0x40, 0x80 + cp % 0x40]
    else if cp < 0x1_0000 then [0xE0 + cp / 0x1000, 0x80 + (cp / 0x40) % 0x40, 0x80 + cp % 0x40]
    else [0xF0 + cp / 0x4_0000, 0x80 + (cp / 0x1000) % 0x40, 0x80 + (cp / 0x40) % 0x40, 0x80 + cp % 0x40]
  }

  predicate IsContinuation(b: Byte) {
    0x80 <= b < 0xC0
  }

  /**
   * The reference decoder for one encoded character: the lead byte gives the
   * length and the high bits, each continuation byte six more bits.
   */
  function DecodeUtf8Char(r: seq<Byte>): Option<int> {
    if |r| == 1 && r[0] < 0x80 then Some(r[0] as int)
    else if |r| == 2 && 0xC0 <= r[0] < 0xE0 && IsContinuation(r[1]) then
      Some((r[0] as int - 0xC0) * 0x40 + (r[1] as int - 0x80))
    else if |r| == 3 && 0xE0 <= r[0] < 0xF0 && IsContinuation(r[1]) && IsContinuation(r[2]) then
      Some((r[0] as int - 0xE0) * 0x1000 + (r[1] as int - 0x80) * 0x40 + (r[2] as int - 0x80))
    else if |r| == 4 && 0xF0 <= r[0] < 0xF8 && IsContinuation(r[1]) && IsContinuation(r[2]) && IsContinuation(r[3]) then
      Some((r[0] as int - 0xF0) * 0x4_0000 + (r[1] as int - 0x80) * 0x1000 + (r[2] as int - 0x80) * 0x40 + (r[3] as int - 0x80))
    else None
  }

  /** Two-byte characters: five bits in the lead byte, six in the continuation byte. */
  lemma Utf8TwoBytes(cp: int)
    requires 0x80 <= cp < 0x800
    ensures DecodeUtf8Char([0xC0 + cp / 0x40, 0x80 + cp % 0x40]) == Some(cp)
  {
    assert cp == (cp / 0x40) * 0x40 + cp % 0x40;
  }

  /** Three-byte characters: four bits in the lead byte, six in each continuation byte. */
  lemma Utf8ThreeBytes(cp: int)
    requires 0x800 <= cp < 0x1_0000
    ensures DecodeUtf8Char([0xE0 + cp / 0x1000, 0x80 + (cp / 0x40) % 0x40, 0x80 + cp % 0x40]) == Some(cp)
  {
    assert cp / 0x40 == (cp / 0x1000) * 0x40 + (cp / 0x40) % 0x40;
    assert cp == (cp / 0x40) * 0x40 + cp % 0x40;
  }

  /** Four-byte characters: three bits in the lead byte, six in each continuation byte. */
  lemma Utf8FourBytes(cp: int)
    requires 0x1_0000 <= cp < 0x11_0000
    ensures DecodeUtf8Char([0xF0 + cp / 0x4_0000, 0x80 + (cp / 0x1000) % 0x40,
      0x80 + (cp / 0x40) % 0x40, 0x80 + cp % 0x40]) == Some(cp)
  {
    assert cp / 0x1000 == (cp / 0x4_0000) * 0x40 + (cp / 0x1000) % 0x40;
    assert cp / 0x40 == (cp / 0x1000) * 0x40 + (cp / 0x40) % 0x40;
    assert cp == (cp / 0x40) * 0x40 + cp % 0x40;
  }

  /** Round trip: every encoded character decodes back to its code point. */
  lemma Utf8CharRoundTrip(c: char)
    ensures DecodeUtf8Char(Utf8Char(c)) == Some(c as int)
  {
    var cp := c as int;
    if 0x80 <= cp < 0x800 {
      Utf8TwoBytes(cp);
    } else if 0x800 <= cp < 0x1_0000 {
      Utf8ThreeBytes(cp);
    } else if 0x1_0000 <= cp {
      Utf8FourBytes(cp);
    }
  }

  /** Python's `s.encode('utf-8')`, and `bytes(s, 'UTF-8')`. */
  function Utf8(s: string): seq<Byte> {
    if s == [] then [] else Utf8Char(s[0]) + Utf8(s[1..])
  }

  predicate IsAscii(s: string) {
    forall k | 0 <= k < |s| :: s[k] as int < 0x80
  }

  /** A text of ASCII characters encodes to one byte per character, its code. */
  lemma {:induction false} Utf8OfAscii(s: string)
    requires IsAscii(s)
    ensures |Utf8(s)| == |s|
    ensures forall k | 0 <= k < |s| :: Utf8(s)[k] == s[k] as int
  {
    if s != [] {
      Utf8OfAscii(s[1..]);
    }
  }

  /** Python's `bytes.rstrip()` with no argument: drops trailing ASCII white space. */
  function RStripBytes(bs: seq<Byte>): (r: seq<Byte>)
    ensures |r| <= |bs| && r == bs[..|r|]
    ensures r == [] || r[|r| - 1] !in {9, 10, 11, 12, 13, 32}
    ensures forall k | |r| <= k < |bs| :: bs[k] in {9, 10, 11, 12, 13, 32}
  {
    if |bs| > 0 && bs[|bs| - 1] in {9, 10, 11, 12, 13, 32} then RStripBytes(bs[..|bs| - 1]) else bs
  }
}
