/**
 * Python's `urllib.parse.quote` and `quote_plus` with `safe=''`, and
 * `urlencode` over them: UTF-8 bytes, the unreserved characters of section
 * 2.3 of RFC 3986 kept, every other byte written as an upper-case `%XX`
 * escape (and, for `quote_plus`, the space as `+`).
 */
module Percent {
  import opened Wrappers
  import opened Text
  import opened Params

  /** `ALPHA / DIGIT / "-" / "." / "_" / "~"`: what `quote` never escapes. */
  predicate Unreserved(c: char) {
    || ('A' <= c <= 'Z') || ('a' <= c <= 'z') || ('0' <= c <= '9')
    || c == '_' || c == '.' || c == '-' || c == '~'
  }

  /** The upper-case hex digit for `0 <= n < 16`. */
  function HexDigit(n: int): (c: char)
    requires 0 <= n < 16
    ensures Unreserved(c)
  {
    if n < 10 then ('0' as int + n) as char else ('A' as int + n - 10) as char
  }

  predicate IsHexDigit(c: char) {
    ('0' <= c <= '9') || ('A' <= c <= 'F')
  }

  /** The inverse of `HexDigit`. */
  function HexValue(c: char): (n: int)
    requires IsHexDigit(c)
    ensures 0 <= n < 16 && HexDigit(n) == c
  {
    if c <= '9' then c as int - '0' as int else c as int - 'A' as int + 10
  }

  /** One byte as `quote` (`plus` false) or `quote_plus` (`plus` true) writes it. */
  function EscapeByte(b: Byte, plus: bool): string {
    if Unreserved(b as char) then [b as char]
    else if plus && b == 32 then "+"
    else ['%', HexDigit(b / 16), HexDigit(b % 16)]
  }

  function QuoteBytes(bs: seq<Byte>, plus: bool): string {
    if bs == [] then [] else EscapeByte(bs[0], plus) + QuoteBytes(bs[1..], plus)
  }

  /** `quote(s, '')` (parteye.py:43-44). */
  function Quote(s: string): string {
    QuoteBytes(Utf8(s), false)
  }

  /** `quote_plus(s, '')`, the `quote_via` of `urlencode` (parteye.py:42). */
  function QuotePlus(s: string): string {
    QuoteBytes(Utf8(s), true)
  }

  /** The `key=value` pieces of `urlencode`, in the dict's order. */
  function FormPairs(items: seq<Item>): (r: seq<string>)
    ensures |r| == |items|
  {
    if items == [] then []
    else [QuotePlus(items[0].0) + "=" + QuotePlus(items[0].1)] + FormPairs(items[1..])
  }

  /** `urlencode(params, '')` (parteye.py:42): the pairs joined by `&`. */
  function UrlEncode(items: seq<Item>): string {
    Join(FormPairs(items), '&')
  }

  /**
   * The reference decoder: reads unreserved characters, upper-case `%XX`
   * escapes and, when `plus`, `+` for a space; anything else is not percent-encoded.
   */
  function Decode(t: string, plus: bool): (r: Option<seq<Byte>>)
    decreases |t|
  {
    if t == [] then Some([])
    else if t[0] == '%' then
      if |t| >= 3 && IsHexDigit(t[1]) && IsHexDigit(t[2]) then
        match Decode(t[3..], plus)
        case None => None
        case Some(rest) => Some([16 * HexValue(t[1]) + HexValue(t[2])] + rest)
      else None
    else if plus && t[0] == '+' then
      match Decode(t[1..], plus)
      case None => None
      case Some(rest) => Some([32] + rest)
    else if Unreserved(t[0]) then
      match Decode(t[1..], plus)
      case None => None
      case Some(rest) => Some([t[0] as int] + rest)
    else None
  }

  /** Every character is unreserved or an upper-case `%XX` escape. */
  predicate PercentEncoded(t: string) {
    Decode(t, false).Some?
  }

  /** Decoding an escaped byte in front of more text gives the byte in front of the rest. */
  lemma DecodeEscapeByte(b: Byte, rest: string, plus: bool)
    ensures Decode(EscapeByte(b, plus) + rest, plus) ==
      match Decode(rest, plus)
      case None => None
      case Some(r) => Some([b] + r)
  {
    var t := EscapeByte(b, plus) + rest;
    if Unreserved(b as char) {
      assert t[0] == b as char && t[1..] == rest;
    } else if plus && b == 32 {
      assert t[0] == '+' && t[1..] == rest;
    } else {
      assert t[0] == '%' && t[1] == HexDigit(b / 16) && t[2] == HexDigit(b % 16) && t[3..] == rest;
      assert HexValue(t[1]) == b / 16 && HexValue(t[2]) == b % 16;
    }
  }

  /** Round trip: the decoder gives back the bytes that were quoted. */
  lemma {:induction false} QuoteBytesRoundTrip(bs: seq<Byte>, plus: bool)
    ensures Decode(QuoteBytes(bs, plus), plus) == Some(bs)
  {
    if bs != [] {
      QuoteBytesRoundTrip(bs[1..], plus);
      DecodeEscapeByte(bs[0], QuoteBytes(bs[1..], plus), plus);
      assert bs == [bs[0]] + bs[1..];
    }
  }

  /** `quote(s, '')` is percent-encoded and decodes to the UTF-8 bytes of `s`. */
  lemma QuoteRoundTrip(s: string)
    ensures PercentEncoded(Quote(s))
    ensures Decode(Quote(s), false) == Some(Utf8(s))
  {
    QuoteBytesRoundTrip(Utf8(s), false);
  }

  /** `quote_plus(s, '')` decodes, with `+` read as a space, to the UTF-8 bytes of `s`. */
  lemma QuotePlusRoundTrip(s: string)
    ensures Decode(QuotePlus(s), true) == Some(Utf8(s))
  {
    QuoteBytesRoundTrip(Utf8(s), true);
  }

  /** The characters `quote` can write: unreserved ones, `%`, and `+` only for `quote_plus`. */
  lemma {:induction false} QuoteBytesAlphabet(bs: seq<Byte>, plus: bool)
    ensures forall c | c in QuoteBytes(bs, plus) :: Unreserved(c) || c == '%' || (plus && c == '+')
  {
    if bs != [] {
      QuoteBytesAlphabet(bs[1..], plus);
      var e := EscapeByte(bs[0], plus);
      assert forall c | c in e :: Unreserved(c) || c == '%' || (plus && c == '+');
    }
  }

  /** `quote(s, '')` writes no `&`, `=` or `+`: those always come out escaped. */
  lemma QuoteEscapesDelimiters(s: string)
    ensures '&' !in Quote(s) && '=' !in Quote(s) && '+' !in Quote(s)
    ensures forall c | c in Quote(s) :: Unreserved(c) || c == '%'
  {
    QuoteBytesAlphabet(Utf8(s), false);
  }

  /** `quote_plus(s, '')` writes no `&` or `=`, so the pieces of `urlencode` can be told apart. */
  lemma QuotePlusEscapesDelimiters(s: string)
    ensures '&' !in QuotePlus(s) && '=' !in QuotePlus(s)
  {
    QuoteBytesAlphabet(Utf8(s), true);
  }

  /** Text already made of unreserved ASCII characters is left as it is. */
  lemma {:induction false} QuoteUnreservedIdentity(s: string)
    requires forall k | 0 <= k < |s| :: Unreserved(s[k])
    ensures Quote(s) == s
  {
    assert IsAscii(s);
    Utf8OfAscii(s);
    QuoteBytesOfAscii(s, Utf8(s));
  }

  lemma {:induction false} QuoteBytesOfAscii(s: string, bs: seq<Byte>)
    requires forall k | 0 <= k < |s| :: Unreserved(s[k])
    requires |bs| == |s| && forall k | 0 <= k < |s| :: bs[k] == s[k] as int
    ensures QuoteBytes(bs, false) == s
  {
    if s != [] {
      QuoteBytesOfAscii(s[1..], bs[1..]);
      assert EscapeByte(bs[0], false) == [s[0]];
      assert s == [s[0]] + s[1..];
    }
  }

  /** Splitting `key=value` at its `=` gives back the two quoted halves. */
  lemma PairSplits(k: string, v: string)
    ensures Split(QuotePlus(k) + "=" + QuotePlus(v), '=') == [QuotePlus(k), QuotePlus(v)]
  {
    QuotePlusEscapesDelimiters(k);
    QuotePlusEscapesDelimiters(v);
    SplitAtSeparator(QuotePlus(k), QuotePlus(v), '=');
    SplitJoin([QuotePlus(v)], '=');
  }

  /** No `key=value` piece holds an `&`. */
  lemma {:induction false} FormPairsPlain(items: seq<Item>)
    ensures forall i | 0 <= i < |items| :: '&' !in FormPairs(items)[i]
  {
    if items != [] {
      FormPairsPlain(items[1..]);
      QuotePlusEscapesDelimiters(items[0].0);
      QuotePlusEscapesDelimiters(items[0].1);
      assert forall i | 1 <= i < |items| :: FormPairs(items)[i] == FormPairs(items[1..])[i - 1];
    }
  }

  /** The form body splits at `&` into one `key=value` piece per item, in order. */
  lemma UrlEncodeSplits(items: seq<Item>)
    requires items != []
    ensures Split(UrlEncode(items), '&') == FormPairs(items)
  {
    FormPairsPlain(items);
    SplitJoin(FormPairs(items), '&');
  }

  /** Reads a form body back: `&`-pieces, each `=`-split and decoded with `+` as a space. */
  function ParseForm(t: string): Option<seq<(seq<Byte>, seq<Byte>)>> {
    ParsePairs(Split(t, '&'))
  }

  function ParsePairs(pieces: seq<string>): Option<seq<(seq<Byte>, seq<Byte>)>> {
    if pieces == [] then Some([])
    else
      var halves := Split(pieces[0], '=');
      if |halves| != 2 then None
      else match (Decode(halves[0], true), Decode(halves[1], true), ParsePairs(pieces[1..]))
        case (Some(k), Some(v), Some(rest)) => Some([(k, v)] + rest)
        case _ => None
  }

  /** The UTF-8 bytes of every key and value, in order. */
  function ItemBytes(items: seq<Item>): seq<(seq<Byte>, seq<Byte>)> {
    if items == [] then [] else [(Utf8(items[0].0), Utf8(items[0].1))] + ItemBytes(items[1..])
  }

  lemma {:induction false} ParsePairsRoundTrip(items: seq<Item>)
    ensures ParsePairs(FormPairs(items)) == Some(ItemBytes(items))
  {
    if items != [] {
      ParsePairsRoundTrip(items[1..]);
      PairSplits(items[0].0, items[0].1);
      QuotePlusRoundTrip(items[0].0);
      QuotePlusRoundTrip(items[0].1);
      assert FormPairs(items)[1..] == FormPairs(items[1..]);
    }
  }

  /** Round trip: the form body `urlencode` writes reads back as the dict's items, in order. */
  lemma UrlEncodeRoundTrip(items: seq<Item>)
    requires items != []
    ensures ParseForm(UrlEncode(items)) == Some(ItemBytes(items))
  {
    UrlEncodeSplits(items);
    ParsePairsRoundTrip(items);
  }
}
