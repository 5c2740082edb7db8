/**
 * The application/x-www-form-urlencoded format of the WHATWG URL Standard,
 * as `URLSearchParams` writes it (`toString`, the serializer) and reads it
 * (its constructor, the parser).
 *
 * The serializer encodes each name and value as UTF-8, keeps ASCII letters,
 * digits and `*-._` as they are, writes a space as `+` and every other byte
 * as `%XY` with upper-case hex digits, and joins the `name=value` pairs
 * with `&`. The parser here is the reference it is checked against; it
 * refuses malformed UTF-8 instead of substituting U+FFFD.
 */
module FormUrlEncoded {
  import opened Js

  type Byte = b: int | 0 <= b < 256

  // ---------------------------------------------------------------------
  // UTF-8

  /** The UTF-8 bytes of one scalar value. */
  function Utf8(c: char): (bs: seq<Byte>)
    ensures 1 <= |bs| <= 4
    ensures (c as int < 0x80) <==> (bs == [c as int])
  {
    var n := c as int;
    var q1, r1 := n / 64, n % 64;
    var q2, r2 := q1 / 64, q1 % 64;
    var q3, r3 := q2 / 64, q2 % 64;
    if n < 0x80 then [n]
    else if n < 0x800 then [0xC0 + q1, 0x80 + r1]
    else if n < 0x10000 then [0xE0 + q2, 0x80 + r2, 0x80 + r1]
    else [0xF0 + q3, 0x80 + r3, 0x80 + r2, 0x80 + r1]
  }

  function Utf8Encode(s: string): seq<Byte> {
    if s == [] then [] else Utf8(s[0]) + Utf8Encode(s[1..])
  }

  predicate IsContinuation(b: Byte) {
    0x80 <= b < 0xC0
  }

  /** Prepends the character `cp` to a decoded rest, when `cp` is a scalar
      value of at least `least` (no overlong form) and the rest decoded. */
  function ScalarThen(cp: int, least: int, rest: Option<string>): Option<string> {
    if rest.Some? && least <= cp && (0 <= cp < 0xD800 || 0xE000 <= cp < 0x110000) then
      Some([cp as char] + rest.value)
    else None
  }

  /** Strict UTF-8 decoding: `None` for malformed input. */
  function Utf8Decode(bs: seq<Byte>): Option<string>
    decreases |bs|
  {
    if bs == [] then Some([])
    else if bs[0] < 0x80 then
      ScalarThen(bs[0], 0, Utf8Decode(bs[1..]))
    else if 0xC0 <= bs[0] < 0xE0 && |bs| >= 2 && IsContinuation(bs[1]) then
      ScalarThen((bs[0] as int - 0xC0) * 64 + (bs[1] as int - 0x80), 0x80, Utf8Decode(bs[2..]))
    else if 0xE0 <= bs[0] < 0xF0 && |bs| >= 3 && IsContinuation(bs[1]) && IsContinuation(bs[2]) then
      ScalarThen(((bs[0] as int - 0xE0) * 64 + (bs[1] as int - 0x80)) * 64 + (bs[2] as int - 0x80), 0x800, Utf8Decode(bs[3..]))
    else if 0xF0 <= bs[0] < 0xF8 && |bs| >= 4 && IsContinuation(bs[1]) && IsContinuation(bs[2])
            && IsContinuation(bs[3]) then
      ScalarThen((((bs[0] as int - 0xF0) * 64 + (bs[1] as int - 0x80)) * 64 + (bs[2] as int - 0x80)) * 64 + (bs[3] as int - 0x80),
                 0x10000, Utf8Decode(bs[4..]))
    else None
  }

  /** Decoding the bytes of one character gives that character back. */
  lemma Utf8DecodeChar(c: char, rest: seq<Byte>)
    ensures Utf8Decode(Utf8(c) + rest) ==
            (if Utf8Decode(rest).Some? then Some([c] + Utf8Decode(rest).value) else None)
  {
    var n := c as int;
    var bs := Utf8(c) + rest;
    var q1, r1 := n / 64, n % 64;
    var q2, r2 := q1 / 64, q1 % 64;
    var q3, r3 := q2 / 64, q2 % 64;
    assert n == q1 * 64 + r1 && q1 == q2 * 64 + r2 && q2 == q3 * 64 + r3;
    if n < 0x80 {
      assert bs[1..] == rest;
    } else if n < 0x800 {
      assert bs[0] == 0xC0 + q1 && bs[1] == 0x80 + r1 && bs[2..] == rest;
      assert (bs[0] as int - 0xC0) * 64 + (bs[1] as int - 0x80) == n;
    } else if n < 0x10000 {
      assert bs[0] == 0xE0 + q2 && bs[1] == 0x80 + r2 && bs[2] == 0x80 + r1 && bs[3..] == rest;
      assert ((bs[0] as int - 0xE0) * 64 + (bs[1] as int - 0x80)) * 64 + (bs[2] as int - 0x80) == n;
    } else {
      assert bs[0] == 0xF0 + q3 && bs[1] == 0x80 + r3 && bs[2] == 0x80 + r2 && bs[3] == 0x80 + r1;
      assert bs[4..] == rest;
      assert (((bs[0] as int - 0xF0) * 64 + (bs[1] as int - 0x80)) * 64 + (bs[2] as int - 0x80)) * 64 + (bs[3] as int - 0x80) == n;
    }
  }

  /** UTF-8 decoding inverts UTF-8 encoding. */
  lemma {:induction false} Utf8RoundTrip(s: string)
    ensures Utf8Decode(Utf8Encode(s)) == Some(s)
  {
    if s != [] {
      Utf8RoundTrip(s[1..]);
      Utf8DecodeChar(s[0], Utf8Encode(s[1..]));
      assert [s[0]] + s[1..] == s;
    }
  }

  // ---------------------------------------------------------------------
  // Percent-encoding

  /** The characters the serializer writes as they are. */
  predicate IsUnreserved(c: char) {
    || '0' <= c <= '9' || 'A' <= c <= 'Z' || 'a' <= c <= 'z'
    || c == '*' || c == '-' || c == '.' || c == '_'
  }

  function HexUpper(d: nat): (c: char)
    requires d < 16
    ensures IsRadixDigit(c, 16) && DigitValue(c) == d && IsUnreserved(c)
  {
    if d < 10 then DigitChar(d) else ('A' as int + d - 10) as char
  }

  function PercentBytes(bs: seq<Byte>): (s: string)
    ensures forall k :: 0 <= k < |s| ==> IsUnreserved(s[k]) || s[k] == '%'
  {
    if bs == [] then ""
    else ['%', HexUpper(bs[0] / 16), HexUpper(bs[0] % 16)] + PercentBytes(bs[1..])
  }

  /** One character as the serializer writes it. */
  function EncodeChar(c: char): (s: string)
    ensures forall k :: 0 <= k < |s| ==> IsUnreserved(s[k]) || s[k] == '+' || s[k] == '%'
  {
    if IsUnreserved(c) then [c]
    else if c == ' ' then "+"
    else PercentBytes(Utf8(c))
  }

  /** A name or a value as the serializer writes it. Its only characters are
      unreserved ones, `+` and `%`; in particular it holds no `&` or `=`. */
  function Encode(s: string): (r: string)
    ensures forall k :: 0 <= k < |r| ==> IsUnreserved(r[k]) || r[k] == '+' || r[k] == '%'
  {
    if s == [] then "" else EncodeChar(s[0]) + Encode(s[1..])
  }

  /** The parser's percent-decoding of a name or value: `+` is a space,
      `%XY` with two hex digits is that byte, any other character stands for
      its UTF-8 bytes (a `%` without two hex digits after it too). */
  function PercentDecode(s: string): seq<Byte>
    decreases |s|
  {
    if s == [] then []
    else if s[0] == '+' then [0x20] + PercentDecode(s[1..])
    else if s[0] == '%' && |s| >= 3 && IsRadixDigit(s[1], 16) && IsRadixDigit(s[2], 16) then
      [16 * DigitValue(s[1]) + DigitValue(s[2])] + PercentDecode(s[3..])
    else Utf8(s[0]) + PercentDecode(s[1..])
  }

  lemma PercentByteDecode(b: Byte, u: string)
    ensures PercentDecode(['%', HexUpper(b / 16), HexUpper(b % 16)] + u) == [b] + PercentDecode(u)
  {
    var h1, h2 := HexUpper(b / 16), HexUpper(b % 16);
    var s := ['%', h1, h2] + u;
    assert s[0] == '%' && s[1] == h1 && s[2] == h2 && s[3..] == u;
    assert 16 * (b / 16) + b % 16 == b;
  }

  lemma {:induction false} PercentBytesDecode(bs: seq<Byte>, t: string)
    ensures PercentDecode(PercentBytes(bs) + t) == bs + PercentDecode(t)
  {
    if bs == [] {
      assert PercentBytes(bs) + t == t;
    } else {
      var b := bs[0];
      var u := PercentBytes(bs[1..]) + t;
      assert PercentBytes(bs) + t == ['%', HexUpper(b / 16), HexUpper(b % 16)] + u;
      PercentByteDecode(b, u);
      PercentBytesDecode(bs[1..], t);
      assert bs == [b] + bs[1..];
    }
  }

  lemma EncodeCharDecode(c: char, t: string)
    ensures PercentDecode(EncodeChar(c) + t) == Utf8(c) + PercentDecode(t)
  {
    var s := EncodeChar(c) + t;
    if IsUnreserved(c) {
      assert s[0] == c && s[1..] == t;
    } else if c == ' ' {
      assert s[0] == '+' && s[1..] == t;
    } else {
      PercentBytesDecode(Utf8(c), t);
    }
  }

  /** Percent-decoding an encoded string gives its UTF-8 bytes. */
  lemma {:induction false} PercentRoundTrip(s: string)
    ensures PercentDecode(Encode(s)) == Utf8Encode(s)
  {
    if s != [] {
      PercentRoundTrip(s[1..]);
      EncodeCharDecode(s[0], Encode(s[1..]));
    }
  }

  /** How the parser reads back a name or a value. */
  function DecodeComponent(s: string): Option<string> {
    Utf8Decode(PercentDecode(s))
  }

  /** Every name and value comes back as it was. */
  lemma ComponentRoundTrip(s: string)
    ensures DecodeComponent(Encode(s)) == Some(s)
  {
    PercentRoundTrip(s);
    Utf8RoundTrip(s);
  }

  // ---------------------------------------------------------------------
  // Pairs

  /** One `name=value` pair as written. */
  function Pair(p: (string, string)): string {
    Encode(p.0) + "=" + Encode(p.1)
  }

  function Pieces(pairs: seq<(string, string)>): (ps: seq<string>)
    ensures |ps| == |pairs|
    ensures forall k :: 0 <= k < |ps| ==> ps[k] == Pair(pairs[k])
  {
    seq(|pairs|, k requires 0 <= k < |pairs| => Pair(pairs[k]))
  }

  /** `URLSearchParams.prototype.toString()` of a list of pairs. */
  function Serialize(pairs: seq<(string, string)>): string {
    Join(Pieces(pairs), '&')
  }

  /** A piece splits at its first `=` into name and value. */
  function SplitPair(piece: string): (string, string) {
    var i := FirstIndex(piece, '=');
    if i < 0 then (piece, "") else (piece[..i], piece[i + 1..])
  }

  /** The parser's handling of the `&`-separated pieces: empty pieces are
      skipped, each other piece gives one pair. */
  function ParsePieces(pieces: seq<string>): Option<seq<(string, string)>> {
    if pieces == [] then Some([])
    else if pieces[0] == "" then ParsePieces(pieces[1..])
    else
      var (name, value) := SplitPair(pieces[0]);
      var n, v, rest := DecodeComponent(name), DecodeComponent(value), ParsePieces(pieces[1..]);
      if n.Some? && v.Some? && rest.Some? then Some([(n.value, v.value)] + rest.value) else None
  }

  /** `new URLSearchParams(query)` read back as a list of pairs. */
  function Parse(query: string): Option<seq<(string, string)>> {
    ParsePieces(Split(query, '&'))
  }

  lemma SplitPairOfPair(p: (string, string))
    ensures SplitPair(Pair(p)) == (Encode(p.0), Encode(p.1))
  {
    var a, b := Encode(p.0), Encode(p.1);
    var s := a + "=" + b;
    assert s[|a|] == '=' && s[..|a|] == a;
    var i := FirstIndex(s, '=');
    assert i == |a|;
    assert s[i + 1..] == b;
  }

  lemma PairHasNoAmpersand(p: (string, string))
    ensures '&' !in Pair(p)
  {
    var e0, e1 := Encode(p.0), Encode(p.1);
    assert '&' !in e0 && '&' !in e1;
    assert Pair(p) == e0 + "=" + e1;
  }

  lemma {:induction false} ParsePiecesRoundTrip(pairs: seq<(string, string)>)
    ensures ParsePieces(Pieces(pairs)) == Some(pairs)
  {
    if pairs != [] {
      var ps := Pieces(pairs);
      assert ps[1..] == Pieces(pairs[1..]);
      assert |ps[0]| > 0 by { assert |Pair(pairs[0])| >= 1; }
      SplitPairOfPair(pairs[0]);
      ComponentRoundTrip(pairs[0].0);
      ComponentRoundTrip(pairs[0].1);
      ParsePiecesRoundTrip(pairs[1..]);
      assert pairs == [(pairs[0].0, pairs[0].1)] + pairs[1..];
    }
  }

  /** Parsing a serialized list gives the list back: names and values keep
      their text and the pairs their number and order. */
  lemma SerializeRoundTrip(pairs: seq<(string, string)>)
    ensures Parse(Serialize(pairs)) == Some(pairs)
  {
    var ps := Pieces(pairs);
    if pairs == [] {
      assert Split("", '&') == [""];
    } else {
      forall p | p in ps ensures '&' !in p {
        var k :| 0 <= k < |ps| && ps[k] == p;
        PairHasNoAmpersand(pairs[k]);
      }
      SplitJoin(ps, '&');
    }
    ParsePiecesRoundTrip(pairs);
  }

  /** The query string is empty exactly when there are no pairs. */
  lemma SerializeEmptyIff(pairs: seq<(string, string)>)
    ensures Serialize(pairs) == "" <==> pairs == []
  {
    if pairs != [] {
      var ps := Pieces(pairs);
      assert |ps[0]| > 0 by { assert |Pair(pairs[0])| >= 1; }
      if |ps| > 1 {
        assert Join(ps, '&') == ps[0] + ['&'] + Join(ps[1..], '&');
      }
    }
  }
}
