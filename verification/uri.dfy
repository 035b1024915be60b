/** `encodeURIComponent`, as section 19.2.6.5 of ECMA-262 defines it: a
    character of the unreserved set `A-Z a-z 0-9 - _ . ! ~ * ' ( )` stays as
    it is, and any other character is replaced by its UTF-8 bytes, each
    written `%XY` in upper-case hexadecimal.

    Beside it stand the two decodings that undo it: percent-decoding to
    bytes, and UTF-8 decoding of the bytes to code points. They show that the
    encoding loses nothing, so that distinct strings are encoded apart. */
module Uri {
  import opened Options

  predicate Unreserved(c: char) {
    'A' <= c <= 'Z' || 'a' <= c <= 'z' || '0' <= c <= '9'
    || c == '-' || c == '_' || c == '.' || c == '!' || c == '~'
    || c == '*' || c == '\'' || c == '(' || c == ')'
  }

  predicate IsHex(c: char) { '0' <= c <= '9' || 'A' <= c <= 'F' }

  predicate Bytes(bs: seq<nat>) {
    forall i :: 0 <= i < |bs| ==> bs[i] < 256
  }

  /** The upper-case hexadecimal digit of `d`. */
  function HexDigit(d: nat): (c: char)
    requires d < 16
    ensures IsHex(c) && Unreserved(c)
  {
    if d < 10 then ('0' as int + d) as char else ('A' as int + d - 10) as char
  }

  /** The value of a hexadecimal digit. */
  function HexValue(c: char): (d: nat)
    requires IsHex(c)
    ensures d < 16 && HexDigit(d) == c
  {
    if c <= '9' then c as int - '0' as int else c as int - 'A' as int + 10
  }

  lemma HexRoundTrip(d: nat)
    requires d < 16
    ensures HexValue(HexDigit(d)) == d
  {
  }

  /** The UTF-8 bytes of a character: one below 0x80, then two, three and
      four bytes, each continuation byte carrying six bits. */
  function Utf8(c: char): (r: seq<nat>)
    ensures 1 <= |r| <= 4 && Bytes(r)
    ensures |r| == 1 <==> c as int < 0x80
    ensures |r| == 1 ==> r[0] == c as int
  {
    var n := c as int;
    if n < 0x80 then [n]
    else if n < 0x800 then [0xC0 + n / 64, 0x80 + n % 64]
    else if n < 0x10000 then [0xE0 + n / 4096, 0x80 + n / 64 % 64, 0x80 + n % 64]
    else [0xF0 + n / 0x40000, 0x80 + n / 4096 % 64, 0x80 + n / 64 % 64, 0x80 + n % 64]
  }

  /** The UTF-8 bytes of a string. */
  function Utf8Of(s: string): (r: seq<nat>)
    ensures Bytes(r)
  {
    if s == [] then [] else Utf8(s[0]) + Utf8Of(s[1..])
  }

  /** Each byte as `%` and two hexadecimal digits. */
  function PercentBytes(bs: seq<nat>): (r: string)
    requires Bytes(bs)
    ensures |r| == 3 * |bs|
    ensures forall i :: 0 <= i < |r| ==> r[i] == '%' || Unreserved(r[i])
  {
    if bs == [] then [] else ['%', HexDigit(bs[0] / 16), HexDigit(bs[0] % 16)] + PercentBytes(bs[1..])
  }

  function EscapeChar(c: char): string {
    if Unreserved(c) then [c] else PercentBytes(Utf8(c))
  }

  /** `encodeURIComponent(s)`: the result holds only unreserved characters
      and `%`, so none of `&`, `=`, `#`, `?`, `/` or `+`; it is as long as
      `s` exactly when `s` is all unreserved, and is then `s` itself. */
  function EncodeURIComponent(s: string): (r: string)
    ensures forall i :: 0 <= i < |r| ==> Unreserved(r[i]) || r[i] == '%'
    ensures |r| >= |s|
    ensures |r| == |s| <==> forall i :: 0 <= i < |s| ==> Unreserved(s[i])
    ensures (forall i :: 0 <= i < |s| ==> Unreserved(s[i])) ==> r == s
  {
    if s == [] then [] else EscapeChar(s[0]) + EncodeURIComponent(s[1..])
  }

  /** Percent-decoding: `%XY` is the byte `XY`, any other character its own
      code; a `%` without two hexadecimal digits after it fails. */
  function PercentDecode(s: string): (r: Option<seq<nat>>)
  {
    if s == [] then Some([])
    else if s[0] == '%' then
      if |s| < 3 || !IsHex(s[1]) || !IsHex(s[2]) then None
      else
        match PercentDecode(s[3..])
        case None => None
        case Some(rest) => Some([HexValue(s[1]) * 16 + HexValue(s[2])] + rest)
    else
      match PercentDecode(s[1..])
      case None => None
      case Some(rest) => Some([s[0] as int] + rest)
  }

  /** The length of a UTF-8 sequence, read from its first byte. */
  function SequenceLength(lead: nat): nat {
    if lead < 0x80 then 1 else if lead < 0xE0 then 2 else if lead < 0xF0 then 3 else 4
  }

  /** The code point a UTF-8 sequence carries. */
  function CodePoint(bs: seq<nat>): int
    requires 1 <= |bs| <= 4
  {
    var b := seq(|bs|, i requires 0 <= i < |bs| => bs[i] as int);
    if |bs| == 1 then b[0]
    else if |bs| == 2 then (b[0] - 0xC0) * 64 + (b[1] - 0x80)
    else if |bs| == 3 then (b[0] - 0xE0) * 4096 + (b[1] - 0x80) * 64 + (b[2] - 0x80)
    else (b[0] - 0xF0) * 0x40000 + (b[1] - 0x80) * 4096 + (b[2] - 0x80) * 64 + (b[3] - 0x80)
  }

  /** UTF-8 decoding to code points; a sequence cut short fails. */
  function Utf8Decode(bs: seq<nat>): (r: Option<seq<int>>)
    decreases |bs|
  {
    if bs == [] then Some([])
    else
      var k := SequenceLength(bs[0]);
      if |bs| < k then None
      else
        match Utf8Decode(bs[k..])
        case None => None
        case Some(rest) => Some([CodePoint(bs[..k])] + rest)
  }

  function CodePoints(s: string): (r: seq<int>)
    ensures |r| == |s|
    ensures forall i :: 0 <= i < |s| ==> r[i] == s[i] as int
  {
    if s == [] then [] else [s[0] as int] + CodePoints(s[1..])
  }

  /** A character's UTF-8 bytes announce their own length and carry its
      code point. */
  lemma Utf8Char(c: char)
    ensures SequenceLength(Utf8(c)[0]) == |Utf8(c)|
    ensures CodePoint(Utf8(c)) == c as int
  {
    var n := c as int;
    if 0x800 <= n < 0x10000 {
      assert n / 64 == n / 4096 * 64 + n / 64 % 64;
    } else if 0x10000 <= n {
      assert n / 64 == n / 4096 * 64 + n / 64 % 64;
      assert n / 4096 == n / 0x40000 * 64 + n / 4096 % 64;
    }
  }

  /** Percent-decoding reads escaped bytes back. */
  lemma {:induction false} DecodePercentBytes(bs: seq<nat>, rest: string)
    requires Bytes(bs)
    ensures PercentDecode(rest).None? ==> PercentDecode(PercentBytes(bs) + rest).None?
    ensures PercentDecode(rest).Some? ==>
      PercentDecode(PercentBytes(bs) + rest) == Some(bs + PercentDecode(rest).value)
  {
    if bs == [] {
      assert PercentBytes(bs) + rest == rest;
      if PercentDecode(rest).Some? {
        assert bs + PercentDecode(rest).value == PercentDecode(rest).value;
      }
    } else {
      var s := PercentBytes(bs) + rest;
      assert s[3..] == PercentBytes(bs[1..]) + rest;
      DecodePercentBytes(bs[1..], rest);
      assert s[0] == '%' && s[1] == HexDigit(bs[0] / 16) && s[2] == HexDigit(bs[0] % 16);
      HexRoundTrip(bs[0] / 16);
      HexRoundTrip(bs[0] % 16);
      if PercentDecode(rest).Some? {
        assert [bs[0]] + (bs[1..] + PercentDecode(rest).value) == bs + PercentDecode(rest).value;
      }
    }
  }

  /** Percent-decoding an encoded string gives its UTF-8 bytes. */
  lemma {:induction false} DecodeEncoded(s: string)
    ensures PercentDecode(EncodeURIComponent(s)) == Some(Utf8Of(s))
  {
    if s != [] {
      var tail := EncodeURIComponent(s[1..]);
      DecodeEncoded(s[1..]);
      if Unreserved(s[0]) {
        assert ([s[0]] + tail)[1..] == tail;
      } else {
        DecodePercentBytes(Utf8(s[0]), tail);
      }
    }
  }

  /** UTF-8 decoding the bytes of a string gives its code points. */
  lemma {:induction false} DecodeUtf8Of(s: string)
    ensures Utf8Decode(Utf8Of(s)) == Some(CodePoints(s))
  {
    if s != [] {
      var u := Utf8(s[0]);
      var bs := Utf8Of(s);
      Utf8Char(s[0]);
      assert bs[0] == u[0];
      assert bs[|u|..] == Utf8Of(s[1..]);
      assert bs[..|u|] == u;
      DecodeUtf8Of(s[1..]);
    }
  }

  /** Decoding undoes the encoding: percent-decoding, then UTF-8 decoding,
      of `encodeURIComponent(s)` gives the code points of `s`. */
  lemma EncodeDecode(s: string)
    ensures PercentDecode(EncodeURIComponent(s)).Some?
    ensures Utf8Decode(PercentDecode(EncodeURIComponent(s)).value) == Some(CodePoints(s))
  {
    DecodeEncoded(s);
    DecodeUtf8Of(s);
  }

  /** Distinct strings are encoded apart. */
  lemma EncodeInjective(s: string, t: string)
    requires EncodeURIComponent(s) == EncodeURIComponent(t)
    ensures s == t
  {
    EncodeDecode(s);
    EncodeDecode(t);
    assert CodePoints(s) == CodePoints(t);
    assert forall i :: 0 <= i < |s| ==> s[i] == t[i];
  }
}
