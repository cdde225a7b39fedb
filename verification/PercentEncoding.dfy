/** Text in a cache key: encodeSegmentText of keys.ts, over UTF-8 and section 2.1 of RFC 3986. */
module PercentEncoding {
  import opened Common
  import opened Text

  // ---- UTF-8

  type Byte = b: int | 0 <= b < 256

  predicate Scalar(n: int) {
    0 <= n < 0xD800 || 0xE000 <= n < 0x110000
  }

  /** The code point of a character. */
  function Code(c: char): (n: int)
    ensures Scalar(n)
  {
    c as int
  }

  function Utf8Char(n: int): seq<Byte>
    requires Scalar(n)
  {
    if n < 0x80 then [n]
    else if n < 0x800 then [0xC0 + n / 64, 0x80 + n % 64]
    else if n < 0x10000 then [0xE0 + n / 4096, 0x80 + n / 64 % 64, 0x80 + n % 64]
    else [0xF0 + n / 262144, 0x80 + n / 4096 % 64, 0x80 + n / 64 % 64, 0x80 + n % 64]
  }

  function Utf8(s: string): seq<Byte> {
    if s == "" then [] else Utf8Char(Code(s[0])) + Utf8(s[1..])
  }

  /** How many bytes a leading byte announces. */
  function Width(lead: Byte): nat {
    if lead < 0x80 then 1 else if lead < 0xE0 then 2 else if lead < 0xF0 then 3 else 4
  }

  function Point(bytes: seq<Byte>): int
    requires |bytes| > 0 && Width(bytes[0]) <= |bytes|
  {
    var b: int := bytes[0];
    if b < 0x80 then b
    else if b < 0xE0 then (b - 0xC0) * 64 + Low(bytes[1])
    else if b < 0xF0 then (b - 0xE0) * 4096 + Low(bytes[1]) * 64 + Low(bytes[2])
    else (b - 0xF0) * 262144 + Low(bytes[1]) * 4096 + Low(bytes[2]) * 64 + Low(bytes[3])
  }

  /** The bits of a byte that continues a character. */
  function Low(b: Byte): int {
    b as int - 0x80
  }

  /** None for bytes that are not the UTF-8 of a text. */
  function FromUtf8(bytes: seq<Byte>): Option<string>
    decreases |bytes|
  {
    if bytes == [] then Some("")
    else if |bytes| < Width(bytes[0]) || !Scalar(Point(bytes)) then None
    else
      var rest := FromUtf8(bytes[Width(bytes[0])..]);
      if rest.None? then None else Some([Point(bytes) as char] + rest.value)
  }

  lemma PointOfChar(n: int)
    requires Scalar(n)
    ensures var bytes := Utf8Char(n);
            |bytes| == Width(bytes[0]) && Point(bytes) == n
  {
    SixBits(n);
    SixBits(n / 64);
    SixBits(n / 4096);
    assert n / 64 / 64 == n / 4096 && n / 4096 / 64 == n / 262144;
  }

  lemma SixBits(n: int)
    requires n >= 0
    ensures n == n / 64 * 64 + n % 64 && 0 <= n % 64 < 64
  {
  }

  lemma FirstPoint(n: int, rest: seq<Byte>)
    requires Scalar(n)
    ensures var bytes := Utf8Char(n) + rest;
            |bytes| >= Width(bytes[0]) && Point(bytes) == n && bytes[Width(bytes[0])..] == rest
  {
    PointOfChar(n);
    var bytes := Utf8Char(n) + rest;
    assert forall i :: 0 <= i < |Utf8Char(n)| ==> bytes[i] == Utf8Char(n)[i];
  }

  lemma {:induction false} Utf8RoundTrip(s: string)
    ensures FromUtf8(Utf8(s)) == Some(s)
  {
    if s != "" {
      Utf8RoundTrip(s[1..]);
      FirstPoint(Code(s[0]), Utf8(s[1..]));
      assert s == [s[0]] + s[1..];
    }
  }

  // ---- Percent-encoding

  /** What encodeURIComponent leaves alone, less `_` and `*`. */
  predicate Unreserved(c: char) {
    'A' <= c <= 'Z' || 'a' <= c <= 'z' || '0' <= c <= '9' || c in "-.!~'()"
  }

  const HEX := "0123456789ABCDEF"

  function Escape(b: Byte): string {
    ['%', HEX[b / 16], HEX[b % 16]]
  }

  function EscapeAll(bytes: seq<Byte>): string {
    if bytes == [] then "" else Escape(bytes[0]) + EscapeAll(bytes[1..])
  }

  function EncodeChar(c: char): string {
    if Unreserved(c) then [c] else EscapeAll(Utf8Char(Code(c)))
  }

  function Encode(s: string): string {
    if s == "" then "" else EncodeChar(s[0]) + Encode(s[1..])
  }

  /** decodeURIComponent's bytes: an escape is its byte, another character its own UTF-8. */
  function Unescape(s: string): seq<Byte>
    decreases |s|
  {
    if s == "" then []
    else if s[0] == '%' && |s| >= 3 && DigitValue(s[1]) < 16 && DigitValue(s[2]) < 16 then
      [DigitValue(s[1]) * 16 + DigitValue(s[2])] + Unescape(s[3..])
    else Utf8Char(Code(s[0])) + Unescape(s[1..])
  }

  function Decode(s: string): Option<string> {
    FromUtf8(Unescape(s))
  }

  lemma HexDigit(d: nat)
    requires d < 16
    ensures DigitValue(HEX[d]) == d && Unreserved(HEX[d])
  {
  }

  lemma UnescapeByte(b: Byte, rest: string)
    ensures Unescape(Escape(b) + rest) == [b] + Unescape(rest)
  {
    HexDigit(b / 16);
    HexDigit(b % 16);
    var s := Escape(b) + rest;
    assert s[0] == '%' && s[1] == HEX[b / 16] && s[2] == HEX[b % 16] && s[3..] == rest;
  }

  lemma {:induction false} UnescapeBytes(bytes: seq<Byte>, rest: string)
    ensures Unescape(EscapeAll(bytes) + rest) == bytes + Unescape(rest)
  {
    if bytes == [] {
      assert EscapeAll(bytes) + rest == rest;
    } else {
      UnescapeBytes(bytes[1..], rest);
      var tail := EscapeAll(bytes[1..]) + rest;
      assert EscapeAll(bytes) + rest == Escape(bytes[0]) + tail by {
        AppendAssociates(Escape(bytes[0]), EscapeAll(bytes[1..]), rest);
      }
      UnescapeByte(bytes[0], tail);
      HeadAndTail(bytes, Unescape(rest));
    }
  }

  lemma HeadAndTail(bytes: seq<Byte>, rest: seq<Byte>)
    requires bytes != []
    ensures [bytes[0]] + (bytes[1..] + rest) == bytes + rest
  {
  }

  lemma {:induction false} UnescapeEncoded(s: string)
    ensures Unescape(Encode(s)) == Utf8(s)
  {
    if s != "" {
      UnescapeEncoded(s[1..]);
      if Unreserved(s[0]) {
        assert Encode(s)[1..] == Encode(s[1..]);
      } else {
        UnescapeBytes(Utf8Char(Code(s[0])), Encode(s[1..]));
      }
    }
  }

  /** Decoding undoes encoding, for every text. */
  lemma DecodeOfEncode(s: string)
    ensures Decode(Encode(s)) == Some(s)
  {
    UnescapeEncoded(s);
    Utf8RoundTrip(s);
  }

  lemma EncodeInjective(s: string, t: string)
    requires Encode(s) == Encode(t)
    ensures s == t
  {
    DecodeOfEncode(s);
    DecodeOfEncode(t);
  }

  predicate SafeChar(c: char) {
    Unreserved(c) || c == '%'
  }

  predicate Safe(s: string) {
    forall i :: 0 <= i < |s| ==> SafeChar(s[i])
  }

  lemma SafeAppend(s: string, t: string)
    requires Safe(s) && Safe(t)
    ensures Safe(s + t)
  {
  }

  lemma {:induction false} EscapesAreSafe(bytes: seq<Byte>)
    ensures Safe(EscapeAll(bytes))
  {
    if bytes != [] {
      EscapesAreSafe(bytes[1..]);
      HexDigit(bytes[0] / 16);
      HexDigit(bytes[0] % 16);
      SafeAppend(Escape(bytes[0]), EscapeAll(bytes[1..]));
    }
  }

  /** An encoded text has no `:`, no `_` and no `*`. */
  lemma {:induction false} EncodedIsSafe(s: string)
    ensures Safe(Encode(s)) && ':' !in Encode(s) && '_' !in Encode(s) && '*' !in Encode(s)
    ensures s != "" ==> Encode(s) != ""
  {
    if s != "" {
      EncodedIsSafe(s[1..]);
      EscapesAreSafe(Utf8Char(Code(s[0])));
      SafeAppend(EncodeChar(s[0]), Encode(s[1..]));
    }
  }

  /** A plain word, such as an id, comes out unchanged. */
  predicate Plain(s: string) {
    s != "" && forall i :: 0 <= i < |s| ==> Unreserved(s[i])
  }

  lemma {:induction false} PlainUnchanged(s: string)
    requires forall i :: 0 <= i < |s| ==> Unreserved(s[i])
    ensures Encode(s) == s
  {
    if s != "" {
      PlainUnchanged(s[1..]);
    }
  }
}
