/**
  * ECMAScript `encodeURIComponent` and the decoding that a server applies to
  * an `application/x-www-form-urlencoded` value (Appendix B of RFC 6749):
  * percent-escapes (and `+` for a space) to UTF-8 bytes, then UTF-8 to text.
  */
module UriEncoding {
  import opened Wrappers

  type Byte = b: int | 0 <= b < 256

  /** The characters `encodeURIComponent` leaves as they are (uriAlpha, DecimalDigit, uriMark). */
  predicate IsUnreserved(c: char) {
    ('A' <= c <= 'Z') || ('a' <= c <= 'z') || ('0' <= c <= '9') ||
    c == '-' || c == '_' || c == '.' || c == '!' || c == '~' || c == '*' || c == '\'' || c == '(' || c == ')'
  }

  predicate IsUpperHex(c: char) {
    ('0' <= c <= '9') || ('A' <= c <= 'F')
  }

  /** What can appear in the output of `encodeURIComponent`. */
  predicate IsEncodedChar(c: char) {
    IsUnreserved(c) || c == '%' || IsUpperHex(c)
  }

  /** The UTF-8 encoding of one Unicode scalar value. */
  function Utf8(c: char): (bytes: seq<Byte>)
    ensures 1 <= |bytes| <= 4
  {
    var n := c as int;
    if n < 0x80 then [n]
    else if n < 0x800 then [0xC0 + n / 64, 0x80 + n % 64]
    else if n < 0x1_0000 then [0xE0 + n / 4096, 0x80 + (n / 64) % 64, 0x80 + n % 64]
    else [0xF0 + n / 262144, 0x80 + (n / 4096) % 64, 0x80 + (n / 64) % 64, 0x80 + n % 64]
  }

  function Utf8Bytes(s: string): seq<Byte>
    decreases |s|
  {
    if s == [] then [] else Utf8(s[0]) + Utf8Bytes(s[1..])
  }

  function HexDigit(d: nat): (c: char)
    requires d < 16
    ensures IsUpperHex(c)
  {
    if d < 10 then ('0' as int + d) as char else ('A' as int + d - 10) as char
  }

  /** A hexadecimal digit's value; lower-case digits are accepted as decoders do. */
  function HexValue(c: char): nat
  {
    if '0' <= c <= '9' then c as int - '0' as int
    else if 'A' <= c <= 'F' then c as int - 'A' as int + 10
    else if 'a' <= c <= 'f' then c as int - 'a' as int + 10
    else 0
  }

  predicate IsHex(c: char) {
    ('0' <= c <= '9') || ('A' <= c <= 'F') || ('a' <= c <= 'f')
  }

  /** `%XY` with upper-case hexadecimal digits. */
  function PercentByte(b: Byte): (s: string)
    ensures |s| == 3 && s[0] == '%' && forall i :: 0 <= i < 3 ==> IsEncodedChar(s[i])
  {
    ['%', HexDigit(b / 16), HexDigit(b % 16)]
  }

  function PercentBytes(bytes: seq<Byte>): (s: string)
    ensures forall i :: 0 <= i < |s| ==> IsEncodedChar(s[i])
    decreases |bytes|
  {
    if bytes == [] then [] else PercentByte(bytes[0]) + PercentBytes(bytes[1..])
  }

  function EncodeChar(c: char): string {
    if IsUnreserved(c) then [c] else PercentBytes(Utf8(c))
  }

  /** `encodeURIComponent(s)` for a string of Unicode scalar values. */
  function EncodeURIComponent(s: string): (r: string)
    ensures forall i :: 0 <= i < |r| ==> IsEncodedChar(r[i])
    decreases |s|
  {
    if s == [] then [] else EncodeChar(s[0]) + EncodeURIComponent(s[1..])
  }

  /** The encoded text never holds the form delimiters `&` and `=`, nor `+`, which a form decoder reads as a space. */
  lemma EncodedHasNoDelimiters(s: string)
    ensures '&' !in EncodeURIComponent(s) && '=' !in EncodeURIComponent(s) && '+' !in EncodeURIComponent(s)
  {
    var r := EncodeURIComponent(s);
    forall i | 0 <= i < |r| ensures r[i] != '&' && r[i] != '=' && r[i] != '+' {
      assert IsEncodedChar(r[i]);
    }
  }

  function Prepend(bytes: seq<Byte>, rest: Option<seq<Byte>>): Option<seq<Byte>> {
    match rest
    case None => None
    case Some(r) => Some(bytes + r)
  }

  /**
    * Percent-decoding of a form value to bytes: `%XY` is one byte, `+` is a
    * space, any other character stands for its own UTF-8 bytes; a `%` without
    * two hexadecimal digits after it is malformed.
    */
  function PercentDecode(s: string): Option<seq<Byte>>
    decreases |s|
  {
    if s == [] then Some([])
    else if s[0] == '%' then
      if |s| >= 3 && IsHex(s[1]) && IsHex(s[2]) then Prepend([HexValue(s[1]) * 16 + HexValue(s[2])], PercentDecode(s[3..]))
      else None
    else if s[0] == '+' then Prepend([0x20], PercentDecode(s[1..]))
    else Prepend(Utf8(s[0]), PercentDecode(s[1..]))
  }

  predicate IsContinuation(b: Byte) {
    0x80 <= b < 0xC0
  }

  /** How many bytes a well-formed UTF-8 sequence starting with `lead` has; 0 for a byte no sequence starts with. */
  function SequenceLength(lead: Byte): nat {
    if lead < 0x80 then 1
    else if 0xC2 <= lead < 0xE0 then 2
    else if 0xE0 <= lead < 0xF0 then 3
    else if 0xF0 <= lead < 0xF5 then 4
    else 0
  }

  predicate IsScalar(n: int) {
    (0 <= n < 0xD800) || (0xE000 <= n < 0x11_0000)
  }

  /** One UTF-8 sequence of 1 to 4 bytes to its scalar value; `None` for an overlong, surrogate or out-of-range one. */
  function DecodeSequence(bytes: seq<Byte>): Option<char>
    requires 1 <= |bytes| <= 4
  {
    if |bytes| == 1 then
      if bytes[0] < 0x80 then Some(bytes[0] as char) else None
    else if exists i :: 1 <= i < |bytes| && !IsContinuation(bytes[i]) then None
    else
      var n := ScalarOf(bytes);
      var least := if |bytes| == 2 then 0x80 else if |bytes| == 3 then 0x800 else 0x1_0000;
      if least <= n && IsScalar(n) then Some(n as char) else None
  }

  /** The payload bits of a multi-byte sequence: six from each continuation byte, the rest from the lead byte. */
  function ScalarOf(bytes: seq<Byte>): int
    requires 2 <= |bytes| <= 4
  {
    var b0, b1 := bytes[0] as int, bytes[1] as int - 0x80;
    if |bytes| == 2 then (b0 - 0xC0) * 64 + b1
    else if |bytes| == 3 then (b0 - 0xE0) * 4096 + b1 * 64 + (bytes[2] as int - 0x80)
    else (b0 - 0xF0) * 262144 + b1 * 4096 + (bytes[2] as int - 0x80) * 64 + (bytes[3] as int - 0x80)
  }

  /** Strict UTF-8 decoding. */
  function Utf8Decode(bytes: seq<Byte>): Option<string>
    decreases |bytes|
  {
    if bytes == [] then Some([])
    else
      var k := SequenceLength(bytes[0]);
      if k == 0 || |bytes| < k then None
      else match DecodeSequence(bytes[..k])
        case None => None
        case Some(c) =>
          match Utf8Decode(bytes[k..])
          case None => None
          case Some(rest) => Some([c] + rest)
  }

  /** How a server reads one form value back: percent-decoding, then UTF-8. */
  function FormDecode(s: string): Option<string> {
    match PercentDecode(s)
    case None => None
    case Some(bytes) => Utf8Decode(bytes)
  }

  /** The encoding of one scalar value starts with a lead byte announcing its length, and decodes back to it. */
  lemma Utf8Sequence(c: char)
    ensures SequenceLength(Utf8(c)[0]) == |Utf8(c)|
    ensures DecodeSequence(Utf8(c)) == Some(c)
  {
    var n := c as int;
    if n < 0x80 {
    } else if n < 0x800 {
      Utf8Two(c);
    } else if n < 0x1_0000 {
      Utf8Three(c);
    } else {
      Utf8Four(c);
    }
  }

  lemma Utf8Two(c: char)
    requires 0x80 <= c as int < 0x800
    ensures SequenceLength(Utf8(c)[0]) == 2 && DecodeSequence(Utf8(c)) == Some(c)
  {
    var n := c as int;
    var q, r := n / 64, n % 64;
    assert n == q * 64 + r && 0 <= r < 64 && 2 <= q < 32;
    var bytes := Utf8(c);
    assert bytes == [0xC0 + q, 0x80 + r];
    assert ScalarOf(bytes) == n;
  }

  lemma Utf8Three(c: char)
    requires 0x800 <= c as int < 0x1_0000
    ensures SequenceLength(Utf8(c)[0]) == 3 && DecodeSequence(Utf8(c)) == Some(c)
  {
    var n := c as int;
    var m := n / 64;
    var q, r1, r0 := m / 64, m % 64, n % 64;
    assert n == m * 64 + r0 && 0 <= r0 < 64;
    assert m == q * 64 + r1 && 0 <= r1 < 64;
    assert n / 4096 == q by {
      assert n == q * 4096 + (r1 * 64 + r0) && 0 <= r1 * 64 + r0 < 4096;
    }
    assert q < 16;
    var bytes := Utf8(c);
    assert bytes == [0xE0 + q, 0x80 + r1, 0x80 + r0];
    assert ScalarOf(bytes) == q * 4096 + r1 * 64 + r0 == n;
  }

  lemma Utf8Four(c: char)
    requires 0x1_0000 <= c as int
    ensures SequenceLength(Utf8(c)[0]) == 4 && DecodeSequence(Utf8(c)) == Some(c)
  {
    var n := c as int;
    assert n < 0x11_0000;
    var m := n / 64;
    var k := m / 64;
    var q, r2, r1, r0 := k / 64, k % 64, m % 64, n % 64;
    assert n == m * 64 + r0 && 0 <= r0 < 64;
    assert m == k * 64 + r1 && 0 <= r1 < 64;
    assert k == q * 64 + r2 && 0 <= r2 < 64;
    assert n / 4096 == k by {
      assert n == k * 4096 + (r1 * 64 + r0) && 0 <= r1 * 64 + r0 < 4096;
    }
    assert n / 262144 == q by {
      assert n == q * 262144 + (r2 * 4096 + r1 * 64 + r0) && 0 <= r2 * 4096 + r1 * 64 + r0 < 262144;
    }
    assert 0 <= q < 5;
    var bytes := Utf8(c);
    assert bytes == [0xF0 + q, 0x80 + r2, 0x80 + r1, 0x80 + r0];
    assert ScalarOf(bytes) == q * 262144 + r2 * 4096 + r1 * 64 + r0 == n;
  }

  /** UTF-8 decoding inverts UTF-8 encoding. */
  lemma {:induction false} Utf8RoundTrip(s: string)
    ensures Utf8Decode(Utf8Bytes(s)) == Some(s)
    decreases |s|
  {
    if s != [] {
      var head := Utf8(s[0]);
      var bytes := Utf8Bytes(s);
      Utf8Sequence(s[0]);
      Utf8RoundTrip(s[1..]);
      assert bytes[..|head|] == head;
      assert bytes[|head|..] == Utf8Bytes(s[1..]);
      assert [s[0]] + s[1..] == s;
    }
  }

  /** The two hexadecimal digits of a byte read back as the byte. */
  lemma HexRoundTrip(b: Byte)
    ensures IsHex(HexDigit(b / 16)) && IsHex(HexDigit(b % 16))
    ensures HexValue(HexDigit(b / 16)) * 16 + HexValue(HexDigit(b % 16)) == b
  {
  }

  /** One `%XY` escape followed by `t` decodes to its byte followed by what `t` decodes to. */
  lemma PercentByteDecode(b: Byte, t: string)
    ensures PercentDecode(PercentByte(b) + t) == Prepend([b], PercentDecode(t))
  {
    var s := PercentByte(b) + t;
    HexRoundTrip(b);
    assert s[0] == '%' && s[1] == HexDigit(b / 16) && s[2] == HexDigit(b % 16);
    assert s[3..] == t;
  }

  /** Prepending bytes in two steps is prepending them at once. */
  lemma PrependTwice(a: seq<Byte>, b: seq<Byte>, d: Option<seq<Byte>>)
    ensures Prepend(a, Prepend(b, d)) == Prepend(a + b, d)
  {
    match d
    case None =>
    case Some(r) => assert a + (b + r) == (a + b) + r;
  }

  /** The escapes of some bytes are the escape of the first byte, then the escapes of the rest. */
  lemma PercentBytesHead(bytes: seq<Byte>, t: string)
    requires bytes != []
    ensures PercentBytes(bytes) + t == PercentByte(bytes[0]) + (PercentBytes(bytes[1..]) + t)
  {
  }

  /** Percent-decoding `%XY` escapes for some bytes, followed by `t`, gives those bytes followed by what `t` decodes to. */
  lemma {:induction false} PercentBytesDecode(bytes: seq<Byte>, t: string)
    ensures PercentDecode(PercentBytes(bytes) + t) == Prepend(bytes, PercentDecode(t))
    decreases |bytes|
  {
    if bytes == [] {
      assert PercentBytes(bytes) + t == t;
      match PercentDecode(t)
      case None =>
      case Some(r) => assert bytes + r == r;
    } else {
      var rest := PercentBytes(bytes[1..]) + t;
      PercentBytesHead(bytes, t);
      PercentByteDecode(bytes[0], rest);
      PercentBytesDecode(bytes[1..], t);
      PrependTwice([bytes[0]], bytes[1..], PercentDecode(t));
      assert [bytes[0]] + bytes[1..] == bytes;
    }
  }

  /** Percent-decoding the encoding of `s` gives the UTF-8 bytes of `s`. */
  lemma {:induction false} PercentDecodeEncoded(s: string)
    ensures PercentDecode(EncodeURIComponent(s)) == Some(Utf8Bytes(s))
    decreases |s|
  {
    if s != [] {
      var c := s[0];
      var t := EncodeURIComponent(s[1..]);
      PercentDecodeEncoded(s[1..]);
      if IsUnreserved(c) {
        assert (EncodeChar(c) + t)[1..] == t;
      } else {
        PercentBytesDecode(Utf8(c), t);
      }
    }
  }

  /** A form decoder recovers exactly the string `encodeURIComponent` was given. */
  lemma FormDecodeEncoded(s: string)
    ensures FormDecode(EncodeURIComponent(s)) == Some(s)
  {
    PercentDecodeEncoded(s);
    Utf8RoundTrip(s);
  }
}
