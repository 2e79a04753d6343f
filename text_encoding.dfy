/**
 * The text encodings the view model relies on when it builds a `personal_sign`
 * request: Kotlin's `String.encodeToByteArray()` (UTF-8), the view model's
 * `ByteArray.toHex()` (two lower-case hex digits per byte) and the decimal
 * rendering of a `Long` inside a string template. Each encoder is paired with
 * a decoder and a round-trip lemma.
 */
module TextEncoding {
  import opened Wrappers

  /** A Kotlin `Byte`: a signed 8-bit integer. */
  newtype Byte = x: int | -128 <= x < 128

  /** A Kotlin `Long`: a signed 64-bit integer. */
  newtype Long = x: int | -0x8000_0000_0000_0000 <= x < 0x8000_0000_0000_0000

  /** The octet a byte stands for; Java's `%x` prints a negative byte plus 2^8. */
  function Unsigned(b: Byte): (u: nat)
    ensures u < 256
    ensures u % 256 == (b as int) % 256
  {
    if b < 0 then b as int + 256 else b as int
  }

  /** The byte that holds octet `u` (what a Kotlin byte array stores for it). */
  function FromUnsigned(u: nat): (b: Byte)
    requires u < 256
    ensures Unsigned(b) == u
  {
    if u < 128 then u as Byte else (u - 256) as Byte
  }

  lemma FromUnsignedOfUnsigned(b: Byte)
    ensures FromUnsigned(Unsigned(b)) == b
  {
  }

  // ---------------------------------------------------------------------------
  // Hex: `ByteArray.toHex()` = joinToString("") { "%02x".format(it) }

  const HexDigits: string := "0123456789abcdef"

  predicate IsLowerHexDigit(c: char) {
    ('0' <= c <= '9') || ('a' <= c <= 'f')
  }

  function HexDigit(d: nat): (c: char)
    requires d < 16
    ensures IsLowerHexDigit(c)
  {
    HexDigits[d]
  }

  /** The value of a lower-case hex digit, or null for any other character. */
  function HexValue(c: char): (r: Option<nat>)
    ensures r.Some? <==> IsLowerHexDigit(c)
    ensures r.Some? ==> r.value < 16 && HexDigit(r.value) == c
  {
    if '0' <= c <= '9' then Some(c as int - '0' as int)
    else if 'a' <= c <= 'f' then Some(c as int - 'a' as int + 10)
    else None
  }

  lemma HexValueOfDigit(d: nat)
    requires d < 16
    ensures HexValue(HexDigit(d)) == Some(d)
  {
  }

  /** `"%02x".format(b)`: the octet of `b` as exactly two lower-case digits. */
  function FormatByte(b: Byte): (r: string)
    ensures |r| == 2 && IsLowerHexDigit(r[0]) && IsLowerHexDigit(r[1])
  {
    [HexDigit(Unsigned(b) / 16), HexDigit(Unsigned(b) % 16)]
  }

  /** `ByteArray.toHex()`. */
  function ToHex(bs: seq<Byte>): (r: string)
    ensures |r| == 2 * |bs|
    ensures forall i :: 0 <= i < |r| ==> IsLowerHexDigit(r[i])
  {
    if bs == [] then "" else FormatByte(bs[0]) + ToHex(bs[1..])
  }

  /** The byte written as the two lower-case hex digits `hi` `lo`, if they are such. */
  function DecodeByte(hi: char, lo: char): (r: Option<Byte>)
    ensures r.Some? <==> IsLowerHexDigit(hi) && IsLowerHexDigit(lo)
  {
    match (HexValue(hi), HexValue(lo))
    case (Some(h), Some(l)) => Some(FromUnsigned(16 * h + l))
    case _ => None
  }

  lemma FormatByteDecodeByte(hi: char, lo: char)
    requires DecodeByte(hi, lo).Some?
    ensures FormatByte(DecodeByte(hi, lo).value) == [hi, lo]
  {
    var h, l := HexValue(hi).value, HexValue(lo).value;
    var u := Unsigned(DecodeByte(hi, lo).value);
    assert u == 16 * h + l;
    assert u / 16 == h && u % 16 == l;
  }

  lemma DecodeByteFormatByte(b: Byte)
    ensures DecodeByte(FormatByte(b)[0], FormatByte(b)[1]) == Some(b)
  {
    var u := Unsigned(b);
    HexValueOfDigit(u / 16);
    HexValueOfDigit(u % 16);
    FromUnsignedOfUnsigned(b);
  }

  /** A text `ToHex` can produce: an even number of lower-case hex digits. */
  predicate IsHexText(s: string) {
    |s| % 2 == 0 && forall i :: 0 <= i < |s| ==> IsLowerHexDigit(s[i])
  }

  /** The inverse of `ToHex`: pairs of lower-case hex digits back to bytes. */
  function FromHex(s: string): (r: Option<seq<Byte>>)
    ensures r.Some? <==> IsHexText(s)
    ensures r.Some? ==> 2 * |r.value| == |s|
  {
    if s == [] then Some([])
    else if |s| == 1 then None
    else
      match DecodeByte(s[0], s[1])
      case None => None
      case Some(b) =>
        match FromHex(s[2..])
        case None => None
        case Some(rest) => Some([b] + rest)
  }

  lemma {:induction false} FromHexToHex(bs: seq<Byte>)
    ensures FromHex(ToHex(bs)) == Some(bs)
  {
    if bs != [] {
      var s := ToHex(bs);
      assert s == FormatByte(bs[0]) + ToHex(bs[1..]);
      assert s[2..] == ToHex(bs[1..]);
      DecodeByteFormatByte(bs[0]);
      FromHexToHex(bs[1..]);
      assert [bs[0]] + bs[1..] == bs;
    }
  }

  /** Every even-length lower-case hex text decodes, and is the `ToHex` of what it decodes to. */
  lemma {:induction false} ToHexFromHex(s: string)
    requires IsHexText(s)
    ensures FromHex(s).Some? && ToHex(FromHex(s).value) == s
  {
    if s != [] {
      var b := DecodeByte(s[0], s[1]).value;
      var rest := FromHex(s[2..]).value;
      ToHexFromHex(s[2..]);
      assert FromHex(s).value == [b] + rest;
      assert ([b] + rest)[1..] == rest;
      FormatByteDecodeByte(s[0], s[1]);
      assert s == [s[0], s[1]] + s[2..];
    }
  }

  /** Distinct byte arrays give distinct hex strings. */
  lemma ToHexInjective(a: seq<Byte>, b: seq<Byte>)
    requires ToHex(a) == ToHex(b)
    ensures a == b
  {
    FromHexToHex(a);
    FromHexToHex(b);
  }

  // ---------------------------------------------------------------------------
  // UTF-8: `String.encodeToByteArray()`

  /** The UTF-8 octets of one Unicode scalar value. */
  function EncodeChar(c: char): (r: seq<Byte>)
    ensures 1 <= |r| <= 4
    ensures |r| == 1 <==> c as int < 0x80
    ensures |r| == 1 ==> Unsigned(r[0]) == c as int
  {
    var n := c as int;
    if n < 0x80 then
      [FromUnsigned(n)]
    else if n < 0x800 then
      [FromUnsigned(0xC0 + n / 64), FromUnsigned(0x80 + n % 64)]
    else if n < 0x10000 then
      [FromUnsigned(0xE0 + n / 4096), FromUnsigned(0x80 + n / 64 % 64), FromUnsigned(0x80 + n % 64)]
    else
      [FromUnsigned(0xF0 + n / 262144), FromUnsigned(0x80 + n / 4096 % 64),
       FromUnsigned(0x80 + n / 64 % 64), FromUnsigned(0x80 + n % 64)]
  }

  /** `String.encodeToByteArray()`. */
  function Utf8Encode(s: string): (r: seq<Byte>)
    ensures |s| <= |r| <= 4 * |s|
  {
    if s == [] then [] else EncodeChar(s[0]) + Utf8Encode(s[1..])
  }

  predicate IsAscii(s: string) {
    forall i :: 0 <= i < |s| ==> s[i] as int < 0x80
  }

  /** An ASCII string encodes to one byte per character: its character code. */
  lemma {:induction false} Utf8EncodeAscii(s: string)
    requires IsAscii(s)
    ensures |Utf8Encode(s)| == |s|
    ensures forall i :: 0 <= i < |s| ==> Unsigned(Utf8Encode(s)[i]) == s[i] as int
  {
    if s != [] {
      Utf8EncodeAscii(s[1..]);
      assert Utf8Encode(s) == EncodeChar(s[0]) + Utf8Encode(s[1..]);
      forall i | 0 <= i < |s| ensures Unsigned(Utf8Encode(s)[i]) == s[i] as int {
        if i > 0 {
          assert Utf8Encode(s)[i] == Utf8Encode(s[1..])[i - 1];
        }
      }
    }
  }

  predicate IsContinuation(b: Byte) {
    0x80 <= Unsigned(b) < 0xC0
  }

  /** The character encoded by the code point `n`, when `n` is a scalar value. */
  function ScalarChar(n: int): (r: Option<char>)
    ensures r.Some? ==> r.value as int == n
  {
    if 0 <= n < 0xD800 || 0xE000 <= n < 0x11_0000 then Some(n as char) else None
  }

  /** Decodes the first character of `bs` and says how many bytes it took. */
  function DecodeFirst(bs: seq<Byte>): (r: Option<(char, nat)>)
    requires bs != []
    ensures r.Some? ==> 1 <= r.value.1 <= |bs|
  {
    var u0 := Unsigned(bs[0]);
    if u0 < 0x80 then
      Some((u0 as char, 1))
    else if 0xC0 <= u0 < 0xE0 && 2 <= |bs| && IsContinuation(bs[1]) then
      var n := (u0 - 0xC0) * 64 + (Unsigned(bs[1]) - 0x80);
      match ScalarChar(n) case Some(c) => Some((c, 2)) case None => None
    else if 0xE0 <= u0 < 0xF0 && 3 <= |bs| && IsContinuation(bs[1]) && IsContinuation(bs[2]) then
      var n := (u0 - 0xE0) * 4096 + (Unsigned(bs[1]) - 0x80) * 64 + (Unsigned(bs[2]) - 0x80);
      match ScalarChar(n) case Some(c) => Some((c, 3)) case None => None
    else if 0xF0 <= u0 < 0xF8 && 4 <= |bs| && IsContinuation(bs[1]) && IsContinuation(bs[2])
         && IsContinuation(bs[3]) then
      var n := (u0 - 0xF0) * 262144 + (Unsigned(bs[1]) - 0x80) * 4096
               + (Unsigned(bs[2]) - 0x80) * 64 + (Unsigned(bs[3]) - 0x80);
      match ScalarChar(n) case Some(c) => Some((c, 4)) case None => None
    else
      None
  }

  /** The inverse of `Utf8Encode` (it does not reject over-long forms). */
  function Utf8Decode(bs: seq<Byte>): (r: Option<string>)
    decreases |bs|
  {
    if bs == [] then Some("")
    else
      match DecodeFirst(bs)
      case None => None
      case Some((c, k)) =>
        match Utf8Decode(bs[k..])
        case None => None
        case Some(rest) => Some([c] + rest)
  }

  lemma DecodeFirstEncodeChar(c: char, rest: seq<Byte>)
    ensures DecodeFirst(EncodeChar(c) + rest) == Some((c, |EncodeChar(c)|))
  {
    var n := c as int;
    if n < 0x80 {
    } else if n < 0x800 {
      DecodeTwo(c, rest);
    } else if n < 0x10000 {
      DecodeThree(c, rest);
    } else {
      DecodeFour(c, rest);
    }
  }

  lemma DecodeTwo(c: char, rest: seq<Byte>)
    requires 0x80 <= c as int < 0x800
    ensures DecodeFirst(EncodeChar(c) + rest) == Some((c, 2))
  {
    var n := c as int;
    var bs := EncodeChar(c) + rest;
    var h, l := n / 64, n % 64;
    assert n == h * 64 + l;
    assert Unsigned(bs[0]) == 0xC0 + h;
    assert Unsigned(bs[1]) == 0x80 + l;
  }

  lemma DecodeThree(c: char, rest: seq<Byte>)
    requires 0x800 <= c as int < 0x10000
    ensures DecodeFirst(EncodeChar(c) + rest) == Some((c, 3))
  {
    var n := c as int;
    var bs := EncodeChar(c) + rest;
    var h, m, l := n / 4096, n / 64 % 64, n % 64;
    Digits64(n);
    assert n == h * 4096 + m * 64 + l;
    assert Unsigned(bs[0]) == 0xE0 + h;
    assert Unsigned(bs[1]) == 0x80 + m;
    assert Unsigned(bs[2]) == 0x80 + l;
  }

  lemma DecodeFour(c: char, rest: seq<Byte>)
    requires 0x10000 <= c as int
    ensures DecodeFirst(EncodeChar(c) + rest) == Some((c, 4))
  {
    var n := c as int;
    var bs := EncodeChar(c) + rest;
    var h, m1, m2, l := n / 262144, n / 4096 % 64, n / 64 % 64, n % 64;
    Digits64(n);
    assert n == h * 262144 + m1 * 4096 + m2 * 64 + l;
    assert Unsigned(bs[0]) == 0xF0 + h;
    assert Unsigned(bs[1]) == 0x80 + m1;
    assert Unsigned(bs[2]) == 0x80 + m2;
    assert Unsigned(bs[3]) == 0x80 + l;
  }

  /** `n` written in base 64 with four digits. */
  lemma Digits64(n: nat)
    ensures n == (n / 262144) * 262144 + (n / 4096 % 64) * 4096 + (n / 64 % 64) * 64 + n % 64
    ensures n / 4096 == (n / 262144) * 64 + n / 4096 % 64
    ensures n < 0x10000 ==> n == (n / 4096) * 4096 + (n / 64 % 64) * 64 + n % 64
  {
    var q1 := n / 64;
    var q2 := q1 / 64;
    var q3 := q2 / 64;
    assert n == q1 * 64 + n % 64;
    assert q1 == q2 * 64 + q1 % 64;
    assert q2 == q3 * 64 + q2 % 64;
    assert q2 == n / 4096;
    assert q3 == n / 262144;
  }

  lemma {:induction false} Utf8RoundTrip(s: string)
    ensures Utf8Decode(Utf8Encode(s)) == Some(s)
  {
    if s != [] {
      var e := EncodeChar(s[0]);
      var bs := Utf8Encode(s);
      assert bs == e + Utf8Encode(s[1..]);
      DecodeFirstEncodeChar(s[0], Utf8Encode(s[1..]));
      assert bs[|e|..] == Utf8Encode(s[1..]);
      Utf8RoundTrip(s[1..]);
      assert [s[0]] + s[1..] == s;
    }
  }

  // ---------------------------------------------------------------------------
  // Decimal rendering of integers in string templates

  predicate IsDecimalDigit(c: char) {
    '0' <= c <= '9'
  }

  predicate IsDecimal(s: string) {
    forall i :: 0 <= i < |s| ==> IsDecimalDigit(s[i])
  }

  /** The decimal digits of `n`, most significant first, with no leading zero. */
  function NatToDecimal(n: nat): (r: string)
    ensures |r| >= 1 && IsDecimal(r)
    ensures |r| > 1 ==> r[0] != '0'
    decreases n
  {
    if n < 10 then [('0' as int + n) as char]
    else NatToDecimal(n / 10) + [('0' as int + n % 10) as char]
  }

  function DigitValue(c: char): (d: nat)
    requires IsDecimalDigit(c)
    ensures d < 10
  {
    c as int - '0' as int
  }

  /** The number a string of decimal digits stands for. */
  function DecimalValue(s: string): (v: nat)
    requires IsDecimal(s)
  {
    if s == [] then 0
    else 10 * DecimalValue(s[..|s| - 1]) + DigitValue(s[|s| - 1])
  }

  lemma {:induction false} DecimalRoundTrip(n: nat)
    ensures DecimalValue(NatToDecimal(n)) == n
    decreases n
  {
    if n >= 10 {
      var r := NatToDecimal(n);
      assert r[..|r| - 1] == NatToDecimal(n / 10);
      DecimalRoundTrip(n / 10);
    }
  }

  /** `"$n"` for a `Long`: an optional minus sign, then the digits. */
  function LongToString(n: Long): (r: string)
    ensures IsAscii(r)
    ensures n < 0 <==> (|r| > 0 && r[0] == '-')
    ensures n >= 0 ==> IsDecimal(r) && DecimalValue(r) == n as int
    ensures n < 0 ==> IsDecimal(r[1..]) && DecimalValue(r[1..]) == -(n as int)
    ensures var digits := if n < 0 then r[1..] else r;
      |digits| >= 1 && (|digits| > 1 ==> digits[0] != '0')
  {
    var m := if n < 0 then -(n as int) else n as int;
    var digits := NatToDecimal(m);
    DecimalRoundTrip(m);
    if n < 0 then
      assert ("-" + digits)[1..] == digits;
      "-" + digits
    else digits
  }
}
