/**
 UTF-8 twice: the encoder as section 3 of RFC 3629 defines it, and the well-formedness test after the
 table of section 4, as the standard library's from_utf8 applies it in
 src/adapters/browser/websocket.rs:64-67,201-203.
 */
module Utf8 {
  import opened Bytes

  // ---- Section 3: the encoding of a scalar value ----------------------------------------------

  function ByteOf(n: nat): Byte
    requires n < 256
  {
    n as Byte
  }

  /** The last six bits of n, as a byte that continues a character. */
  function Continuation(n: nat): Byte {
    ByteOf(0x80 + n % 64)
  }

  function EncodeChar(c: char): (s: seq<Byte>)
    ensures 1 <= |s| <= 4
  {
    var n := c as int;
    if n < 0x80 then [ByteOf(n)]
    else if n < 0x800 then [ByteOf(0xC0 + n / 64), Continuation(n)]
    else if n < 0x1_0000 then [ByteOf(0xE0 + n / 0x1000), Continuation(n / 64), Continuation(n)]
    else [ByteOf(0xF0 + n / 0x4_0000), Continuation(n / 0x1000), Continuation(n / 64), Continuation(n)]
  }

  function Encode(text: string): seq<Byte> {
    if text == "" then [] else EncodeChar(text[0]) + Encode(text[1..])
  }

  lemma {:induction false} EncodeOfConcat(a: string, b: string)
    ensures Encode(a + b) == Encode(a) + Encode(b)
  {
    if a == "" {
      assert a + b == b;
    } else {
      assert (a + b)[1..] == a[1..] + b;
      EncodeOfConcat(a[1..], b);
    }
  }

  // ---- Section 4: which byte strings are well formed --------------------------------------------

  function Number(b: Byte): (n: nat)
    ensures n < 256
  {
    b as int
  }

  predicate Continues(b: Byte) { 0x80 <= Number(b) <= 0xBF }

  /** The number of bytes of the well-formed character at the front, 0 when there is none. */
  function Utf8Width(bytes: seq<Byte>): (n: nat)
    requires bytes != []
    ensures n <= |bytes|
  {
    var b := Number(bytes[0]);
    if b <= 0x7F then 1
    else if |bytes| >= 2 && 0xC2 <= b <= 0xDF && Continues(bytes[1]) then 2
    else if |bytes| >= 3 && 0xE0 <= b <= 0xEF
         && (if b == 0xE0 then 0xA0 else 0x80) <= Number(bytes[1]) <= (if b == 0xED then 0x9F else 0xBF)
         && Continues(bytes[2]) then 3
    else if |bytes| >= 4 && 0xF0 <= b <= 0xF4
         && (if b == 0xF0 then 0x90 else 0x80) <= Number(bytes[1]) <= (if b == 0xF4 then 0x8F else 0xBF)
         && Continues(bytes[2]) && Continues(bytes[3]) then 4
    else 0
  }

  predicate ValidUtf8(bytes: seq<Byte>)
    decreases |bytes|
  {
    bytes == [] || (Utf8Width(bytes) > 0 && ValidUtf8(bytes[Utf8Width(bytes)..]))
  }

  // ---- The two agree ---------------------------------------------------------------------------------

  lemma NumberOfByte(n: nat)
    requires n < 256
    ensures Number(ByteOf(n)) == n
  {
    ByteOfInt(n);
  }

  lemma ByteOfNumber(b: Byte)
    ensures ByteOf(Number(b)) == b
  {
    ThereAndBack(b);
  }

  lemma ContinuationNumber(n: nat)
    ensures Number(Continuation(n)) == 0x80 + n % 64
  {
    NumberOfByte(0x80 + n % 64);
  }

  /** The lead byte of a three-byte character limits the second one: no shorter form, no surrogate. */
  lemma SecondOfThree(n: nat)
    requires 0x800 <= n < 0xD800 || 0xE000 <= n < 0x1_0000
    ensures var lead, second := n / 0x1000, n / 64 % 64;
            lead < 16 && (lead == 0 ==> second >= 32) && (lead == 13 ==> second < 32)
  {
    assert n / 64 == n / 0x1000 * 64 + n / 64 % 64;
  }

  /** Of a four-byte character: no shorter form, nothing above 0x10FFFF. */
  lemma SecondOfFour(n: nat)
    requires 0x1_0000 <= n < 0x11_0000
    ensures var lead, second := n / 0x4_0000, n / 0x1000 % 64;
            lead <= 4 && (lead == 0 ==> second >= 16) && (lead == 4 ==> second < 16)
  {
    assert n / 0x1000 == n / 0x4_0000 * 64 + n / 0x1000 % 64;
  }

  lemma LongCharacter(c: char, rest: seq<Byte>)
    requires c as int >= 0x800
    ensures Utf8Width(EncodeChar(c) + rest) == |EncodeChar(c)|
  {
    hide ByteOf, Number, Continuation;
    var n := c as int;
    ContinuationNumber(n);
    ContinuationNumber(n / 64);
    if n < 0x1_0000 {
      SecondOfThree(n);
      NumberOfByte(0xE0 + n / 0x1000);
      assert EncodeChar(c) == [ByteOf(0xE0 + n / 0x1000), Continuation(n / 64), Continuation(n)];
    } else {
      SecondOfFour(n);
      ContinuationNumber(n / 0x1000);
      NumberOfByte(0xF0 + n / 0x4_0000);
      assert EncodeChar(c) == [ByteOf(0xF0 + n / 0x4_0000), Continuation(n / 0x1000), Continuation(n / 64), Continuation(n)];
    }
  }

  /** An encoded character is well formed, whatever follows it. */
  lemma EncodedIsWellFormed(c: char, rest: seq<Byte>)
    ensures Utf8Width(EncodeChar(c) + rest) == |EncodeChar(c)|
  {
    hide ByteOf, Number, Continuation;
    var n := c as int;
    if n >= 0x800 {
      LongCharacter(c, rest);
    } else if n >= 0x80 {
      NumberOfByte(0xC0 + n / 64);
      ContinuationNumber(n);
    } else {
      NumberOfByte(n);
    }
  }

  lemma {:induction false} EncodedIsValid(text: string)
    ensures ValidUtf8(Encode(text))
  {
    if text != "" {
      var front, rest := EncodeChar(text[0]), Encode(text[1..]);
      EncodedIsWellFormed(text[0], rest);
      assert (front + rest)[|front|..] == rest;
      EncodedIsValid(text[1..]);
    }
  }

  /** The scalar value of the well-formed character at the front. */
  function ScalarAt(bytes: seq<Byte>): nat
    requires bytes != [] && Utf8Width(bytes) > 0
  {
    var width := Utf8Width(bytes);
    var b := Number(bytes[0]);
    if width == 1 then b
    else if width == 2 then (b - 0xC0) * 64 + (Number(bytes[1]) - 0x80)
    else if width == 3 then (b - 0xE0) * 0x1000 + (Number(bytes[1]) - 0x80) * 64 + (Number(bytes[2]) - 0x80)
    else (b - 0xF0) * 0x4_0000 + (Number(bytes[1]) - 0x80) * 0x1000 + (Number(bytes[2]) - 0x80) * 64 + (Number(bytes[3]) - 0x80)
  }

  lemma LastSix(q: nat, r: nat)
    requires r < 64
    ensures (q * 64 + r) / 64 == q && (q * 64 + r) % 64 == r
  {}

  lemma SixAtATime(n: nat)
    ensures n / 0x1000 == n / 64 / 64 && n / 0x4_0000 == n / 64 / 64 / 64
  {}

  /** A number from its parts of six bits, and the parts back. */
  lemma SixBits(a: nat, b: nat, c: nat, d: nat)
    requires b < 64 && c < 64 && d < 64
    ensures var n := a * 0x4_0000 + b * 0x1000 + c * 64 + d;
            n / 0x4_0000 == a && n / 0x1000 == a * 64 + b && n / 0x1000 % 64 == b && n / 64 % 64 == c && n % 64 == d
  {
    SixAtATime(a * 0x4_0000 + b * 0x1000 + c * 64 + d);
    LastSix(a * 0x1000 + b * 64 + c, d);
    LastSix(a * 64 + b, c);
    LastSix(a, b);
  }

  lemma Continued(b: Byte, n: nat)
    requires Continues(b) && n % 64 == Number(b) - 0x80
    ensures Continuation(n) == b
  {
    hide ByteOf, Number;
    ByteOfNumber(b);
  }

  lemma TwoBytes(bytes: seq<Byte>)
    requires bytes != [] && Utf8Width(bytes) == 2
    ensures 0x80 <= ScalarAt(bytes) < 0x800 && EncodeChar(ScalarAt(bytes) as char) == bytes[..2]
  {
    hide ByteOf, Number, Continuation;
    var n := ScalarAt(bytes);
    SixBits(0, 0, Number(bytes[0]) - 0xC0, Number(bytes[1]) - 0x80);
    ByteOfNumber(bytes[0]);
    Continued(bytes[1], n);
  }

  lemma ThreeBytes(bytes: seq<Byte>)
    requires bytes != [] && Utf8Width(bytes) == 3
    ensures 0x800 <= ScalarAt(bytes) < 0xD800 || 0xE000 <= ScalarAt(bytes) < 0x1_0000
    ensures EncodeChar(ScalarAt(bytes) as char) == bytes[..3]
  {
    hide ByteOf, Number, Continuation;
    var n := ScalarAt(bytes);
    SixBits(0, Number(bytes[0]) - 0xE0, Number(bytes[1]) - 0x80, Number(bytes[2]) - 0x80);
    ByteOfNumber(bytes[0]);
    Continued(bytes[1], n / 64);
    Continued(bytes[2], n);
  }

  lemma FourBytes(bytes: seq<Byte>)
    requires bytes != [] && Utf8Width(bytes) == 4
    ensures 0x1_0000 <= ScalarAt(bytes) < 0x11_0000 && EncodeChar(ScalarAt(bytes) as char) == bytes[..4]
  {
    hide ByteOf, Number, Continuation;
    var n := ScalarAt(bytes);
    SixBits(Number(bytes[0]) - 0xF0, Number(bytes[1]) - 0x80, Number(bytes[2]) - 0x80, Number(bytes[3]) - 0x80);
    ByteOfNumber(bytes[0]);
    Continued(bytes[1], n / 0x1000);
    Continued(bytes[2], n / 64);
    Continued(bytes[3], n);
  }

  lemma WellFormedIsEncoded(bytes: seq<Byte>)
    requires bytes != [] && Utf8Width(bytes) > 0
    ensures ScalarAt(bytes) < 0xD800 || 0xE000 <= ScalarAt(bytes) < 0x11_0000
    ensures EncodeChar(ScalarAt(bytes) as char) == bytes[..Utf8Width(bytes)]
  {
    if Utf8Width(bytes) == 1 {
      ByteOfNumber(bytes[0]);
    } else if Utf8Width(bytes) == 2 {
      TwoBytes(bytes);
    } else if Utf8Width(bytes) == 3 {
      ThreeBytes(bytes);
    } else {
      FourBytes(bytes);
    }
  }

  lemma {:induction false} ValidIsEncoded(bytes: seq<Byte>) returns (text: string)
    requires ValidUtf8(bytes)
    ensures bytes == Encode(text)
    decreases |bytes|
  {
    if bytes == [] {
      text := "";
    } else {
      WellFormedIsEncoded(bytes);
      var width := Utf8Width(bytes);
      hide Utf8Width, ScalarAt, EncodeChar, ValidUtf8;
      var c := ScalarAt(bytes) as char;
      var rest := ValidIsEncoded(bytes[width..]);
      text := [c] + rest;
      assert text[1..] == rest;
      assert bytes == bytes[..width] + bytes[width..];
    }
  }

  /** Well formed are the encodings of texts, and nothing else. */
  lemma ValidExactly(bytes: seq<Byte>)
    ensures ValidUtf8(bytes) <==> exists text: string :: bytes == Encode(text)
  {
    if ValidUtf8(bytes) {
      var text := ValidIsEncoded(bytes);
    }
    forall text: string | bytes == Encode(text)
      ensures ValidUtf8(bytes)
    {
      EncodedIsValid(text);
    }
  }

  lemma {:induction false} AsciiEncoded(text: string)
    requires forall i | 0 <= i < |text| :: text[i] as int < 0x80
    ensures |Encode(text)| == |text|
    ensures forall i | 0 <= i < |text| :: Encode(text)[i] == ByteOf(text[i] as int)
  {
    if text != "" {
      AsciiEncoded(text[1..]);
    }
  }
}
