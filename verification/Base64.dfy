/**
 Base64 with padding: the chunked encoder of src/adapters/browser/websocket.rs:285-306
 against a strict decoder of RFC 4648 section 4.
 */
module Base64 {
  import opened Wrappers

  /** A byte as a number. */
  type Octet = x: nat | x < 256

  /** A-Z, a-z, 0-9, + and / in this order. */
  function Symbol(d: nat): char
    requires d < 64
  {
    if d < 26 then 'A' + d as char
    else if d < 52 then 'a' + (d - 26) as char
    else if d < 62 then '0' + (d - 52) as char
    else if d == 62 then '+' else '/'
  }

  function DigitOf(c: char): Option<nat> {
    if 'A' <= c <= 'Z' then Some((c - 'A') as nat)
    else if 'a' <= c <= 'z' then Some((c - 'a') as nat + 26)
    else if '0' <= c <= '9' then Some((c - '0') as nat + 52)
    else if c == '+' then Some(62)
    else if c == '/' then Some(63)
    else None
  }

  /** The alphabet of table 1 of RFC 4648, in ASCII codes: A to Z, a to z, 0 to 9, plus and slash. */
  lemma AlphabetInAscii(d: nat)
    requires d < 64
    ensures Symbol(d) as int
            == if d <= 25 then 65 + d else if d <= 51 then 97 + d - 26 else if d <= 61 then 48 + d - 52 else if d == 62 then 43 else 47
  {}

  lemma SymbolDigit(d: nat)
    requires d < 64
    ensures DigitOf(Symbol(d)) == Some(d) && Symbol(d) != '='
  {}

  lemma DigitSymbol(c: char)
    requires DigitOf(c).Some?
    ensures DigitOf(c).value < 64 && Symbol(DigitOf(c).value) == c
  {}

  /** The source's shifts and masks: three octets as one 24-bit value, cut into four digits. */
  function Split(b0: nat, b1: nat, b2: nat): (nat, nat, nat, nat) {
    var value := b0 * 0x1_0000 + b1 * 0x100 + b2;
    (value / 0x4_0000 % 64, value / 0x1000 % 64, value / 0x40 % 64, value % 64)
  }

  function Join(d0: nat, d1: nat, d2: nat, d3: nat): (nat, nat, nat) {
    (d0 * 4 + d1 / 16, d1 % 16 * 16 + d2 / 4, d2 % 4 * 64 + d3)
  }

  lemma Quotient(v: nat, q: nat, r: nat, m: nat)
    requires r < m && v == q * m + r
    ensures v / m == q && v % m == r
  {
    ScaleUp(q - v / m, m);
    assert (q - v / m) * m == v % m - r;
  }

  lemma ScaleUp(k: int, m: nat)
    ensures k >= 1 ==> k * m >= m
    ensures k <= -1 ==> k * m + m <= 0
  {}

  lemma SplitDigits(b0: nat, b1: nat, b2: nat)
    requires b0 < 256 && b1 < 256 && b2 < 256
    ensures Split(b0, b1, b2) == (b0 / 4, b0 % 4 * 16 + b1 / 16, b1 % 16 * 4 + b2 / 64, b2 % 64)
  {
    var v := b0 * 0x1_0000 + b1 * 0x100 + b2;
    Quotient(v, b0 / 4, b0 % 4 * 0x1_0000 + b1 * 0x100 + b2, 0x4_0000);
    Quotient(v, b0 * 16 + b1 / 16, b1 % 16 * 0x100 + b2, 0x1000);
    Quotient(b0 * 16 + b1 / 16, b0 / 4, b0 % 4 * 16 + b1 / 16, 64);
    Quotient(v, b0 * 0x400 + b1 * 4 + b2 / 64, b2 % 64, 0x40);
    Quotient(b0 * 0x400 + b1 * 4 + b2 / 64, b0 * 16 + b1 / 16, b1 % 16 * 4 + b2 / 64, 64);
  }

  lemma JoinSplit(b0: nat, b1: nat, b2: nat)
    requires b0 < 256 && b1 < 256 && b2 < 256
    ensures var (d0, d1, d2, d3) := Split(b0, b1, b2);
            && d0 < 64 && d1 < 64 && d2 < 64 && d3 < 64 && Join(d0, d1, d2, d3) == (b0, b1, b2)
            && (b1 == 0 ==> d1 % 16 == 0) && (b2 == 0 ==> d2 % 4 == 0)
            && (b1 == b2 == 0 ==> d2 == 0) && (b2 == 0 ==> d3 == 0)
  {
    SplitDigits(b0, b1, b2);
    Quotient(b0 % 4 * 16 + b1 / 16, b0 % 4, b1 / 16, 16);
    Quotient(b1 % 16 * 4 + b2 / 64, b1 % 16, b2 / 64, 4);
  }

  lemma SplitJoin(d0: nat, d1: nat, d2: nat, d3: nat)
    requires d0 < 64 && d1 < 64 && d2 < 64 && d3 < 64
    ensures var (b0, b1, b2) := Join(d0, d1, d2, d3);
            && b0 < 256 && b1 < 256 && b2 < 256 && Split(b0, b1, b2) == (d0, d1, d2, d3)
            && (d1 % 16 == 0 && d2 == 0 ==> b1 == 0) && (d2 % 4 == 0 && d3 == 0 ==> b2 == 0)
  {
    var (b0, b1, b2) := Join(d0, d1, d2, d3);
    JoinBounds(d0, d1, d2, d3);
    SplitDigits(b0, b1, b2);
    Quotient(b0, d0, d1 / 16, 4);
    Quotient(b1, d1 % 16, d2 / 4, 16);
    Quotient(b2, d2 % 4, d3, 64);
  }

  lemma JoinBounds(d0: nat, d1: nat, d2: nat, d3: nat)
    requires d0 < 64 && d1 < 64 && d2 < 64 && d3 < 64
    ensures var (b0, b1, b2) := Join(d0, d1, d2, d3); b0 < 256 && b1 < 256 && b2 < 256
  {}

  function ByteAt(chunk: seq<Octet>, i: nat): nat {
    if i < |chunk| then chunk[i] else 0
  }

  /** One quantum: one to three bytes as four characters. */
  function Quantum(chunk: seq<Octet>): (s: string)
    requires 0 < |chunk| <= 3
    ensures |s| == 4
  {
    var (d0, d1, d2, d3) := Split(ByteAt(chunk, 0), ByteAt(chunk, 1), ByteAt(chunk, 2));
    JoinSplit(ByteAt(chunk, 0), ByteAt(chunk, 1), ByteAt(chunk, 2));
    [Symbol(d0), Symbol(d1), if |chunk| > 1 then Symbol(d2) else '=', if |chunk| > 2 then Symbol(d3) else '=']
  }

  function Encode(bytes: seq<Octet>): string {
    if bytes == [] then ""
    else if |bytes| <= 3 then Quantum(bytes)
    else Quantum(bytes[..3]) + Encode(bytes[3..])
  }

  /** A final quantum may be padded; the unused bits of a padded quantum must be zero. */
  function DecodeQuantum(s: string, last: bool): Option<seq<Octet>>
    requires |s| == 4
  {
    var d0, d1, d2, d3 := DigitOf(s[0]), DigitOf(s[1]), DigitOf(s[2]), DigitOf(s[3]);
    if d0.None? || d1.None? then None
    else if last && s[2] == '=' && s[3] == '=' then
      if d1.value % 16 != 0 then None else Some(Octets(d0.value, d1.value, 0, 0)[..1])
    else if d2.None? then None
    else if last && s[3] == '=' then
      if d2.value % 4 != 0 then None else Some(Octets(d0.value, d1.value, d2.value, 0)[..2])
    else if d3.None? then None
    else Some(Octets(d0.value, d1.value, d2.value, d3.value))
  }

  function Octets(d0: nat, d1: nat, d2: nat, d3: nat): (s: seq<Octet>)
    ensures |s| == 3
  {
    var (b0, b1, b2) := Join(d0, d1, d2, d3);
    [b0 % 256, b1 % 256, b2 % 256]
  }

  function Decode(s: string): Option<seq<Octet>> {
    if s == "" then Some([])
    else if |s| < 4 then None
    else
      var head := DecodeQuantum(s[..4], |s| == 4);
      var tail := Decode(s[4..]);
      if head.Some? && tail.Some? then Some(head.value + tail.value) else None
  }

  lemma OctetsOfSplit(chunk: seq<Octet>)
    requires 0 < |chunk| <= 3
    ensures var (d0, d1, d2, d3) := Split(ByteAt(chunk, 0), ByteAt(chunk, 1), ByteAt(chunk, 2));
            Octets(d0, d1, d2, d3)[..|chunk|] == chunk
  {
    hide Split, Join;
    JoinSplit(ByteAt(chunk, 0), ByteAt(chunk, 1), ByteAt(chunk, 2));
  }

  /** Decoding four known characters: full, one pad, two pads. */
  lemma DecodeSymbols(d0: nat, d1: nat, d2: nat, d3: nat, n: nat, last: bool)
    requires d0 < 64 && d1 < 64 && d2 < 64 && d3 < 64 && 1 <= n <= 3 && (last || n == 3)
    requires n == 1 ==> d1 % 16 == 0 && d2 == 0 && d3 == 0
    requires n == 2 ==> d2 % 4 == 0 && d3 == 0
    ensures DecodeQuantum([Symbol(d0), Symbol(d1), if n > 1 then Symbol(d2) else '=', if n > 2 then Symbol(d3) else '='], last)
            == Some(Octets(d0, d1, d2, d3)[..n])
  {
    SymbolDigit(d0);
    SymbolDigit(d1);
    SymbolDigit(d2);
    SymbolDigit(d3);
    var s := [Symbol(d0), Symbol(d1), if n > 1 then Symbol(d2) else '=', if n > 2 then Symbol(d3) else '='];
    assert DigitOf(s[0]) == Some(d0) && DigitOf(s[1]) == Some(d1);
    assert n > 1 ==> DigitOf(s[2]) == Some(d2) && s[2] != '=';
    assert n > 2 ==> DigitOf(s[3]) == Some(d3) && s[3] != '=';
    assert Octets(d0, d1, d2, d3)[..3] == Octets(d0, d1, d2, d3);
    hide Symbol, DigitOf, Octets;
  }

  lemma QuantumRoundTrip(chunk: seq<Octet>, last: bool)
    requires 0 < |chunk| <= 3 && (last || |chunk| == 3)
    ensures DecodeQuantum(Quantum(chunk), last) == Some(chunk)
  {
    hide Symbol, Split, Join, Octets, DecodeQuantum;
    var (d0, d1, d2, d3) := Split(ByteAt(chunk, 0), ByteAt(chunk, 1), ByteAt(chunk, 2));
    JoinSplit(ByteAt(chunk, 0), ByteAt(chunk, 1), ByteAt(chunk, 2));
    OctetsOfSplit(chunk);
    DecodeSymbols(d0, d1, d2, d3, |chunk|, last);
  }

  lemma {:induction false} DecodeEncode(bytes: seq<Octet>)
    ensures Decode(Encode(bytes)) == Some(bytes)
  {
    if bytes == [] {
    } else if |bytes| <= 3 {
      var s := Quantum(bytes);
      QuantumRoundTrip(bytes, true);
      assert s[..4] == s && s[4..] == "";
      assert bytes + [] == bytes;
    } else {
      var head, tail := Quantum(bytes[..3]), Encode(bytes[3..]);
      QuantumRoundTrip(bytes[..3], false);
      DecodeEncode(bytes[3..]);
      assert (head + tail)[..4] == head && (head + tail)[4..] == tail;
      assert bytes[..3] + bytes[3..] == bytes;
    }
  }

  lemma DigitBounds(c: char)
    ensures DigitOf(c).Some? ==> DigitOf(c).value < 64 && Symbol(DigitOf(c).value) == c
  {
    if DigitOf(c).Some? { DigitSymbol(c); }
  }

  lemma OctetsSplit(d0: nat, d1: nat, d2: nat, d3: nat, n: nat)
    requires d0 < 64 && d1 < 64 && d2 < 64 && d3 < 64 && 1 <= n <= 3
    requires n == 1 ==> d1 % 16 == 0 && d2 == 0 && d3 == 0
    requires n == 2 ==> d2 % 4 == 0 && d3 == 0
    ensures var chunk := Octets(d0, d1, d2, d3)[..n];
            Split(ByteAt(chunk, 0), ByteAt(chunk, 1), ByteAt(chunk, 2)) == (d0, d1, d2, d3)
  {
    hide Split, Join;
    SplitJoin(d0, d1, d2, d3);
    var (b0, b1, b2) := Join(d0, d1, d2, d3);
    Reduced(b0);
    Reduced(b1);
    Reduced(b2);
    assert Octets(d0, d1, d2, d3) == [b0, b1, b2];
    assert n == 1 ==> b1 == 0 && b2 == 0;
  }

  lemma Reduced(b: nat)
    requires b < 256
    ensures b % 256 == b
  {}

  /** The converse on one quantum: the decoder accepts nothing but what the encoder writes. */
  lemma DecodedQuantum(s: string, last: bool)
    requires |s| == 4 && DecodeQuantum(s, last).Some?
    ensures var chunk := DecodeQuantum(s, last).value;
            0 < |chunk| <= 3 && (!last ==> |chunk| == 3) && Quantum(chunk) == s
  {
    DigitBounds(s[0]);
    DigitBounds(s[1]);
    DigitBounds(s[2]);
    DigitBounds(s[3]);
    hide DigitOf, Symbol, Octets, Quantum;
    var d0, d1 := DigitOf(s[0]).value, DigitOf(s[1]).value;
    if last && s[2] == '=' && s[3] == '=' {
      QuantumOfDigits(s, d0, d1, 0, 0, 1);
    } else if last && s[3] == '=' {
      QuantumOfDigits(s, d0, d1, DigitOf(s[2]).value, 0, 2);
    } else {
      QuantumOfDigits(s, d0, d1, DigitOf(s[2]).value, DigitOf(s[3]).value, 3);
      assert Octets(d0, d1, DigitOf(s[2]).value, DigitOf(s[3]).value)[..3] == Octets(d0, d1, DigitOf(s[2]).value, DigitOf(s[3]).value);
    }
  }

  /** Four symbols, the last ones perhaps pads, are the quantum of the octets they stand for. */
  lemma QuantumOfDigits(s: string, d0: nat, d1: nat, d2: nat, d3: nat, n: nat)
    requires |s| == 4 && 1 <= n <= 3
    requires d0 < 64 && d1 < 64 && d2 < 64 && d3 < 64
    requires n == 1 ==> d1 % 16 == 0 && d2 == 0 && d3 == 0
    requires n == 2 ==> d2 % 4 == 0 && d3 == 0
    requires s[0] == Symbol(d0) && s[1] == Symbol(d1)
    requires s[2] == (if n > 1 then Symbol(d2) else '=') && s[3] == (if n > 2 then Symbol(d3) else '=')
    ensures Quantum(Octets(d0, d1, d2, d3)[..n]) == s
  {
    hide Symbol, Split, Octets;
    OctetsSplit(d0, d1, d2, d3, n);
  }

  lemma {:induction false} EncodeDecode(s: string)
    requires Decode(s).Some?
    ensures Encode(Decode(s).value) == s
  {
    if s != "" {
      DecodedQuantum(s[..4], |s| == 4);
      EncodeDecode(s[4..]);
      var head, tail := DecodeQuantum(s[..4], |s| == 4).value, Decode(s[4..]).value;
      assert s[..4] + s[4..] == s;
      if |s| == 4 {
        assert tail == [] && head + tail == head;
      } else {
        assert tail != [];
        assert (head + tail)[..3] == head && (head + tail)[3..] == tail;
      }
    }
  }

  /** Encoding is the exact inverse of strict decoding, on all byte strings and all texts. */
  lemma Base64Exact(bytes: seq<Octet>, s: string)
    ensures Decode(s) == Some(bytes) <==> s == Encode(bytes)
  {
    DecodeEncode(bytes);
    if Decode(s).Some? {
      EncodeDecode(s);
    }
  }

  /** The encoder's loop over chunks of three. */
  method Base64Encode(bytes: seq<Octet>) returns (output: string)
    ensures output == Encode(bytes)
    ensures Decode(output) == Some(bytes)
  {
    hide Quantum;
    output := "";
    var position := 0;
    while position < |bytes|
      invariant position <= |bytes|
      invariant output + Encode(bytes[position..]) == Encode(bytes)
    {
      var end := if position + 3 < |bytes| then position + 3 else |bytes|;
      ghost var rest := bytes[position..];
      assert rest[..end - position] == bytes[position..end] && rest[end - position..] == bytes[end..];
      assert Encode(rest) == Quantum(bytes[position..end]) + Encode(bytes[end..]) by {
        if |rest| <= 3 {
          assert bytes[position..end] == rest && Encode(bytes[end..]) == "";
        }
      }
      assert output + Encode(rest) == output + Quantum(bytes[position..end]) + Encode(bytes[end..]);
      output := output + Quantum(bytes[position..end]);
      position := end;
    }
    DecodeEncode(bytes);
  }
}
