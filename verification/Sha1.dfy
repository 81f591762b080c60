/**
 SHA-1 twice: the specification of FIPS 180-4 as recursive functions, and the loops of
 src/adapters/browser/websocket.rs:308-365 proved equal to it.
 */
module Sha1 {
  import opened Bytes

  type Word = bv32

  // ---- FIPS 180-4 section 5.1.1: padding -------------------------------------------

  function Zeros(n: nat): (s: seq<Byte>)
    ensures |s| == n
  {
    seq(n, _ => 0)
  }

  /** The number of zero bytes between the 0x80 byte and the 64-bit length. */
  function ZeroCount(length: nat): nat {
    (55 - length) % 64
  }

  const LENGTHS: nat := 0x1_0000_0000_0000_0000

  /** The bit length modulo 2^64 as eight bytes. */
  function LengthField(length: nat): (s: seq<Byte>)
    ensures |s| == 8
  {
    BigEndian(8 * length % LENGTHS, 8)
  }

  function Pad(message: seq<Byte>): seq<Byte> {
    message + [0x80] + Zeros(ZeroCount(|message|)) + LengthField(|message|)
  }

  /** In bits: k is the smallest non-negative solution of l + 1 + k = 448 modulo 512. */
  lemma ZeroBitsAreLeast(length: nat)
    ensures var l, k := 8 * length, 7 + 8 * ZeroCount(length);
            (l + 1 + k) % 512 == 448 && k < 512
  {}

  lemma PadFillsBlocks(message: seq<Byte>)
    ensures |Pad(message)| % 64 == 0 && |Pad(message)| > 0
  {
    hide LengthField, Zeros;
    assert |Pad(message)| == |message| + 9 + ZeroCount(|message|);
  }

  lemma LengthFieldInjective(m: nat, n: nat)
    requires m < 0x2000_0000_0000_0000 && n < 0x2000_0000_0000_0000
    requires LengthField(m) == LengthField(n)
    ensures m == n
  {
    hide BigEndian, Value;
    assert Pow256(8) == LENGTHS;
    ValueOfBigEndian(8 * m, 8);
    ValueOfBigEndian(8 * n, 8);
  }

  /** The last eight bytes of the padding are the length in bits, most significant byte first. */
  lemma LengthInBits(length: nat)
    ensures Value(LengthField(length)) == 8 * length % 0x1_0000_0000_0000_0000
    ensures LengthField(length)[7] == (8 * length % 256) as Byte
  {
    hide Value;
    assert Pow256(8) == LENGTHS;
    ValueOfBigEndian(8 * length % LENGTHS, 8);
    LowByte(8 * length);
  }

  lemma LowByte(n: nat)
    ensures n % LENGTHS % 256 == n % 256
  {}

  /** Padding loses nothing: below 2^61 bytes, different messages have different padded forms. */
  lemma PadInjective(a: seq<Byte>, b: seq<Byte>)
    requires |a| < 0x2000_0000_0000_0000 && |b| < 0x2000_0000_0000_0000
    requires Pad(a) == Pad(b)
    ensures a == b
  {
    hide LengthField, Zeros, ZeroCount;
    var n := |Pad(a)|;
    assert Pad(a)[n - 8..] == LengthField(|a|);
    assert Pad(b)[n - 8..] == LengthField(|b|);
    LengthFieldInjective(|a|, |b|);
    assert Pad(a)[..|a|] == a && Pad(b)[..|b|] == b;
  }

  // ---- FIPS 180-4 sections 4.1.1, 4.2.1 and 6.1.2 -----------------------------------

  function Ch(x: Word, y: Word, z: Word): Word { (x & y) ^ (!x & z) }
  function Parity(x: Word, y: Word, z: Word): Word { x ^ y ^ z }
  function Maj(x: Word, y: Word, z: Word): Word { (x & y) ^ (x & z) ^ (y & z) }

  /** The source writes Ch and Maj with OR where the standard has XOR. */
  lemma OrChoose(b: Word, c: Word, d: Word)
    ensures (b & c) | ((!b) & d) == Ch(b, c, d)
  {}

  lemma OrMajority(b: Word, c: Word, d: Word)
    ensures (b & c) | (b & d) | (c & d) == Maj(b, c, d)
  {}

  function F(t: nat, x: Word, y: Word, z: Word): Word {
    if t < 20 then Ch(x, y, z) else if t < 40 then Parity(x, y, z) else if t < 60 then Maj(x, y, z) else Parity(x, y, z)
  }

  function K(t: nat): Word {
    if t < 20 then 0x5a82_7999 else if t < 40 then 0x6ed9_eba1 else if t < 60 then 0x8f1b_bcdc else 0xca62_c1d6
  }

  function RotL1(x: Word): Word { (x << 1) | (x >> 31) }
  function RotL5(x: Word): Word { (x << 5) | (x >> 27) }
  function RotL30(x: Word): Word { (x << 30) | (x >> 2) }

  lemma RotationMatches(x: Word)
    ensures x.RotateLeft(1) == RotL1(x)
    ensures x.RotateLeft(5) == RotL5(x)
    ensures x.RotateLeft(30) == RotL30(x)
  {}

  function BytesWord(b0: Byte, b1: Byte, b2: Byte, b3: Byte): Word {
    ((b0 as Word) << 24) | ((b1 as Word) << 16) | ((b2 as Word) << 8) | (b3 as Word)
  }

  function WordAt(block: seq<Byte>, t: nat): Word
    requires |block| == 64 && t < 16
  {
    BytesWord(block[4 * t], block[4 * t + 1], block[4 * t + 2], block[4 * t + 3])
  }

  function Expand(w3: Word, w8: Word, w14: Word, w16: Word): Word {
    RotL1(w3 ^ w8 ^ w14 ^ w16)
  }

  function W(block: seq<Byte>, t: nat): Word
    requires |block| == 64 && t < 80
  {
    if t < 16 then WordAt(block, t)
    else Expand(W(block, t - 3), W(block, t - 8), W(block, t - 14), W(block, t - 16))
  }

  datatype Registers = Registers(a: Word, b: Word, c: Word, d: Word, e: Word)

  const INITIAL := Registers(0x6745_2301, 0xefcd_ab89, 0x98ba_dcfe, 0x1032_5476, 0xc3d2_e1f0)

  /** Read with the least significant byte first, the registers count up, down, and up again, digit by digit. */
  lemma InitialCounts()
    ensures WordBytes(INITIAL.a) == [0x67, 0x45, 0x23, 0x01]
    ensures WordBytes(INITIAL.b) == [0xef, 0xcd, 0xab, 0x89]
    ensures WordBytes(INITIAL.c) == [0x98, 0xba, 0xdc, 0xfe]
    ensures WordBytes(INITIAL.d) == [0x10, 0x32, 0x54, 0x76]
    ensures WordBytes(INITIAL.e) == [0xc3, 0xd2, 0xe1, 0xf0]
  {}

  function Round(r: Registers, t: nat, w: Word): Registers {
    Registers(Mix(r.a, F(t, r.b, r.c, r.d), r.e, K(t), w), r.a, RotL30(r.b), r.c, r.d)
  }

  /** The carries into the bits of a sum, from the carries themselves: two of the three bits below are set. */
  function Carried(x: Word, y: Word, carries: Word): Word {
    ((x & y) | (x & carries) | (y & carries)) << 1
  }

  /** Addition modulo 2^32, bit by bit the full adder's: no carry into the lowest bit, none kept out of the highest. */
  function WrappingAdd(x: Word, y: Word): (sum: Word)
    ensures sum ^ x ^ y == Carried(x, y, sum ^ x ^ y)
  {
    x + y
  }

  function Mix(a: Word, f: Word, e: Word, k: Word, w: Word): Word {
    WrappingAdd(WrappingAdd(WrappingAdd(WrappingAdd(RotL5(a), f), e), k), w)
  }

  function Rounds(r: Registers, block: seq<Byte>, t: nat): Registers
    requires |block| == 64 && t <= 80
  {
    if t == 0 then r else Round(Rounds(r, block, t - 1), t - 1, W(block, t - 1))
  }

  function FedForward(h: Registers, r: Registers): Registers {
    Registers(WrappingAdd(h.a, r.a), WrappingAdd(h.b, r.b), WrappingAdd(h.c, r.c), WrappingAdd(h.d, r.d), WrappingAdd(h.e, r.e))
  }

  function Compress(h: Registers, block: seq<Byte>): Registers
    requires |block| == 64
  {
    FedForward(h, Rounds(h, block, 80))
  }

  /** The state after the first n blocks. */
  function HashBlocks(padded: seq<Byte>, n: nat): Registers
    requires 64 * n <= |padded|
  {
    if n == 0 then INITIAL else Compress(HashBlocks(padded, n - 1), padded[64 * (n - 1)..64 * n])
  }

  function WordBytes(w: Word): (s: seq<Byte>)
    ensures |s| == 4
  {
    [(w >> 24) as Byte, ((w >> 16) & 0xff) as Byte, ((w >> 8) & 0xff) as Byte, (w & 0xff) as Byte]
  }

  /** The most significant byte comes first. */
  lemma WordBytesInOrder(w: Word)
    ensures var s := WordBytes(w);
            ((s[0] as Word) << 24) | ((s[1] as Word) << 16) | ((s[2] as Word) << 8) | (s[3] as Word) == w
  {}

  lemma BytesOfWord(b0: Byte, b1: Byte, b2: Byte, b3: Byte)
    ensures WordBytes(BytesWord(b0, b1, b2, b3)) == [b0, b1, b2, b3]
  {}

  /** The sixteen words of a block are its bytes, four at a time. */
  lemma WordOfBlock(block: seq<Byte>, t: nat)
    requires |block| == 64 && t < 16
    ensures WordBytes(WordAt(block, t)) == block[4 * t..4 * t + 4]
  {
    hide WordBytes, BytesWord;
    BytesOfWord(block[4 * t], block[4 * t + 1], block[4 * t + 2], block[4 * t + 3]);
  }

  function Digest(message: seq<Byte>): seq<Byte> {
    var padded := Pad(message);
    var h := HashBlocks(padded, |padded| / 64);
    WordsBytes(AsSeq(h))
  }

  function WordsBytes(words: seq<Word>): (s: seq<Byte>)
    ensures |s| == 4 * |words|
  {
    if words == [] then [] else WordsBytes(words[..|words| - 1]) + WordBytes(words[|words| - 1])
  }

  /** The round constants are the leading bits of square roots: of 2, 3, 5 and 10 (scaled by 2^30). */
  lemma RoundConstantsAreRoots(t: nat)
    requires t < 80
    ensures var n := if t < 20 then 2 else if t < 40 then 3 else if t < 60 then 5 else 10;
            var k := K(t) as int;
            k * k <= n * 0x1000_0000_0000_0000 < (k + 1) * (k + 1)
  {}

  // ---- the implementation ------------------------------------------------------------

  method PadMessage(input: seq<Byte>) returns (padded: seq<Byte>)
    ensures padded == Pad(input)
  {
    hide LengthField;
    padded := input + [0x80];
    ghost var zeros := 0;
    while |padded| % 64 != 56
      invariant zeros <= ZeroCount(|input|)
      invariant padded == input + [0x80] + Zeros(zeros)
      decreases ZeroCount(|input|) - zeros
    {
      assert zeros < ZeroCount(|input|);
      padded := padded + [0];
      zeros := zeros + 1;
    }
    padded := padded + LengthField(|input|);
  }

  method NextWord(w3: Word, w8: Word, w14: Word, w16: Word) returns (w: Word)
    ensures w == Expand(w3, w8, w14, w16)
  {
    w := (w3 ^ w8 ^ w14 ^ w16).RotateLeft(1);
    RotationMatches(w3 ^ w8 ^ w14 ^ w16);
  }

  lemma ChooseFirst(index: nat, b: Word, c: Word, d: Word)
    requires index < 20
    ensures F(index, b, c, d) == (b & c) | ((!b) & d)
  {
    OrChoose(b, c, d);
    hide Ch;
  }

  lemma ChooseThird(index: nat, b: Word, c: Word, d: Word)
    requires 40 <= index < 60
    ensures F(index, b, c, d) == (b & c) | (b & d) | (c & d)
  {
    OrMajority(b, c, d);
    hide Maj;
  }

  lemma ParityIsXor(b: Word, c: Word, d: Word)
    ensures Parity(b, c, d) == b ^ c ^ d
  {}

  lemma ChooseParity(index: nat, b: Word, c: Word, d: Word)
    requires 20 <= index < 40 || 60 <= index
    ensures F(index, b, c, d) == b ^ c ^ d
  {
    ParityIsXor(b, c, d);
    hide Ch, Maj, Parity;
  }

  /** f and k of one round, in the source's own OR forms. */
  method Choose(index: nat, b: Word, c: Word, d: Word) returns (f: Word, k: Word)
    ensures f == F(index, b, c, d) && k == K(index)
  {
    hide F;
    if index < 20 {
      f, k := (b & c) | ((!b) & d), 0x5a82_7999;
      ChooseFirst(index, b, c, d);
    } else if index < 40 {
      f, k := b ^ c ^ d, 0x6ed9_eba1;
      ChooseParity(index, b, c, d);
    } else if index < 60 {
      f, k := (b & c) | (b & d) | (c & d), 0x8f1b_bcdc;
      ChooseThird(index, b, c, d);
    } else {
      f, k := b ^ c ^ d, 0xca62_c1d6;
      ChooseParity(index, b, c, d);
    }
  }

  /** Fills the 80-word schedule in place. */
  method Schedule(block: seq<Byte>, words: array<Word>)
    requires |block| == 64 && words.Length == 80
    modifies words
    ensures forall t | 0 <= t < 80 :: words[t] == W(block, t)
  {
    hide WordAt, Expand;
    for index := 0 to 16
      invariant forall t | 0 <= t < index :: words[t] == W(block, t)
    {
      words[index] := WordAt(block, index);
    }
    for index := 16 to 80
      invariant forall t | 0 <= t < index :: words[t] == W(block, t)
    {
      words[index] := NextWord(words[index - 3], words[index - 8], words[index - 14], words[index - 16]);
    }
  }

  /** One turn of the registers, with the rotations as the code writes them. */
  lemma TurnIsRound(r: Registers, t: nat, f: Word, k: Word, w: Word)
    requires f == F(t, r.b, r.c, r.d) && k == K(t)
    ensures Round(r, t, w)
         == Registers(WrappingAdd(WrappingAdd(WrappingAdd(WrappingAdd(r.a.RotateLeft(5), f), r.e), k), w),
                      r.a, r.b.RotateLeft(30), r.c, r.d)
  {
    hide F, K, WrappingAdd, Carried, RotL5, RotL30;
    RotationMatches(r.a);
    RotationMatches(r.b);
  }

  lemma RoundsOf(h: Registers, block: seq<Byte>)
    requires |block| == 64
    ensures Rounds(h, block, 0) == h
    ensures Compress(h, block) == FedForward(h, Rounds(h, block, 80))
  {}

  lemma OneMoreRound(h: Registers, block: seq<Byte>, t: nat)
    requires |block| == 64 && t < 80
    ensures Rounds(h, block, t + 1) == Round(Rounds(h, block, t), t, W(block, t))
  {
    hide Round, W;
  }

  /** One block: the rotating registers a..e, then the feed-forward into the state. */
  method CompressBlock(block: seq<Byte>, words: array<Word>, state: array<Word>)
    requires |block| == 64 && words.Length == 80 && state.Length == 5 && words != state
    modifies words, state
    ensures state[..] == AsSeq(Compress(old(FromSeq(state[..])), block))
  {
    hide F, K, W, Round, Rounds, Compress, WrappingAdd, Carried;
    RoundsOf(FromSeq(state[..]), block);
    Schedule(block, words);
    var a, b, c, d, e := state[0], state[1], state[2], state[3], state[4];
    ghost var start := FromSeq(state[..]);
    for index := 0 to 80
      invariant state[..] == old(state[..])
      invariant forall t | 0 <= t < 80 :: words[t] == W(block, t)
      invariant Registers(a, b, c, d, e) == Rounds(start, block, index)
    {
      var f, k := Choose(index, b, c, d);
      OneMoreRound(start, block, index);
      TurnIsRound(Registers(a, b, c, d, e), index, f, k, words[index]);
      var next := WrappingAdd(WrappingAdd(WrappingAdd(WrappingAdd(a.RotateLeft(5), f), e), k), words[index]);
      e := d;
      d := c;
      c := b.RotateLeft(30);
      b := a;
      a := next;
    }
    state[0] := WrappingAdd(state[0], a);
    state[1] := WrappingAdd(state[1], b);
    state[2] := WrappingAdd(state[2], c);
    state[3] := WrappingAdd(state[3], d);
    state[4] := WrappingAdd(state[4], e);
  }

  function AsSeq(r: Registers): seq<Word> { [r.a, r.b, r.c, r.d, r.e] }

  function FromSeq(s: seq<Word>): Registers
    requires |s| == 5
  {
    Registers(s[0], s[1], s[2], s[3], s[4])
  }

  lemma OneMoreWord(words: seq<Word>, k: nat)
    requires k < |words|
    ensures WordsBytes(words[..k + 1]) == WordsBytes(words[..k]) + WordBytes(words[k])
  {
    hide WordBytes;
    assert words[..k + 1][..k] == words[..k];
  }

  method Sha1(input: seq<Byte>) returns (output: seq<Byte>)
    ensures output == Digest(input)
    ensures |output| == 20
  {
    hide WordBytes, Pad, Compress;
    var padded := PadMessage(input);
    PadFillsBlocks(input);
    var state := new Word[5] [0x6745_2301, 0xefcd_ab89, 0x98ba_dcfe, 0x1032_5476, 0xc3d2_e1f0];
    var words := new Word[80];
    assert state[..] == AsSeq(INITIAL);
    var chunk := 0;
    while chunk < |padded| / 64
      invariant chunk <= |padded| / 64
      invariant state[..] == AsSeq(HashBlocks(padded, chunk))
    {
      CompressBlock(padded[64 * chunk..64 * (chunk + 1)], words, state);
      chunk := chunk + 1;
    }
    var digest := new Byte[20];
    for index := 0 to 5
      invariant state[..] == AsSeq(HashBlocks(padded, |padded| / 64))
      invariant digest[..4 * index] == WordsBytes(state[..index])
    {
      var bytes := WordBytes(state[index]);
      ghost var done := digest[..4 * index];
      forall k | 0 <= k < 4 { digest[4 * index + k] := bytes[k]; }
      assert digest[..4 * (index + 1)] == done + bytes;
      OneMoreWord(state[..], index);
    }
    assert state[..5] == state[..] && digest[..20] == digest[..];
    output := digest[..];
  }
}
