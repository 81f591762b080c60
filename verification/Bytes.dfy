/** Bytes as 8-bit words, and big-endian numbers over them. */
module Bytes {
  type Byte = bv8

  /** The byte x, counted up from zero; it anchors the conversions between numbers and bit-vectors. */
  ghost function Counted(x: nat): Byte
    requires x < 256
  {
    if x == 0 then 0 else Counted(x - 1) + 1
  }

  lemma {:induction false} CountedValue(x: nat)
    requires x < 256
    ensures Counted(x) as int == x
  {
    if x > 0 {
      CountedValue(x - 1);
    }
  }

  lemma ThereAndBack(b: Byte)
    ensures (b as int) as Byte == b
  {}

  lemma ByteOfInt(x: nat)
    requires x < 256
    ensures (x as Byte) as int == x
  {
    CountedValue(x);
    ThereAndBack(Counted(x));
  }

  function Pow256(width: nat): (p: nat)
    ensures p > 0
  {
    if width == 0 then 1 else 256 * Pow256(width - 1)
  }

  /** to_be_bytes */
  function BigEndian(value: nat, width: nat): (s: seq<Byte>)
    ensures |s| == width
  {
    if width == 0 then [] else BigEndian(value / 256, width - 1) + [(value % 256) as Byte]
  }

  /** from_be_bytes */
  function Value(s: seq<Byte>): nat {
    if s == [] then 0 else 256 * Value(s[..|s| - 1]) + s[|s| - 1] as int
  }

  lemma {:induction false} ValueBound(s: seq<Byte>)
    ensures Value(s) < Pow256(|s|)
  {
    if s != [] {
      ValueBound(s[..|s| - 1]);
    }
  }

  lemma {:induction false} ValueOfBigEndian(value: nat, width: nat)
    requires value < Pow256(width)
    ensures Value(BigEndian(value, width)) == value
  {
    if width > 0 {
      var s := BigEndian(value, width);
      assert s[..width - 1] == BigEndian(value / 256, width - 1);
      ValueOfBigEndian(value / 256, width - 1);
      ByteOfInt(value % 256);
    }
  }
}
