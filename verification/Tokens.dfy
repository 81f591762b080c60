/**
 Token estimates and bounded truncation, src/runtime_core/knowledge/compaction/token_budget.rs:3-107.
 A text is a sequence of Unicode scalars, each with its UTF-8 width.
 */
module Tokens {
  import Utf8

  const MARKER := "\n[compacted]\n"

  function Width(c: char): (n: nat)
    ensures 1 <= n <= 4
  {
    if c < '\U{0080}' then 1 else if c < '\U{0800}' then 2 else if c < '\U{10000}' then 3 else 4
  }

  /** The length in bytes. */
  function Bytes(text: string): nat {
    if text == "" then 0 else Bytes(text[..|text| - 1]) + Width(text[|text| - 1])
  }

  /** It is the length of the text in UTF-8. */
  lemma {:induction false} BytesAreUtf8(text: string)
    ensures Bytes(text) == |Utf8.Encode(text)|
  {
    hide Width;
    if text != "" {
      var front, last := text[..|text| - 1], text[|text| - 1];
      BytesAreUtf8(front);
      assert text == front + [last];
      Utf8.EncodeOfConcat(front, [last]);
      assert Utf8.Encode([last]) == Utf8.EncodeChar(last) + Utf8.Encode([]);
      WidthIsUtf8(last);
    }
  }

  lemma WidthIsUtf8(c: char)
    ensures Width(c) == |Utf8.EncodeChar(c)|
  {}

  function CeilDiv(a: nat, b: nat): nat
    requires b > 0
  {
    (a + b - 1) / b
  }

  function Max(a: nat, b: nat): nat { if a >= b then a else b }

  function Min(a: nat, b: nat): nat { if a <= b then a else b }

  function SaturatingSub(a: nat, b: nat): nat { if a >= b then a - b else 0 }

  function EstimateTokens(text: string): nat {
    if text == "" then 0 else Max(Max(CeilDiv(|text|, 3), CeilDiv(Bytes(text), 4)), 1)
  }

  /** A text fits a budget exactly when it has at most three characters and four bytes a token. */
  lemma FitsExactly(text: string, max: nat)
    ensures EstimateTokens(text) <= max <==> |text| <= 3 * max && Bytes(text) <= 4 * max
  {
    if text != "" {
      assert |text| > 0;
    }
  }

  lemma {:induction false} BytesOfConcat(a: string, b: string)
    ensures Bytes(a + b) == Bytes(a) + Bytes(b)
  {
    if b == "" {
      assert a + b == a;
    } else {
      BytesOfConcat(a, b[..|b| - 1]);
      assert (a + b)[..|a + b| - 1] == a + b[..|b| - 1];
    }
  }

  predicate IsSuffix(part: string, text: string) {
    |part| <= |text| && text[|text| - |part|..] == part
  }

  /** The longest suffix within both limits: taking one more character would break one of them. */
  predicate LongestTail(part: string, text: string, maxChars: nat, maxBytes: nat) {
    && IsSuffix(part, text)
    && |part| <= maxChars && Bytes(part) <= maxBytes
    && (|part| == |text| || |part| == maxChars || Bytes(part) + Width(text[|text| - |part| - 1]) > maxBytes)
  }

  function BoundedTail(text: string, maxChars: nat, maxBytes: nat): string {
    TailFrom(text, |text|, maxChars, maxBytes)
  }

  function TailFrom(text: string, start: nat, maxChars: nat, maxBytes: nat): string
    requires start <= |text|
  {
    if start == 0 || |text| - start >= maxChars || Bytes(text[start..]) + Width(text[start - 1]) > maxBytes then text[start..]
    else TailFrom(text, start - 1, maxChars, maxBytes)
  }

  lemma OneMoreCharacter(text: string, start: nat)
    requires 0 < start <= |text|
    ensures Bytes(text[start - 1..]) == Width(text[start - 1]) + Bytes(text[start..])
  {
    var c := text[start - 1];
    assert text[start - 1..] == [c] + text[start..];
    BytesOfConcat([c], text[start..]);
    assert Bytes([c]) == Width(c);
  }

  lemma {:induction false} TailFromIsLongest(text: string, start: nat, maxChars: nat, maxBytes: nat)
    requires start <= |text| && |text| - start <= maxChars && Bytes(text[start..]) <= maxBytes
    ensures LongestTail(TailFrom(text, start, maxChars, maxBytes), text, maxChars, maxBytes)
    decreases start
  {
    hide Bytes, Width;
    if start == 0 || |text| - start >= maxChars || Bytes(text[start..]) + Width(text[start - 1]) > maxBytes {
    } else {
      OneMoreCharacter(text, start);
      TailFromIsLongest(text, start - 1, maxChars, maxBytes);
    }
  }

  lemma BoundedTailIsLongest(text: string, maxChars: nat, maxBytes: nat)
    ensures LongestTail(BoundedTail(text, maxChars, maxBytes), text, maxChars, maxBytes)
  {
    assert text[|text|..] == "";
    TailFromIsLongest(text, |text|, maxChars, maxBytes);
  }

  function BoundedHead(text: string, maxChars: nat, maxBytes: nat): (part: string)
    ensures part <= text && |part| <= maxChars && Bytes(part) <= maxBytes
    ensures |part| == |text| || |part| == maxChars || Bytes(part) + Width(text[|part|]) > maxBytes
    decreases maxChars
  {
    HeadFrom(text, 0, maxChars, maxBytes)
  }

  function HeadFrom(text: string, taken: nat, maxChars: nat, maxBytes: nat): (part: string)
    requires taken <= |text| && taken <= maxChars && Bytes(text[..taken]) <= maxBytes
    ensures part <= text && taken <= |part| <= maxChars && Bytes(part) <= maxBytes
    ensures |part| == |text| || |part| == maxChars || Bytes(part) + Width(text[|part|]) > maxBytes
    decreases |text| - taken
  {
    if taken == |text| || taken == maxChars || Bytes(text[..taken]) + Width(text[taken]) > maxBytes then text[..taken]
    else
      assert text[..taken + 1][..taken] == text[..taken];
      HeadFrom(text, taken + 1, maxChars, maxBytes)
  }

  lemma ShorterTailIsNot(a: string, b: string, text: string, maxChars: nat, maxBytes: nat)
    requires IsSuffix(a, text) && IsSuffix(b, text) && |a| < |b| <= maxChars && Bytes(b) <= maxBytes
    ensures !LongestTail(a, text, maxChars, maxBytes)
  {
    var at := |text| - |a|;
    var c, front := text[at - 1], text[|text| - |b|..at - 1];
    assert b == front + ([c] + a);
    BytesOfConcat(front, [c] + a);
    BytesOfConcat([c], a);
    assert Bytes([c]) == Width(c);
  }

  /** The bounded tail is the longest one, and there is no other. */
  lemma BoundedTailExactly(part: string, text: string, maxChars: nat, maxBytes: nat)
    ensures LongestTail(part, text, maxChars, maxBytes) <==> part == BoundedTail(text, maxChars, maxBytes)
  {
    hide BoundedTail, Bytes, Width;
    var tail := BoundedTail(text, maxChars, maxBytes);
    BoundedTailIsLongest(text, maxChars, maxBytes);
    if LongestTail(part, text, maxChars, maxBytes) {
      if |part| < |tail| {
        ShorterTailIsNot(part, tail, text, maxChars, maxBytes);
      } else if |tail| < |part| {
        ShorterTailIsNot(tail, part, text, maxChars, maxBytes);
      }
    }
  }

  /** The loop over the characters from the back. */
  method TailLoop(text: string, maxChars: nat, maxBytes: nat) returns (part: string)
    ensures part == BoundedTail(text, maxChars, maxBytes)
  {
    hide Width, Bytes;
    var bytes, chars := 0, 0;
    var start: nat := |text|;
    EmptyBytes(text);
    while start > 0
      invariant 0 <= start <= |text| && chars == |text| - start
      invariant bytes == Bytes(text[start..]) && chars <= maxChars
      invariant TailFrom(text, start, maxChars, maxBytes) == BoundedTail(text, maxChars, maxBytes)
    {
      var c := text[start - 1];
      if chars == maxChars || bytes + Width(c) > maxBytes {
        return text[start..];
      }
      OneMoreCharacter(text, start);
      bytes := bytes + Width(c);
      chars := chars + 1;
      start := start - 1;
    }
    part := text[start..];
  }

  lemma EmptyBytes(text: string)
    ensures Bytes(text[|text|..]) == 0
  {}

  lemma {:induction false} AsciiBytes(text: string)
    requires forall i | 0 <= i < |text| :: Width(text[i]) == 1
    ensures Bytes(text) == |text|
  {
    if text != "" {
      AsciiBytes(text[..|text| - 1]);
    }
  }

  lemma MarkerCost()
    ensures |MARKER| == 13 && Bytes(MARKER) == 13 && EstimateTokens(MARKER) == 5
  {
    AsciiBytes(MARKER);
  }

  /** truncate_tail_to_estimated_tokens: the text itself, or the marker and its longest fitting end. */
  function TruncateTail(text: string, max: nat): string {
    if max == 0 then ""
    else if EstimateTokens(text) <= max then text
    else if EstimateTokens(MARKER) >= max then BoundedHead(MARKER, 3 * max, 4 * max)
    else MARKER + BoundedTail(text, SaturatingSub(3 * max, |MARKER|), SaturatingSub(4 * max, Bytes(MARKER)))
  }

  /** The marker with the longest end that fits behind it. */
  lemma MarkedTailFits(text: string, max: nat)
    requires EstimateTokens(MARKER) < max
    ensures EstimateTokens(MARKER + BoundedTail(text, 3 * max - 13, 4 * max - 13)) <= max
  {
    hide EstimateTokens, BoundedTail, Bytes, Width;
    MarkerCost();
    var part := BoundedTail(text, 3 * max - 13, 4 * max - 13);
    BoundedTailExactly(part, text, 3 * max - 13, 4 * max - 13);
    BytesOfConcat(MARKER, part);
    FitsExactly(MARKER + part, max);
  }

  /** Truncation keeps within any budget, and only a zero budget or an empty text gives nothing. */
  lemma TruncationFits(text: string, max: nat)
    ensures EstimateTokens(TruncateTail(text, max)) <= max
    ensures TruncateTail(text, max) == "" <==> max == 0 || text == ""
    ensures EstimateTokens(text) <= max ==> TruncateTail(text, max) == text
  {
    hide EstimateTokens, BoundedTail, BoundedHead, Bytes, Width;
    MarkerCost();
    NothingCostsNothing("");
    NothingCostsNothing(text);
    if max > 0 && EstimateTokens(text) > max {
      if EstimateTokens(MARKER) >= max {
        FitsExactly(BoundedHead(MARKER, 3 * max, 4 * max), max);
        HeadIsSomething(max);
      } else {
        MarkedTailFits(text, max);
      }
    }
  }

  /** The longest front within both limits. */
  predicate LongestFront(part: string, text: string, maxChars: nat, maxBytes: nat) {
    && part <= text && |part| <= maxChars && Bytes(part) <= maxBytes
    && (|part| == |text| || |part| == maxChars || Bytes(part) + Width(text[|part|]) > maxBytes)
  }

  lemma BoundedHeadExactly(part: string, text: string, maxChars: nat, maxBytes: nat)
    ensures LongestFront(part, text, maxChars, maxBytes) <==> part == BoundedHead(text, maxChars, maxBytes)
  {
    hide BoundedHead, Bytes, Width;
    var head := BoundedHead(text, maxChars, maxBytes);
    if LongestFront(part, text, maxChars, maxBytes) {
      if |part| < |head| {
        ShorterFrontIsNot(part, head, text, maxChars, maxBytes);
      } else if |head| < |part| {
        ShorterFrontIsNot(head, part, text, maxChars, maxBytes);
      }
    }
  }

  lemma ShorterFrontIsNot(a: string, b: string, text: string, maxChars: nat, maxBytes: nat)
    requires a <= text && b <= text && |a| < |b| <= maxChars && Bytes(b) <= maxBytes
    ensures !LongestFront(a, text, maxChars, maxBytes)
  {
    var c, back := text[|a|], b[|a| + 1..];
    assert b == a + ([c] + back);
    BytesOfConcat(a, [c] + back);
    BytesOfConcat([c], back);
    assert Bytes([c]) == Width(c);
  }

  /**
   What is shown of a text under a budget of max tokens, at three characters and four bytes a token:
   all of it when it fits; else the marker with the longest end of the text that fits behind it; or
   the longest front of the marker when not even that fits.
   */
  predicate IsTruncation(text: string, max: nat, shown: string) {
    if |text| <= 3 * max && Bytes(text) <= 4 * max then shown == text
    else if max <= 5 then LongestFront(shown, "\n[compacted]\n", 3 * max, 4 * max)
    else && "\n[compacted]\n" <= shown
         && LongestTail(shown[13..], text, 3 * max - 13, 4 * max - 13)
  }

  lemma TruncatedExactly(text: string, max: nat, shown: string)
    ensures IsTruncation(text, max, shown) <==> shown == TruncateTail(text, max)
  {
    hide EstimateTokens, BoundedTail, BoundedHead, Bytes, Width, LongestTail, LongestFront;
    MarkerCost();
    FitsExactly(text, max);
    NothingFits(shown, text, max);
    if EstimateTokens(text) > max > 0 {
      BoundedHeadExactly(shown, MARKER, 3 * max, 4 * max);
      if max > 5 {
        var part := BoundedTail(text, 3 * max - 13, 4 * max - 13);
        if MARKER <= shown {
          assert shown == MARKER + shown[13..];
          BoundedTailExactly(shown[13..], text, 3 * max - 13, 4 * max - 13);
        }
        assert (MARKER + part)[13..] == part;
      }
    }
  }

  lemma NothingFits(shown: string, text: string, max: nat)
    ensures max == 0 && |text| > 0 ==> (LongestFront(shown, MARKER, 3 * max, 4 * max) <==> shown == "")
    ensures max == 0 && text == "" ==> Bytes(text) == 0
    ensures EstimateTokens(text) > 0 <==> text != ""
  {
    assert Bytes("") == 0;
  }

  lemma NothingCostsNothing(text: string)
    ensures EstimateTokens(text) == 0 <==> text == ""
  {}

  lemma HeadIsSomething(max: nat)
    requires max > 0
    ensures BoundedHead(MARKER, 3 * max, 4 * max) != ""
  {}
}
