/**
 The client side of RFC 6455 framing as src/adapters/browser/websocket.rs:51-218 runs it:
 a buffered reader over a socket that delivers its bytes in arbitrary pieces and may fail.
 */
module WebSocket {
  import opened Wrappers
  import opened Bytes
  import opened Utf8
  import Sha1
  import Base64

  const MAX_HANDSHAKE_BYTES: nat := 16 * 1024
  const MAX_FRAME_BYTES: nat := 1024 * 1024
  const MAX_CONTROL_PAYLOAD_BYTES: nat := 125

  datatype Error =
    | Io | Fragmented | WrongMasking | TooLarge | ClosedDuringHandshake | HandshakeTooLarge
    | NotUtf8 | ClosedByPeer | BadOpcode | TooManyControlFrames

  datatype Frame = Frame(opcode: Byte, payload: seq<Byte>)

  predicate IsControl(opcode: Byte) {
    0x8 <= opcode <= 0xA
  }

  // ---- The bits of the two header bytes ---------------------------------------------------

  function Flagged(b: Byte): Byte { 0x80 | b }

  predicate HasFlag(b: Byte) { b & 0x80 != 0 }

  function LowNibble(b: Byte): Byte { b & 0x0f }

  function HighNibble(b: Byte): Byte { b & 0xf0 }

  function LengthBits(b: Byte): Byte { b & 0x7f }

  // ---- RFC 6455 section 5.2, written from the standard --------------------------------

  /** The 7-bit length and the extended length that follows it, in the shortest form. */
  function LengthCode(length: nat): (Byte, seq<Byte>) {
    if length <= 125 then (length as Byte, [])
    else if length <= 0xffff then (126, BigEndian(length, 2))
    else (127, BigEndian(length, 8))
  }

  /** A complete unmasked frame, as a server sends it. */
  function ServerFrame(f: Frame): seq<Byte> {
    var (code, extended) := LengthCode(|f.payload|);
    [Flagged(f.opcode), code] + extended + f.payload
  }

  /** The frames a server may send to this client: complete, 4-bit opcode, within its limits. */
  predicate Legal(f: Frame) {
    && f.opcode < 0x10
    && |f.payload| <= MAX_FRAME_BYTES
    && (IsControl(f.opcode) ==> |f.payload| <= MAX_CONTROL_PAYLOAD_BYTES)
  }

  function Masked(payload: seq<Byte>, mask: seq<Byte>): (s: seq<Byte>)
    requires |mask| == 4
    ensures |s| == |payload|
  {
    seq(|payload|, i requires 0 <= i < |payload| => payload[i] ^ mask[i % 4])
  }

  datatype Parsed =
    | NeedMore
    | Rejected(error: Error)
    | Parsed(frame: Frame, rest: seq<Byte>)

  /** The header of a frame: its payload length and where the payload (or the mask) begins. */
  function HeaderLength(bytes: seq<Byte>): Option<(nat, nat)>
    requires |bytes| >= 2
  {
    var code := LengthBits(bytes[1]);
    if code <= 125 then Some((code as nat, 2))
    else if code == 126 then
      if |bytes| < 4 then None else Some((Value(bytes[2..4]), 4))
    else
      if |bytes| < 10 then None else Some((Value(bytes[2..10]), 10))
  }

  /** The part of a frame behind its header. */
  function PayloadAt(opcode: Byte, bytes: seq<Byte>, start: nat, length: nat): Parsed {
    if length > MAX_FRAME_BYTES || (IsControl(opcode) && length > MAX_CONTROL_PAYLOAD_BYTES) then Rejected(TooLarge)
    else if |bytes| < start + length then NeedMore
    else Parsed(Frame(opcode, bytes[start..start + length]), bytes[start + length..])
  }

  /** What the client makes of a byte stream: the reference for read_frame. */
  function ParseServer(bytes: seq<Byte>): Parsed {
    if |bytes| < 2 then NeedMore
    else if !HasFlag(bytes[0]) then Rejected(Fragmented)
    else if HasFlag(bytes[1]) then Rejected(WrongMasking)
    else
      var header := HeaderLength(bytes);
      if header.None? then NeedMore
      else
        PayloadAt(LowNibble(bytes[0]), bytes, header.value.1, header.value.0)
  }

  /** What a server makes of the bytes this client sends (section 5.3: always masked). */
  function ParseClient(bytes: seq<Byte>): Parsed {
    if |bytes| < 2 then NeedMore
    else if HighNibble(bytes[0]) != 0x80 then Rejected(Fragmented)
    else if !HasFlag(bytes[1]) then Rejected(WrongMasking)
    else
      var header := HeaderLength(bytes);
      if header.None? then NeedMore
      else
        var (length, start) := header.value;
        if |bytes| < start + 4 + length then NeedMore
        else
          var mask := bytes[start..start + 4];
          Parsed(Frame(LowNibble(bytes[0]), Masked(bytes[start + 4..start + 4 + length], mask)), bytes[start + 4 + length..])
  }

  /** A complete masked frame, as section 5.3 has a client send it. */
  function ClientFrame(f: Frame, mask: seq<Byte>): seq<Byte>
    requires |mask| == 4
  {
    var (code, extended) := LengthCode(|f.payload|);
    [Flagged(f.opcode), Flagged(code)] + extended + mask + Masked(f.payload, mask)
  }

  function ServerFrames(frames: seq<Frame>): seq<Byte> {
    if frames == [] then [] else ServerFrame(frames[0]) + ServerFrames(frames[1..])
  }

  // ---- Round trips ------------------------------------------------------------------------

  lemma MaskTwice(b: Byte, m: Byte)
    ensures (b ^ m) ^ m == b
  {}

  lemma UnmaskingRestores(payload: seq<Byte>, mask: seq<Byte>)
    requires |mask| == 4
    ensures Masked(Masked(payload, mask), mask) == payload
  {
    var twice := Masked(Masked(payload, mask), mask);
    forall i | 0 <= i < |payload|
      ensures twice[i] == payload[i]
    {
      MaskTwice(payload[i], mask[i % 4]);
    }
  }

  lemma OpcodeBits(opcode: Byte)
    requires opcode < 0x10
    ensures HasFlag(Flagged(opcode)) && HighNibble(Flagged(opcode)) == 0x80
    ensures LowNibble(Flagged(opcode)) == opcode
  {}

  lemma MaskBit(code: Byte)
    requires code <= 127
    ensures !HasFlag(code) && LengthBits(code) == code
    ensures HasFlag(Flagged(code)) && LengthBits(Flagged(code)) == code
  {}

  /** The three ranges of the length code, whatever follows it; the shortest form is chosen. */
  lemma LengthCodeRecovered(bytes: seq<Byte>, length: nat)
    requires length < 0x1_0000_0000_0000_0000
    requires |bytes| >= 2
    requires LengthBits(bytes[1]) == LengthCode(length).0
    requires LengthCode(length).1 <= bytes[2..]
    ensures LengthCode(length).0 <= 127
    ensures HeaderLength(bytes) == Some((length, 2 + |LengthCode(length).1|))
  {
    var (code, extended) := LengthCode(length);
    if length <= 125 {
      SmallCode(length);
    } else if length <= 0xffff {
      assert Pow256(2) == 0x1_0000;
      ValueOfBigEndian(length, 2);
      assert bytes[2..4] == extended;
    } else {
      EightBytes();
      ValueOfBigEndian(length, 8);
      assert bytes[2..10] == extended;
    }
  }

  lemma SmallCode(length: nat)
    requires length <= 125
    ensures (length as Byte) as int == length
    ensures (length as Byte) <= 125
  {
    ByteOfInt(length);
  }

  lemma EightBytes()
    ensures Pow256(8) == 0x1_0000_0000_0000_0000
  {
    assert Pow256(4) == 0x1_0000_0000;
  }

  lemma LengthCodeFits(length: nat)
    ensures LengthCode(length).0 <= 127
  {
    if length <= 125 {
      SmallCode(length);
    }
  }

  lemma FrameParts(head: seq<Byte>, extended: seq<Byte>, body: seq<Byte>, rest: seq<Byte>)
    requires |head| == 2
    ensures var bytes := head + extended + body + rest;
            && bytes[..2] == head
            && extended <= bytes[2..]
            && bytes[2 + |extended|..2 + |extended| + |body|] == body
            && bytes[2 + |extended| + |body|..] == rest
  {}

  lemma ServerFrameReadBack(f: Frame, rest: seq<Byte>)
    requires Legal(f)
    ensures ParseServer(ServerFrame(f) + rest) == Parsed(f, rest)
  {
    hide LengthCode, HeaderLength, Flagged, HasFlag, LowNibble, LengthBits;
    var bytes := ServerFrame(f) + rest;
    var (code, extended) := LengthCode(|f.payload|);
    OpcodeBits(f.opcode);
    LengthCodeFits(|f.payload|);
    MaskBit(code);
    var head := [Flagged(f.opcode), code];
    FrameParts(head, extended, f.payload, rest);
    assert bytes[0] == bytes[..2][0] && bytes[1] == bytes[..2][1];
    LengthCodeRecovered(bytes, |f.payload|);
  }

  lemma MaskedFrameParts(head: seq<Byte>, extended: seq<Byte>, mask: seq<Byte>, hidden: seq<Byte>, rest: seq<Byte>)
    requires |head| == 2 && |mask| == 4
    ensures var bytes := head + extended + mask + hidden + rest;
            var start := 2 + |extended|;
            && bytes[..2] == head
            && extended <= bytes[2..]
            && bytes[start..start + 4] == mask
            && bytes[start + 4..start + 4 + |hidden|] == hidden
            && bytes[start + 4 + |hidden|..] == rest
  {
    FrameParts(head, extended + mask, hidden, rest);
    assert head + extended + mask + hidden + rest == head + (extended + mask) + hidden + rest;
  }

  /** A server following section 5.3 reads back opcode and payload from whatever mask was drawn. */
  lemma ClientFrameReadBack(f: Frame, mask: seq<Byte>, rest: seq<Byte>)
    requires f.opcode < 0x10 && |mask| == 4
    requires |f.payload| < 0x1_0000_0000_0000_0000
    ensures ParseClient(ClientFrame(f, mask) + rest) == Parsed(f, rest)
  {
    hide LengthCode, HeaderLength, Masked, Flagged, HasFlag, LowNibble, HighNibble, LengthBits;
    var hidden := Masked(f.payload, mask);
    var bytes := ClientFrame(f, mask) + rest;
    var (code, extended) := LengthCode(|f.payload|);
    OpcodeBits(f.opcode);
    LengthCodeFits(|f.payload|);
    MaskBit(code);
    var head := [Flagged(f.opcode), Flagged(code)];
    MaskedFrameParts(head, extended, mask, hidden, rest);
    assert bytes[0] == bytes[..2][0] && bytes[1] == bytes[..2][1];
    LengthCodeRecovered(bytes, |f.payload|);
    UnmaskingRestores(f.payload, mask);
  }

  /** No other header is shorter: any header the decoder accepts for this length has at least as many bytes. */
  lemma LengthCodeIsShortest(bytes: seq<Byte>, length: nat, start: nat)
    requires |bytes| >= 2
    requires HeaderLength(bytes) == Some((length, start))
    ensures 2 + |LengthCode(length).1| <= start
  {
    var code := LengthBits(bytes[1]);
    if code == 126 {
      ValueBound(bytes[2..4]);
      assert Pow256(2) == 0x1_0000;
    } else if code <= 125 {
      SmallByte(code);
    }
  }

  lemma SmallByte(b: Byte)
    requires b <= 125
    ensures b as int <= 125
  {}

  /** Which frames are refused, in bits and numbers: continued ones, masked ones, and those that announce too much. */
  lemma RefusedExactly(bytes: seq<Byte>)
    requires |bytes| >= 2
    ensures ParseServer(bytes) == Rejected(Fragmented) <==> bytes[0] < 0x80
    ensures ParseServer(bytes) == Rejected(WrongMasking) <==> bytes[0] >= 0x80 && bytes[1] >= 0x80
    ensures ParseServer(bytes) == Rejected(TooLarge)
            <==> && bytes[0] >= 0x80 && bytes[1] < 0x80 && HeaderLength(bytes).Some?
                 && var length := HeaderLength(bytes).value.0;
                    length > 1_048_576 || (0x8 <= bytes[0] & 0x0f <= 0xA && length > 125)
  {
    TopBit(bytes[0]);
    TopBit(bytes[1]);
    if bytes[0] >= 0x80 {
      ControlBits(bytes[0]);
    }
    hide HasFlag, LowNibble, IsControl, HeaderLength;
  }

  lemma TopBit(b: Byte)
    ensures HasFlag(b) <==> b >= 0x80
  {}

  lemma ControlBits(b: Byte)
    requires b >= 0x80
    ensures IsControl(LowNibble(b)) <==> 0x8 <= b & 0x0f <= 0xA
  {}

  lemma ParsedControlIsShort(bytes: seq<Byte>)
    requires ParseServer(bytes).Parsed? && IsControl(ParseServer(bytes).frame.opcode)
    ensures |ParseServer(bytes).frame.payload| <= MAX_CONTROL_PAYLOAD_BYTES
  {}

  // ---- The end of the handshake -----------------------------------------------------------

  const TERMINATOR: seq<Byte> := [13, 10, 13, 10]

  predicate TerminatorAt(bytes: seq<Byte>, i: nat) {
    i + 4 <= |bytes| && bytes[i..i + 4] == TERMINATOR
  }

  /** The first blank line of the response starts at end. */
  predicate IsHeaderEnd(bytes: seq<Byte>, end: nat) {
    && TerminatorAt(bytes, end)
    && forall i: nat | i < end :: !TerminatorAt(bytes, i)
  }

  ghost predicate NoTerminator(bytes: seq<Byte>) {
    forall i: nat :: !TerminatorAt(bytes, i)
  }

  lemma HeaderEndOfPrefix(bytes: seq<Byte>, n: nat)
    requires n <= |bytes|
    ensures forall end: nat :: IsHeaderEnd(bytes[..n], end) <==> IsHeaderEnd(bytes, end) && end + 4 <= n
    ensures NoTerminator(bytes[..n]) ==> forall end: nat | IsHeaderEnd(bytes, end) :: end + 4 > n
  {
    forall i: nat
      ensures TerminatorAt(bytes[..n], i) <==> TerminatorAt(bytes, i) && i + 4 <= n
    {
      if i + 4 <= n {
        assert bytes[..n][i..i + 4] == bytes[i..i + 4];
      }
    }
  }

  /** The headers end at the first "\r\n\r\n". */
  lemma TerminatorSpelled()
    ensures TERMINATOR == Encode("\r\n\r\n")
  {
    hide Encode;
    var text := "\r\n\r\n";
    AsciiEncoded(text);
    assert forall i | 0 <= i < 4 :: TERMINATOR[i] == Encode(text)[i];
  }

  lemma HeaderEndIsUnique(bytes: seq<Byte>, one: nat, other: nat)
    requires IsHeaderEnd(bytes, one) && IsHeaderEnd(bytes, other)
    ensures one == other
  {
    assert one < other || other < one || one == other;
  }

  lemma HeaderEndSplits(bytes: seq<Byte>, end: nat)
    requires IsHeaderEnd(bytes, end)
    ensures end + 4 <= |bytes| && bytes == bytes[..end] + TERMINATOR + bytes[end + 4..]
  {}

  /** What a fault-free stream must offer for the handshake to succeed under every chunking. */
  ghost predicate Admissible(bytes: seq<Byte>) {
    exists end: nat :: IsHeaderEnd(bytes, end) && end + 4 + 1023 <= 16_384 && ValidUtf8(bytes[..end])
  }

  /** The position of the first window equal to CRLF CRLF. */
  method FindHeaderEnd(bytes: seq<Byte>) returns (end: Option<nat>)
    ensures end.Some? ==> IsHeaderEnd(bytes, end.value)
    ensures end.None? ==> NoTerminator(bytes)
  {
    var i := 0;
    while i + 4 <= |bytes|
      invariant forall j: nat | j < i :: !TerminatorAt(bytes, j)
    {
      if bytes[i..i + 4] == TERMINATOR {
        return Some(i);
      }
      i := i + 1;
    }
    end := None;
  }

  // ---- What one call of read_text makes of the stream ---------------------------------------

  const ROUNDS: nat := 16

  /** The outcome, the payloads of the pings met on the way, and the bytes left for the next call. */
  function Listen(bytes: seq<Byte>, rounds: nat): (Result<seq<Byte>, Error>, seq<seq<Byte>>, seq<Byte>) {
    if rounds == 0 then (Failure(TooManyControlFrames), [], bytes)
    else match ParseServer(bytes)
      case NeedMore => (Failure(Io), [], bytes)
      case Rejected(error) => (Failure(error), [], bytes)
      case Parsed(frame, rest) =>
        if frame.opcode == 0x1 then
          (if ValidUtf8(frame.payload) then Success(frame.payload) else Failure(NotUtf8), [], rest)
        else if frame.opcode == 0x8 then (Failure(ClosedByPeer), [], rest)
        else if frame.opcode == 0x9 then
          var (outcome, pings, left) := Listen(rest, rounds - 1);
          (outcome, [frame.payload] + pings, left)
        else if frame.opcode == 0xA then Listen(rest, rounds - 1)
        else (Failure(BadOpcode), [], rest)
  }

  /** What was heard, behind the pings met before. */
  function Behind(pings: seq<seq<Byte>>, heard: (Result<seq<Byte>, Error>, seq<seq<Byte>>, seq<Byte>))
    : (Result<seq<Byte>, Error>, seq<seq<Byte>>, seq<Byte>)
  {
    (heard.0, pings + heard.1, heard.2)
  }

  lemma NothingHeard(pings: seq<seq<Byte>>, bytes: seq<Byte>)
    ensures Behind(pings, Listen(bytes, 0)) == (Failure(TooManyControlFrames), pings, bytes)
  {
    assert pings + [] == pings;
  }

  /** One round, behind the pings met before. */
  lemma NextHeard(pings: seq<seq<Byte>>, bytes: seq<Byte>, rounds: nat)
    requires rounds > 0
    ensures var p := ParseServer(bytes);
            var heard := Behind(pings, Listen(bytes, rounds));
            && (p.NeedMore? ==> heard.0 == Failure(Io))
            && (p.Rejected? ==> heard.0 == Failure(p.error))
            && (p.Parsed? ==>
                  var payload := p.frame.payload;
                  if p.frame.opcode == 0x1 then
                    heard == (if ValidUtf8(payload) then Success(payload) else Failure(NotUtf8), pings, p.rest)
                  else if p.frame.opcode == 0x9 then heard == Behind(pings + [payload], Listen(p.rest, rounds - 1))
                  else if p.frame.opcode == 0xA then heard == Behind(pings, Listen(p.rest, rounds - 1))
                  else heard.0 == Failure(if p.frame.opcode == 0x8 then ClosedByPeer else BadOpcode))
  {
    hide ParseServer, ValidUtf8;
    assert pings + [] == pings;
    var p := ParseServer(bytes);
    if p.Parsed? && p.frame.opcode == 0x9 {
      var later := Listen(p.rest, rounds - 1).1;
      assert pings + ([p.frame.payload] + later) == pings + [p.frame.payload] + later;
    }
  }

  function Pings(frames: seq<Frame>): seq<seq<Byte>> {
    if frames == [] then []
    else (if frames[0].opcode == 0x9 then [frames[0].payload] else []) + Pings(frames[1..])
  }

  /** Up to fifteen pings and pongs before a text frame are absorbed and any text, in whatever script, comes back whole. */
  lemma {:induction false} TextBehindControls(controls: seq<Frame>, text: string, rest: seq<Byte>, rounds: nat)
    requires |controls| < rounds
    requires forall i | 0 <= i < |controls| :: Legal(controls[i]) && (controls[i].opcode == 0x9 || controls[i].opcode == 0xA)
    requires |Encode(text)| <= MAX_FRAME_BYTES
    ensures Listen(ServerFrames(controls) + (ServerFrame(Frame(0x1, Encode(text))) + rest), rounds)
         == (Success(Encode(text)), Pings(controls), rest)
  {
    hide ServerFrame, ParseServer, ValidUtf8, Encode;
    var tail := ServerFrame(Frame(0x1, Encode(text))) + rest;
    if controls == [] {
      assert ServerFrames(controls) + tail == tail;
      ServerFrameReadBack(Frame(0x1, Encode(text)), rest);
      EncodedIsValid(text);
    } else {
      var after := ServerFrames(controls[1..]) + tail;
      assert ServerFrames(controls) + tail == ServerFrame(controls[0]) + after;
      ServerFrameReadBack(controls[0], after);
      TextBehindControls(controls[1..], text, rest, rounds - 1);
      assert Listen(after, rounds - 1) == (Success(Encode(text)), Pings(controls[1..]), rest);
      assert [] + Pings(controls[1..]) == Pings(controls[1..]);
    }
  }

  /** The replies as they went out: one pong a ping, the last one last, each under its own mask. */
  function Pongs(pings: seq<seq<Byte>>, masks: seq<seq<Byte>>): seq<Byte>
    requires |masks| == |pings| && forall m | m in masks :: |m| == 4
  {
    if pings == [] then []
    else Pongs(pings[..|pings| - 1], masks[..|pings| - 1]) + ClientFrame(Frame(0xA, pings[|pings| - 1]), masks[|pings| - 1])
  }

  lemma NoPings()
    ensures Pongs([], []) == []
  {}

  lemma OneMorePong(pings: seq<seq<Byte>>, masks: seq<seq<Byte>>, ping: seq<Byte>, mask: seq<Byte>)
    requires |masks| == |pings| && forall m | m in masks :: |m| == 4
    requires |mask| == 4
    ensures Pongs(pings + [ping], masks + [mask]) == Pongs(pings, masks) + ClientFrame(Frame(0xA, ping), mask)
  {
    assert (pings + [ping])[..|pings|] == pings && (masks + [mask])[..|pings|] == masks;
  }

  /** A server's reading of a run of frames. */
  function ParseClients(bytes: seq<Byte>, count: nat): Option<(seq<Frame>, seq<Byte>)> {
    if count == 0 then Some(([], bytes))
    else match ParseClient(bytes)
      case Parsed(frame, rest) =>
        (match ParseClients(rest, count - 1)
         case Some((frames, left)) => Some(([frame] + frames, left))
         case None => None)
      case _ => None
  }

  lemma {:induction false} ParseClientsAppend(bytes: seq<Byte>, count: nat, frames: seq<Frame>, rest: seq<Byte>, last: Frame, left: seq<Byte>)
    requires ParseClients(bytes, count) == Some((frames, rest)) && ParseClient(rest) == Parsed(last, left)
    ensures ParseClients(bytes, count + 1) == Some((frames + [last], left))
    decreases count
  {
    hide ParseClient;
    if count == 0 {
      assert ParseClients(left, 0) == Some(([], left));
      assert frames + [last] == [last] + [];
    } else {
      var next := ParseClient(bytes).rest;
      assert ParseClients(next, count - 1) == Some((frames[1..], rest));
      ParseClientsAppend(next, count - 1, frames[1..], rest, last, left);
      assert frames + [last] == [frames[0]] + (frames[1..] + [last]);
    }
  }

  /** Every ping is answered by exactly one pong with its payload, in order, and nothing else is sent. */
  lemma {:induction false} PongsReadBack(pings: seq<seq<Byte>>, masks: seq<seq<Byte>>, rest: seq<Byte>)
    requires |masks| == |pings| && forall m | m in masks :: |m| == 4
    requires forall p | p in pings :: |p| <= MAX_CONTROL_PAYLOAD_BYTES
    ensures ParseClients(Pongs(pings, masks) + rest, |pings|)
         == Some((seq(|pings|, i requires 0 <= i < |pings| => Frame(0xA, pings[i])), rest))
  {
    hide ParseClient, ClientFrame;
    var n := |pings|;
    if n == 0 {
      assert Pongs(pings, masks) + rest == rest;
    } else {
      var last := ClientFrame(Frame(0xA, pings[n - 1]), masks[n - 1]);
      assert Pongs(pings, masks) + rest == Pongs(pings[..n - 1], masks[..n - 1]) + (last + rest);
      hide Pongs;
      PongsReadBack(pings[..n - 1], masks[..n - 1], last + rest);
      ClientFrameReadBack(Frame(0xA, pings[n - 1]), masks[n - 1], rest);
      var frames := seq(n - 1, i requires 0 <= i < n - 1 => Frame(0xA, pings[..n - 1][i]));
      ParseClientsAppend(Pongs(pings, masks) + rest, n - 1, frames, last + rest, Frame(0xA, pings[n - 1]), rest);
      assert frames + [Frame(0xA, pings[n - 1])] == seq(n, i requires 0 <= i < n => Frame(0xA, pings[i]));
    }
  }

  // ---- The socket and the client ------------------------------------------------------------

  /**
   A connected socket. incoming is what the peer has sent and no read has returned yet; sent is
   what has gone out. A steady socket has no faults: its reads return at least one byte while
   there is one, and its writes complete. Every other socket may fail at any call.
   */
  class Socket {
    const steady: bool
    var incoming: seq<Byte>
    var sent: seq<Byte>

    constructor (incoming: seq<Byte>, steady: bool)
      ensures this.incoming == incoming && this.sent == [] && this.steady == steady
    {
      this.incoming := incoming;
      this.sent := [];
      this.steady := steady;
    }

    /** One read: any number of the next bytes, up to limit. */
    method Read(limit: nat) returns (r: Result<seq<Byte>, Error>)
      requires limit > 0
      modifies `incoming
      ensures r.Success? ==> |r.value| <= limit && old(incoming) == r.value + incoming
      ensures r.Failure? ==> r.error == Io && incoming == old(incoming)
      ensures steady && old(incoming) != [] ==> r.Success? && r.value != []
    {
      var fault: bool := *;
      if fault && !steady {
        return Failure(Io);
      }
      var least := if steady && incoming != [] then 1 else 0;
      var most := if limit <= |incoming| then limit else |incoming|;
      var count :| least <= count <= most;
      r := Success(incoming[..count]);
      incoming := incoming[count..];
    }

    /** Reads until count bytes have come; a read of none is the end of the stream. */
    method ReadExact(count: nat) returns (r: Result<seq<Byte>, Error>)
      modifies `incoming
      ensures r.Success? ==> |r.value| == count && old(incoming) == r.value + incoming
      ensures r.Failure? ==> r.error == Io && |incoming| <= |old(incoming)|
      ensures steady && |old(incoming)| >= count ==> r.Success?
    {
      var got: seq<Byte> := [];
      while |got| < count
        invariant |got| <= count
        invariant old(incoming) == got + incoming
        decreases count - |got|
      {
        var piece := Read(count - |got|);
        if piece.Failure? {
          return piece;
        }
        if piece.value == [] {
          return Failure(Io);
        }
        got := got + piece.value;
      }
      r := Success(got);
    }

    /** write_all: all of it, or a fault after some part of it. */
    method WriteAll(bytes: seq<Byte>) returns (r: Result<(), Error>)
      modifies `sent
      ensures r.Success? ==> sent == old(sent) + bytes
      ensures r.Failure? ==> r.error == Io && old(sent) <= sent <= old(sent) + bytes
      ensures steady ==> r.Success?
    {
      var written :| 0 <= written <= |bytes|;
      if written < |bytes| && !steady {
        sent := sent + bytes[..written];
        return Failure(Io);
      }
      sent := sent + bytes;
      r := Success(());
    }
  }

  /** The first count bytes of two pieces, the second of which was read as value and rest. */
  lemma CutAcross(first: seq<Byte>, value: seq<Byte>, rest: seq<Byte>, cut: nat, count: nat)
    requires cut == (if count <= |first| then count else |first|) && |value| == count - cut
    ensures count <= |first + (value + rest)|
    ensures (first + (value + rest))[..count] == first[..cut] + value
    ensures (first + (value + rest))[count..] == first[cut..] + rest
  {}

  /** The loop of read_handshake: chunks of up to 1024 bytes until the blank line is in. */
  method ReadHandshake(stream: Socket) returns (r: Result<(seq<Byte>, seq<Byte>), Error>)
    modifies stream`incoming
    ensures r.Success? ==> var (headers, pending) := r.value;
                           && IsHeaderEnd(old(stream.incoming), |headers|)
                           && old(stream.incoming) == headers + TERMINATOR + pending + stream.incoming
                           && |headers| + 4 + |pending| <= 16_384
                           && ValidUtf8(headers)
    ensures stream.steady && Admissible(old(stream.incoming)) ==> r.Success?
  {
    hide TerminatorAt, IsHeaderEnd, NoTerminator, ValidUtf8;
    ghost var all := stream.incoming;
    var response: seq<Byte> := [];
    EmptyHasNoTerminator();
    while true
      invariant all == response + stream.incoming
      invariant |response| <= MAX_HANDSHAKE_BYTES
      invariant NoTerminator(response)
      decreases |stream.incoming|
    {
      ghost var before := response;
      assert before == all[..|before|];
      HeaderEndOfPrefix(all, |before|);
      var chunk := stream.Read(1024);
      if chunk.Failure? {
        assert stream.steady ==> before == all && !Admissible(all) by {
          if stream.steady {
            assert before == all;
            NoTerminatorNoEnd(all);
          }
        }
        return Failure(Io);
      }
      if chunk.value == [] {
        assert stream.steady ==> before == all && !Admissible(all) by {
          if stream.steady {
            assert before == all;
            NoTerminatorNoEnd(all);
          }
        }
        return Failure(ClosedDuringHandshake);
      }
      response := response + chunk.value;
      assert response == all[..|response|];
      if |response| > MAX_HANDSHAKE_BYTES {
        return Failure(HandshakeTooLarge);
      }
      var found := FindHeaderEnd(response);
      if found.Some? {
        var end := found.value;
        HeaderEndOfPrefix(all, |response|);
        HeaderEndSplits(response, end);
        assert response[..end] == all[..end];
        if !ValidUtf8(response[..end]) {
          assert !Admissible(all) by {
            forall other: nat | IsHeaderEnd(all, other) {
              HeaderEndIsUnique(all, end, other);
            }
          }
          return Failure(NotUtf8);
        }
        return Success((response[..end], response[end + 4..]));
      }
    }
  }

  lemma EmptyHasNoTerminator()
    ensures NoTerminator([])
  {}

  lemma NoTerminatorNoEnd(bytes: seq<Byte>)
    requires NoTerminator(bytes)
    ensures !Admissible(bytes)
  {}

  /** The payload, byte by byte under the repeated mask. */
  method MaskPayload(payload: seq<Byte>, mask: seq<Byte>) returns (hidden: seq<Byte>)
    requires |mask| == 4
    ensures hidden == Masked(payload, mask)
  {
    hidden := [];
    for index := 0 to |payload|
      invariant |hidden| == index
      invariant forall i | 0 <= i < index :: hidden[i] == payload[i] ^ mask[i % 4]
    {
      hidden := hidden + [payload[index] ^ mask[index % 4]];
    }
  }

  lemma SliceOfRest(all: seq<Byte>, start: nat, length: nat)
    requires start + length <= |all|
    ensures all[start..][..length] == all[start..start + length]
    ensures all[start..][length..] == all[start + length..]
  {}

  class LocalWebSocket {
    const stream: Socket
    var pending: seq<Byte>

    constructor (stream: Socket, pending: seq<Byte>)
      ensures this.stream == stream && this.pending == pending
    {
      this.stream := stream;
      this.pending := pending;
    }

    /** All bytes not yet handed to a caller, in order. */
    function Stream(): seq<Byte>
      reads this, stream
    {
      pending + stream.incoming
    }

    method ReadExact(count: nat) returns (r: Result<seq<Byte>, Error>)
      modifies `pending, stream`incoming
      ensures r.Success? ==> |r.value| == count <= |old(Stream())| && r.value == old(Stream())[..count] && Stream() == old(Stream())[count..]
      ensures r.Failure? ==> r.error == Io
      ensures stream.steady && count <= |old(Stream())| ==> r.Success?
    {
      var buffered := if count <= |pending| then count else |pending|;
      var head := pending[..buffered];
      pending := pending[buffered..];
      r := stream.ReadExact(count - buffered);
      if r.Success? {
        CutAcross(old(pending), r.value, stream.incoming, buffered, count);
        r := Success(head + r.value);
      }
    }

    /** The length that the second header byte announces; all is the stream from the header on. */
    method ReadLength(code: Byte, ghost all: seq<Byte>) returns (r: Result<nat, Error>, ghost start: nat)
      requires |all| >= 2 && LengthBits(all[1]) == code && Stream() == all[2..]
      modifies `pending, stream`incoming
      ensures r.Success? ==> start <= |all| && HeaderLength(all) == Some((r.value, start)) && Stream() == all[start..]
      ensures r.Failure? ==> r.error == Io
      ensures stream.steady && HeaderLength(all).Some? ==> r.Success?
    {
      hide Value, LengthBits;
      start := 2;
      if code <= 125 {
        return Success(code as nat), start;
      }
      var width := if code == 126 then 2 else 8;
      var bytes := ReadExact(width);
      if bytes.Failure? {
        return Failure(Io), start;
      }
      start := 2 + width;
      SliceOfRest(all, 2, width);
      r := Success(Value(bytes.value));
    }

    /** The next frame of the stream, exactly as ParseServer reads it. */
    method ReadFrame() returns (r: Result<Frame, Error>)
      modifies `pending, stream`incoming
      ensures r.Success? ==> ParseServer(old(Stream())) == Parsed(r.value, Stream())
      ensures r.Failure? ==> r.error == Io || ParseServer(old(Stream())) == Rejected(r.error)
      ensures stream.steady && ParseServer(old(Stream())).Parsed? ==> r.Success?
      ensures stream.steady && ParseServer(old(Stream())).Rejected? ==> r == Failure(ParseServer(old(Stream())).error)
    {
      hide HasFlag, LowNibble, LengthBits, HeaderLength, PayloadAt;
      ghost var all := Stream();
      var header := ReadExact(2);
      if header.Failure? {
        return Failure(Io);
      }
      var first, second := header.value[0], header.value[1];
      if !HasFlag(first) {
        return Failure(Fragmented);
      }
      var opcode := LowNibble(first);
      if HasFlag(second) {
        return Failure(WrongMasking);
      }
      var announced, start := ReadLength(LengthBits(second), all);
      if announced.Failure? {
        return Failure(Io);
      }
      r := ReadPayload(opcode, announced.value, all, start);
    }

    method ReadPayload(opcode: Byte, length: nat, ghost all: seq<Byte>, ghost start: nat) returns (r: Result<Frame, Error>)
      requires start <= |all| && Stream() == all[start..]
      modifies `pending, stream`incoming
      ensures r.Success? ==> PayloadAt(opcode, all, start, length) == Parsed(r.value, Stream())
      ensures r.Failure? ==> r.error == Io || PayloadAt(opcode, all, start, length) == Rejected(r.error)
      ensures stream.steady && PayloadAt(opcode, all, start, length).Parsed? ==> r.Success?
      ensures stream.steady && PayloadAt(opcode, all, start, length).Rejected? ==> r == Failure(PayloadAt(opcode, all, start, length).error)
    {
      if length > MAX_FRAME_BYTES || (IsControl(opcode) && length > MAX_CONTROL_PAYLOAD_BYTES) {
        return Failure(TooLarge);
      }
      var payload := ReadExact(length);
      if payload.Failure? {
        return Failure(Io);
      }
      SliceOfRest(all, start, length);
      r := Success(Frame(opcode, payload.value));
    }

    /** One masked frame, under whatever mask was drawn; an oversized control frame is refused unsent. */
    method SendFrame(opcode: Byte, payload: seq<Byte>, mask: seq<Byte>) returns (r: Result<(), Error>)
      requires |mask| == 4
      requires |payload| < 0x1_0000_0000_0000_0000
      modifies stream`sent
      ensures r.Success? ==> stream.sent == old(stream.sent) + ClientFrame(Frame(opcode, payload), mask)
      ensures r.Failure? ==> old(stream.sent) <= stream.sent
      ensures IsControl(opcode) && |payload| > MAX_CONTROL_PAYLOAD_BYTES ==> r == Failure(TooLarge) && stream.sent == old(stream.sent)
      ensures stream.steady && !(IsControl(opcode) && |payload| > MAX_CONTROL_PAYLOAD_BYTES) ==> r.Success?
    {
      if IsControl(opcode) && |payload| > MAX_CONTROL_PAYLOAD_BYTES {
        return Failure(TooLarge);
      }
      hide Flagged, Masked;
      var frame: seq<Byte> := [Flagged(opcode)];
      if |payload| <= 125 {
        frame := frame + [Flagged(|payload| as Byte)];
      } else if |payload| <= 0xffff {
        frame := frame + [Flagged(126)] + BigEndian(|payload|, 2);
      } else {
        frame := frame + [Flagged(127)] + BigEndian(|payload|, 8);
      }
      var hidden := MaskPayload(payload, mask);
      frame := frame + mask + hidden;
      assert frame == ClientFrame(Frame(opcode, payload), mask);
      r := stream.WriteAll(frame);
    }

    method SendText(text: seq<Byte>, mask: seq<Byte>) returns (r: Result<(), Error>)
      requires |mask| == 4
      modifies stream`sent
      ensures r.Success? ==> |text| <= MAX_FRAME_BYTES && stream.sent == old(stream.sent) + ClientFrame(Frame(0x1, text), mask)
      ensures |text| > MAX_FRAME_BYTES ==> r == Failure(TooLarge) && stream.sent == old(stream.sent)
      ensures stream.steady && |text| <= MAX_FRAME_BYTES ==> r.Success?
    {
      if |text| > MAX_FRAME_BYTES {
        return Failure(TooLarge);
      }
      r := SendFrame(0x1, text, mask);
    }

    /** The next text frame, answering pings on the way; masks are the ones drawn for the pongs. */
    method ReadText() returns (r: Result<seq<Byte>, Error>, ghost pings: seq<seq<Byte>>, ghost masks: seq<seq<Byte>>)
      modifies `pending, stream`incoming, stream`sent
      ensures |masks| == |pings| && forall m | m in masks :: |m| == 4
      ensures r.Success? ==> Listen(old(Stream()), 16) == (r, pings, Stream())
      ensures r.Failure? ==> r.error == Io || r == Listen(old(Stream()), 16).0
      ensures stream.steady ==> r == Listen(old(Stream()), 16).0
      ensures r.Success? ==> stream.sent == old(stream.sent) + Pongs(pings, masks)
      ensures r.Success? ==> exists text: string :: r.value == Encode(text)
    {
      hide ParseServer, ClientFrame, Pongs, ValidUtf8, Listen, Encode;
      ghost var all := Stream();
      pings, masks := [], [];
      NoPings();
      assert [] + Listen(all, ROUNDS).1 == Listen(all, ROUNDS).1;
      var rounds: nat := ROUNDS;
      while rounds > 0
        invariant rounds <= ROUNDS
        invariant |masks| == |pings| && forall m | m in masks :: |m| == 4
        invariant Listen(all, ROUNDS) == Behind(pings, Listen(Stream(), rounds))
        invariant stream.sent == old(stream.sent) + Pongs(pings, masks)
      {
        ghost var heard := Stream();
        NextHeard(pings, heard, rounds);
        var got := ReadFrame();
        if got.Failure? {
          return Failure(got.error), pings, masks;
        }
        var frame := got.value;
        if frame.opcode == 0x1 {
          ValidExactly(frame.payload);
          r := if ValidUtf8(frame.payload) then Success(frame.payload) else Failure(NotUtf8);
          return;
        } else if frame.opcode == 0x8 {
          return Failure(ClosedByPeer), pings, masks;
        } else if frame.opcode == 0x9 {
          var mask := DrawMask();
          ParsedControlIsShort(heard);
          var replied := SendFrame(0xA, frame.payload, mask);
          if replied.Failure? {
            return Failure(Io), pings, masks;
          }
          OneMorePong(pings, masks, frame.payload, mask);
          pings, masks := pings + [frame.payload], masks + [mask];
        } else if frame.opcode != 0xA {
          return Failure(BadOpcode), pings, masks;
        }
        rounds := rounds - 1;
      }
      NothingHeard(pings, Stream());
      r := Failure(TooManyControlFrames);
    }
  }

  /** masking_key: four bytes about which nothing else is known. */
  method DrawMask() returns (mask: seq<Byte>)
    ensures |mask| == 4
  {
    var a: Byte, b: Byte, c: Byte, d: Byte := *, *, *, *;
    mask := [a, b, c, d];
  }

  /**
   A whole session: the handshake, then count frames. Whatever the chunking, the caller gets the
   bytes before the first blank line and then exactly the frames the server encoded, in order.
   */
  method Session(stream: Socket, ghost headers: seq<Byte>, ghost frames: seq<Frame>, count: nat)
    returns (r: Result<(seq<Byte>, seq<Frame>, LocalWebSocket), Error>)
    requires count <= |frames|
    requires forall f | f in frames :: Legal(f)
    requires IsHeaderEnd(stream.incoming, |headers|)
    requires stream.incoming == headers + TERMINATOR + ServerFrames(frames)
    modifies stream
    ensures r.Success? ==> var (head, got, socket) := r.value;
                           && head == headers && got == frames[..count]
                           && socket.stream == stream && socket.Stream() == ServerFrames(frames[count..])
    ensures stream.steady && ValidUtf8(headers) && |headers| + 1027 <= 16_384 ==> r.Success?
  {
    hide ServerFrame, ParseServer, ValidUtf8;
    ghost var all := stream.incoming;
    assert all[..|headers|] == headers;
    var opening := ReadHandshake(stream);
    if opening.Failure? {
      return Failure(opening.error);
    }
    var (head, pending) := opening.value;
    HeaderEndIsUnique(all, |head|, |headers|);
    assert head == all[..|head|];
    var socket := new LocalWebSocket(stream, pending);
    assert socket.Stream() == all[|head| + 4..] == ServerFrames(frames);
    var got: seq<Frame> := [];
    assert frames[0..] == frames;
    for i := 0 to count
      invariant socket.stream == stream && fresh(socket)
      invariant got == frames[..i]
      invariant socket.Stream() == ServerFrames(frames[i..])
    {
      assert frames[i..][0] == frames[i] && frames[i..][1..] == frames[i + 1..];
      assert frames[i] in frames;
      ServerFrameReadBack(frames[i], ServerFrames(frames[i + 1..]));
      var next := socket.ReadFrame();
      if next.Failure? {
        return Failure(next.error);
      }
      got := got + [next.value];
    }
    r := Success((head, got, socket));
  }

  // ---- The accept value of the handshake (RFC 6455 section 4.2.2) ---------------------------

  /** The fixed string of the standard. */
  const GUID: seq<Byte> := Encode("258EAFA5-E914-47DA-95CA-C5AB0DC85B11")

  /** Bytes as the numbers the encoder shifts. */
  function Octets(bytes: seq<Byte>): (numbers: seq<Base64.Octet>)
    ensures |numbers| == |bytes|
    ensures forall i | 0 <= i < |bytes| :: numbers[i] == bytes[i] as nat
  {
    seq(|bytes|, i requires 0 <= i < |bytes| => bytes[i] as nat)
  }

  /** The one header value that decodes to the digest of the key; any other string is refused. */
  method Accepts(key: seq<Byte>, offered: string) returns (ok: bool)
    ensures ok <==> Base64.Decode(offered) == Some(Octets(Sha1.Digest(key + Encode("258EAFA5-E914-47DA-95CA-C5AB0DC85B11"))))
  {
    hide Sha1.Digest, Base64.Encode, Base64.Decode;
    var digest := Sha1.Sha1(key + GUID);
    var expected := Base64.Base64Encode(Octets(digest));
    Base64.Base64Exact(Octets(digest), offered);
    ok := offered == expected;
  }
}
