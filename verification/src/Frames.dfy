/** Frames byte by byte and bit by bit: where each field is, what a truncated frame is worth, and what
    becomes of the attributes. */
module Frames {
  import opened CrcTables
  import opened Protocol

  /** Bit `k` of a byte, counted from the lowest. */
  predicate Bit(b: Byte, k: nat)
    requires k < 8
  {
    (b >> k) & 1 == 1
  }

  /** A number from two bytes, the lower one first. */
  function Word(low: Byte, high: Byte): bv16 {
    ((high as bv16) << 8) | (low as bv16)
  }

  lemma WordOf(n: bv16)
    ensures Word(LowByte(n), HighByte(n)) == n
  {}

  /** The version in the upper six bits next to the length. */
  lemma LengthHighVersion(len: nat) returns (b: Byte)
    ensures b == LengthHigh(len) && b & 0xfc == 4
  {
    var n := len / 256 % 4;
    b := LengthHigh(len);
    if n == 0 {
    } else if n == 1 {
    } else if n == 2 {
    } else {
    }
  }

  /** The layout of every encoded frame. */
  lemma FrameLayout(r: Response, cmdSet: Byte, cmdId: Byte, payload: seq<Byte>) returns (f: seq<Byte>)
    ensures f == Frame(r, cmdSet, cmdId, payload) && |f| == 13 + |payload|
    ensures f[0] == 0x55 && f[2] & 0xfc == 4 && f[3] == Crc8(f[..3])
    ensures (f[2] & 0x3) as nat * 256 + f[1] as nat == |f| % 1024
    ensures f[4] == r.sender && f[5] == r.receiver && Word(f[6], f[7]) == r.seqId && f[9] == cmdSet && f[10] == cmdId
    ensures f[11..|f| - 2] == payload && Word(f[|f| - 2], f[|f| - 1]) == Crc16(f[..|f| - 2])
  {
    f := Frame(r, cmdSet, cmdId, payload);
    DecodeOfEncode(r, cmdSet, cmdId, payload);
    FrameParts(r, cmdSet, cmdId, payload);
    LayoutOfParts(f, r, cmdSet, cmdId);
    TailOfFrame(Head(r, cmdSet, cmdId, 13 + |payload|) + payload);
    FrameAccepted(r, cmdSet, cmdId, payload);
  }

  lemma LayoutOfParts(f: seq<Byte>, r: Response, cmdSet: Byte, cmdId: Byte)
    requires |f| >= 13 && f[..3] == Preamble(|f|) && f[3..11] == Fields(r, cmdSet, cmdId, Crc8(Preamble(|f|)))
    ensures f[0] == 0x55 && f[2] & 0xfc == 4 && f[3] == Crc8(f[..3])
    ensures f[4] == r.sender && f[5] == r.receiver && Word(f[6], f[7]) == r.seqId && f[9] == cmdSet && f[10] == cmdId
  {
    var p, h := f[..3], f[3..11];
    assert f[0] == p[0] && f[2] == p[2];
    var b := LengthHighVersion(|f|);
    assert f[3] == h[0] && f[4] == h[1] && f[5] == h[2] && f[6] == h[3];
    assert f[7] == h[4] && f[9] == h[6] && f[10] == h[7];
    WordOf(r.seqId);
  }

  lemma TailOfFrame(body: seq<Byte>)
    ensures var f := WithCrc(body);
            f[..|f| - 2] == body && Word(f[|f| - 2], f[|f| - 1]) == Crc16(body)
  {
    WordOf(Crc16(body));
  }

  // ---------- truncated frames ----------

  /** A frame of which only `n` bytes have come in is accepted exactly if they are four, for the
      header, and as many as it announces. */
  lemma TruncatedExactly(r: Response, cmdSet: Byte, cmdId: Byte, payload: seq<Byte>, buffer: seq<Byte>, n: nat)
    requires Frame(r, cmdSet, cmdId, payload) <= buffer && n <= |buffer|
    ensures Accepts(buffer, n) <==> n >= 4 && n >= (13 + |payload|) % 1024
  {
    var f := Frame(r, cmdSet, cmdId, payload);
    FrameAccepted(r, cmdSet, cmdId, payload);
    assert buffer[..3] == f[..3] && buffer[1] == f[1] && buffer[2] == f[2] && buffer[3] == f[3] && buffer[0] == f[0];
  }

  /** So up to 1010 bytes of payload, exactly the whole frames are accepted. */
  lemma WholeFramesOnly(r: Response, cmdSet: Byte, cmdId: Byte, payload: seq<Byte>, buffer: seq<Byte>, n: nat)
    requires Frame(r, cmdSet, cmdId, payload) <= buffer && n <= |buffer| && |payload| <= 1010
    ensures Accepts(buffer, n) <==> n >= |Frame(r, cmdSet, cmdId, payload)|
  {
    TruncatedExactly(r, cmdSet, cmdId, payload, buffer, n);
    Announced(n, 13 + |payload|, Accepts(buffer, n));
  }

  lemma Announced(n: nat, length: nat, accepted: bool)
    requires 13 <= length < 1024 && (accepted <==> n >= 4 && n >= length % 1024)
    ensures accepted <==> n >= length
  {}

  // ---------- attributes ----------

  /** Bit 7 says that a message is an acknowledge, and bits 5 and 6 ask for one. */
  lemma AttributeBits(request: Request)
    ensures request.IsAck() <==> Bit(request.attri, 7)
    ensures request.NeedAck() <==> Bit(request.attri, 5) || Bit(request.attri, 6)
  {}

  /** What the receiver of an encoded message reads off its attributes: the demand for an acknowledge
      is the sender's up to its lower two bits, and the acknowledge is the sender's unless the demand
      runs over into it. */
  lemma AttributesDecoded(r: Response, cmdSet: Byte, cmdId: Byte, payload: seq<Byte>) returns (request: Request)
    ensures request == HeaderOf(Frame(r, cmdSet, cmdId, payload)).request
    ensures request.NeedAck() <==> Bit(r.needAck, 0) || Bit(r.needAck, 1)
    ensures request.IsAck() <==> ((r.isAck != 0) != Bit(r.needAck, 2))
  {
    request := HeaderOf(Frame(r, cmdSet, cmdId, payload)).request;
    DecodeOfEncode(r, cmdSet, cmdId, payload);
    AttributesOf(r.isAck, r.needAck, request);
  }

  lemma AttributesOf(isAck: Byte, needAck: Byte, request: Request)
    requires request.attri == (if isAck != 0 then 0x80 else 0) + (needAck << 5)
    ensures request.NeedAck() <==> Bit(needAck, 0) || Bit(needAck, 1)
    ensures request.IsAck() <==> ((isAck != 0) != Bit(needAck, 2))
  {}
}
