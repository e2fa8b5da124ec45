/** Framing of the RoboMaster SDK protocol: `encode_msg` and `decode_request`.

    A frame is: magic byte, ten-bit length, header CRC-8, sender, receiver, sequence number,
    attributes, command set, command id, payload, CRC-16; numbers are little-endian.
 */
module Protocol {
  import opened CrcTables
  import Bytes

  const MAGIC: Byte := 0x55

  datatype Request = Request(sender: Byte, receiver: Byte, seqId: bv16, attri: Byte) {
    predicate IsAck() {
      attri & 0x80 != 0
    }

    predicate NeedAck() {
      (attri & 0x60) >> 5 != 0
    }
  }

  datatype Response = Response(isAck: Byte, seqId: bv16, sender: Byte, receiver: Byte, needAck: Byte) {
    function Attri(): Byte {
      (if isAck != 0 then 0x80 else 0) + (needAck << 5)
    }
  }

  function ResponseTo(request: Request): Response {
    var isAck: Byte := if request.NeedAck() then 1 else 0;
    Response(isAck, request.seqId, request.receiver, request.sender, if isAck == 0 then 1 else 0)
  }

  /** The fields that `decode_request` reads out of a frame. */
  datatype Header = Header(cmdSet: Byte, cmdId: Byte, request: Request)

  const HEADER_SIZE: nat := 11
  const OVERHEAD: nat := 13

  // ---------- the frame as a value ----------

  function LengthLow(len: nat): Byte {
    (len % 256) as Byte
  }

  function LengthHigh(len: nat): Byte {
    ((len / 256 % 4) as Byte) | 4
  }

  function Preamble(len: nat): (p: seq<Byte>)
    ensures |p| == 3
  {
    [MAGIC, LengthLow(len), LengthHigh(len)]
  }

  /** The eight bytes after the preamble. */
  function Fields(r: Response, cmdSet: Byte, cmdId: Byte, crc: Byte): (h: seq<Byte>)
    ensures |h| == 8
  {
    [crc, r.sender, r.receiver, LowByte(r.seqId), HighByte(r.seqId), r.Attri(), cmdSet, cmdId]
  }

  function Head(r: Response, cmdSet: Byte, cmdId: Byte, len: nat): (h: seq<Byte>)
    ensures |h| == HEADER_SIZE
  {
    Preamble(len) + Fields(r, cmdSet, cmdId, Crc8(Preamble(len)))
  }

  function WithCrc(body: seq<Byte>): (f: seq<Byte>)
    ensures |f| == |body| + 2
  {
    body + [LowByte(Crc16(body)), HighByte(Crc16(body))]
  }

  function Frame(r: Response, cmdSet: Byte, cmdId: Byte, payload: seq<Byte>): (f: seq<Byte>)
    ensures |f| == OVERHEAD + |payload|
  {
    WithCrc(Head(r, cmdSet, cmdId, OVERHEAD + |payload|) + payload)
  }

  /** `write<uint16_t>`: little-endian, in place. */
  method WriteUint16(buffer: array<Byte>, index: nat, value: bv16)
    requires index + 2 <= buffer.Length
    modifies buffer
    ensures buffer[..] == old(buffer[..index]) + [LowByte(value), HighByte(value)] + old(buffer[index + 2..])
  {
    buffer[index] := (value & 0xff) as Byte;
    buffer[index + 1] := ((value >> 8) & 0xff) as Byte;
  }

  method WritePreamble(buffer: array<Byte>)
    requires OVERHEAD <= buffer.Length
    modifies buffer
    ensures buffer[..] == Preamble(buffer.Length) + old(buffer[3..])
  {
    var len := buffer.Length;
    buffer[0] := 0x55;
    buffer[1] := (len % 256) as Byte;
    buffer[2] := ((len / 256 % 4) as Byte) | 4;
  }

  method WriteFields(buffer: array<Byte>, r: Response, cmdSet: Byte, cmdId: Byte, crc: Byte)
    requires OVERHEAD <= buffer.Length
    modifies buffer
    ensures buffer[..] == old(buffer[..3]) + Fields(r, cmdSet, cmdId, crc) + old(buffer[11..])
  {
    var low, high, attri := LowByte(r.seqId), HighByte(r.seqId), r.Attri();
    ghost var fields := Fields(r, cmdSet, cmdId, crc);
    assert fields == [crc, r.sender, r.receiver, low, high, attri, cmdSet, cmdId];
    buffer[3] := crc;
    buffer[4] := r.sender;
    buffer[5] := r.receiver;
    buffer[6] := low;
    buffer[7] := high;
    buffer[8] := attri;
    buffer[9] := cmdSet;
    buffer[10] := cmdId;
  }

  method WritePayload(buffer: array<Byte>, payload: seq<Byte>)
    requires buffer.Length == OVERHEAD + |payload|
    modifies buffer
    ensures buffer[..] == old(buffer[..11]) + payload + old(buffer[11 + |payload|..])
  {
    for i := 0 to |payload|
      invariant buffer[..11] == old(buffer[..11])
      invariant buffer[11..11 + i] == payload[..i]
      invariant buffer[11 + |payload|..] == old(buffer[11 + |payload|..])
    {
      buffer[11 + i] := payload[i];
    }
  }

  /** `ResponseT::encode_msg`: the frame is written into a fresh buffer in place. */
  method EncodeMsg(r: Response, cmdSet: Byte, cmdId: Byte, payload: seq<Byte>) returns (buffer: array<Byte>)
    ensures fresh(buffer)
    ensures buffer[..] == Frame(r, cmdSet, cmdId, payload)
  {
    var len := 13 + |payload|;
    buffer := new Byte[len](_ => 0);
    WritePreamble(buffer);
    assert buffer[..][..3] == Preamble(len);
    var crc := Crc8Calc(buffer[..], 3);
    WriteFields(buffer, r, cmdSet, cmdId, crc);
    ghost var head := Head(r, cmdSet, cmdId, len);
    assert buffer[..11] == head;
    WritePayload(buffer, payload);
    assert buffer[..][..len - 2] == head + payload;
    var crcM := Crc16Calc(buffer[..], len - 2);
    WriteUint16(buffer, len - 2, crcM);
  }

  // ---------- decoding ----------

  /** The ten bits of the length: the low byte, and two bits of the next. */
  function LengthOf(low: Byte, high: Byte): nat {
    (high & 0x3) as nat * 256 + low as nat
  }

  function LengthField(buffer: seq<Byte>): nat
    requires |buffer| >= 3
  {
    LengthOf(buffer[1], buffer[2])
  }

  /** The frames that `decode_request` lets through. */
  predicate Accepts(buffer: seq<Byte>, length: nat)
    requires length <= |buffer|
  {
    && length >= 4
    && buffer[0] == MAGIC
    && Crc8(buffer[..3]) == buffer[3]
    && LengthField(buffer) <= length
  }

  function HeaderOf(buffer: seq<Byte>): Header
    requires |buffer| >= HEADER_SIZE
  {
    Header(buffer[9], buffer[10],
           Request(buffer[4], buffer[5], ((buffer[7] as bv16) << 8) + (buffer[6] as bv16), buffer[8]))
  }

  /** `decode_request`. The fixed fields are read from the receive buffer, whatever the number
      of bytes received; the source's callers always pass at least a header of memory. */
  method DecodeRequest(buffer: seq<Byte>, length: nat) returns (ok: bool, header: Header)
    requires length <= |buffer| && HEADER_SIZE <= |buffer|
    ensures ok <==> Accepts(buffer, length)
    ensures ok ==> header == HeaderOf(buffer)
  {
    header := Header(0, 0, Request(0, 0, 0, 0));
    if length < 4 {
      return false, header;
    }
    if buffer[0] != 0x55 {
      return false, header;
    }
    var crc := Crc8Calc(buffer, 3);
    if crc != buffer[3] {
      return false, header;
    }
    var msgLen := (buffer[2] & 0x3) as nat * 256 + buffer[1] as nat;
    if length < msgLen {
      return false, header;
    }
    var seqId := (buffer[7] as bv16) * 256 + (buffer[6] as bv16);
    assert seqId == ((buffer[7] as bv16) << 8) + (buffer[6] as bv16);
    return true, Header(buffer[9], buffer[10], Request(buffer[4], buffer[5], seqId, buffer[8]));
  }

  // ---------- round trip ----------

  lemma HighValue(len: nat) returns (n: nat)
    ensures n == (LengthHigh(len) & 0x3) as nat && n == len / 256 % 4
  {
    n := len / 256 % 4;
    if n == 0 {
    } else if n == 1 {
    } else if n == 2 {
    } else {
    }
  }

  lemma LowValue(len: nat) returns (n: nat)
    ensures n == LengthLow(len) as nat && n == len % 256
  {
    Bytes.SmallByte(len % 256);
    n := len % 256;
  }

  lemma TenBits(len: nat)
    ensures (len / 256 % 4) * 256 + len % 256 == len % 1024
  {}

  lemma LengthOfPreamble(len: nat)
    ensures LengthOf(LengthLow(len), LengthHigh(len)) == len % 1024
  {
    var low := LowValue(len);
    var high := HighValue(len);
    TenBits(len);
  }

  lemma SequenceNumber(n: bv16)
    ensures ((HighByte(n) as bv16) << 8) + (LowByte(n) as bv16) == n
  {}

  lemma FrameParts(r: Response, cmdSet: Byte, cmdId: Byte, payload: seq<Byte>)
    ensures var f := Frame(r, cmdSet, cmdId, payload);
            && f[..3] == Preamble(|f|)
            && f[3..HEADER_SIZE] == Fields(r, cmdSet, cmdId, Crc8(Preamble(|f|)))
            && f[HEADER_SIZE..|f| - 2] == payload
  {}

  lemma HeaderOfFields(f: seq<Byte>, r: Response, cmdSet: Byte, cmdId: Byte, crc: Byte)
    requires |f| >= HEADER_SIZE && f[3..HEADER_SIZE] == Fields(r, cmdSet, cmdId, crc)
    ensures HeaderOf(f) == Header(cmdSet, cmdId, Request(r.sender, r.receiver, r.seqId, r.Attri()))
    ensures f[3] == crc
  {
    var h := f[3..HEADER_SIZE];
    assert f[3] == h[0] && f[4] == h[1] && f[5] == h[2] && f[6] == h[3];
    assert f[7] == h[4] && f[8] == h[5] && f[9] == h[6] && f[10] == h[7];
    SequenceNumber(r.seqId);
  }

  lemma PreambleAccepted(f: seq<Byte>)
    requires |f| >= HEADER_SIZE && f[..3] == Preamble(|f|) && f[3] == Crc8(Preamble(|f|))
    ensures Accepts(f, |f|)
    ensures LengthField(f) == |f| % 1024
  {
    PreambleLength(f);
    RestAtMost(|f|);
    assert f[0] == f[..3][0];
  }

  lemma PreambleLength(f: seq<Byte>)
    requires |f| >= HEADER_SIZE && f[..3] == Preamble(|f|)
    ensures LengthField(f) == |f| % 1024
  {
    var p := f[..3];
    assert f[1] == p[1] && f[2] == p[2];
    LengthOfPreamble(|f|);
  }

  lemma RestAtMost(n: nat)
    ensures n % 1024 <= n
  {}

  lemma FrameAccepted(r: Response, cmdSet: Byte, cmdId: Byte, payload: seq<Byte>)
    ensures var f := Frame(r, cmdSet, cmdId, payload);
            Accepts(f, |f|) && LengthField(f) == |f| % 1024
  {
    var f := Frame(r, cmdSet, cmdId, payload);
    var crc := Crc8(Preamble(|f|));
    FrameParts(r, cmdSet, cmdId, payload);
    assert f[3] == f[3..HEADER_SIZE][0] == crc;
    PreambleAccepted(f);
  }

  lemma LengthKept(n: nat, len: nat, size: nat)
    requires n == len % 1024 && len == OVERHEAD + size
    ensures n == len <==> size <= 1010
  {}

  lemma FrameLength(r: Response, cmdSet: Byte, cmdId: Byte, payload: seq<Byte>)
    ensures var f := Frame(r, cmdSet, cmdId, payload);
            Accepts(f, |f|) && (LengthField(f) == |f| <==> |payload| <= 1010)
  {
    var f := Frame(r, cmdSet, cmdId, payload);
    FrameAccepted(r, cmdSet, cmdId, payload);
    LengthKept(LengthField(f), |f|, |payload|);
  }

  lemma FrameFields(r: Response, cmdSet: Byte, cmdId: Byte, payload: seq<Byte>)
    ensures HeaderOf(Frame(r, cmdSet, cmdId, payload))
         == Header(cmdSet, cmdId, Request(r.sender, r.receiver, r.seqId, r.Attri()))
  {
    var f := Frame(r, cmdSet, cmdId, payload);
    FrameParts(r, cmdSet, cmdId, payload);
    HeaderOfFields(f, r, cmdSet, cmdId, Crc8(Preamble(|f|)));
  }

  /** Decoding an encoded message gives back every field, for payloads of every size; the
      length announced in the header is the real one exactly up to 1010 bytes of payload. */
  lemma DecodeOfEncode(r: Response, cmdSet: Byte, cmdId: Byte, payload: seq<Byte>)
    ensures var f := Frame(r, cmdSet, cmdId, payload);
            && Accepts(f, |f|)
            && HeaderOf(f) == Header(cmdSet, cmdId, Request(r.sender, r.receiver, r.seqId, r.Attri()))
            && f[HEADER_SIZE..|f| - 2] == payload
            && (LengthField(f) == |f| <==> |payload| <= 1010)
  {
    FrameLength(r, cmdSet, cmdId, payload);
    FrameFields(r, cmdSet, cmdId, payload);
    FrameParts(r, cmdSet, cmdId, payload);
  }

  /** The CRC-16 run over a whole encoded frame is zero. */
  lemma FrameResidue(r: Response, cmdSet: Byte, cmdId: Byte, payload: seq<Byte>)
    ensures Crc16(Frame(r, cmdSet, cmdId, payload)) == 0
  {
    var b := Head(r, cmdSet, cmdId, OVERHEAD + |payload|) + payload;
    Crc16Residue(b, LowByte(Crc16(b)), HighByte(Crc16(b)));
  }

  /** Any error burst of at most sixteen bits inside an encoded frame leaves a residue. */
  lemma FrameBurstLeavesResidue(r: Response, cmdSet: Byte, cmdId: Byte, payload: seq<Byte>, n: seq<Byte>,
                                pre: seq<bool>, u: seq<bool>, v: seq<bool>, post: seq<bool>)
    requires Bits(Frame(r, cmdSet, cmdId, payload)) == pre + u + post && Bits(n) == pre + v + post
    requires |u| == |v| <= 16
    ensures Crc16(n) == 0 <==> n == Frame(r, cmdSet, cmdId, payload)
  {
    FrameResidue(r, cmdSet, cmdId, payload);
    Crc16DetectsBurst(Frame(r, cmdSet, cmdId, payload), n, pre, u, v, post);
  }

  // ---------- what decoding rejects, and what it does not look at ----------

  /** An accepted frame with exactly one of its first four bytes changed is always rejected. */
  lemma HeaderCorruptionRejected(buffer: seq<Byte>, length: nat, i: nat, b: Byte)
    requires length <= |buffer| && Accepts(buffer, length)
    requires i < 4
    ensures Accepts(buffer[i := b], length) <==> b == buffer[i]
  {
    var m, n := buffer[..3], buffer[i := b][..3];
    if i < 3 {
      assert m == m[..i] + [m[i]] + m[i + 1..];
      assert n == m[..i] + [b] + m[i + 1..];
      Crc8DetectsByte(m[..i], m[i], b, m[i + 1..]);
    } else {
      assert m == n;
    }
    if b == buffer[i] {
      assert buffer[i := b] == buffer;
    }
  }

  /** Acceptance depends on the first four bytes and the length alone: the CRC-16 is not
      checked, so no corruption after the header is rejected. */
  lemma AcceptanceIgnoresBody(m: seq<Byte>, n: seq<Byte>, length: nat)
    requires length <= |m| && length <= |n| && 4 <= |m| && 4 <= |n|
    requires m[..4] == n[..4]
    ensures Accepts(m, length) <==> Accepts(n, length)
  {
    assert m[..3] == m[..4][..3] == n[..4][..3] == n[..3];
    assert forall i | 0 <= i < 4 :: m[i] == m[..4][i] && n[i] == n[..4][i];
  }

  // ---------- the discovery cipher ----------

  function NextKey(key: bv32): bv32 {
    (key + 7) ^ 178
  }

  function CipherByte(key: bv32, b: Byte): Byte {
    (((b as bv32) ^ key) & 0xff) as Byte
  }

  function Cipher(key: bv32, data: seq<Byte>): (r: seq<Byte>)
    ensures |r| == |data|
    decreases |data|
  {
    if data == [] then [] else [CipherByte(key, data[0])] + Cipher(NextKey(key), data[1..])
  }

  /** `encrypt`. */
  method Encrypt(data: seq<Byte>) returns (buf: seq<Byte>)
    ensures buf == Cipher(0x07, data)
  {
    buf := [];
    var key: bv32 := 0x07;
    assert data[0..] == data;
    for i := 0 to |data|
      invariant buf + Cipher(key, data[i..]) == Cipher(0x07, data)
    {
      assert data[i..][1..] == data[i + 1..];
      buf := buf + [CipherByte(key, data[i])];
      key := NextKey(key);
    }
  }

  /** The first bytes of the key stream. */
  lemma KeyStream()
    ensures Cipher(0x07, [0, 0, 0, 0]) == [0x07, 0xbc, 0x71, 0xca]
  {
    var zeros: seq<Byte> := [0, 0, 0, 0];
    assert zeros[1..] == [0, 0, 0] && zeros[1..][1..] == [0, 0] && zeros[1..][1..][1..] == [0];
    assert Cipher(0xca, [0]) == [0xca];
    assert Cipher(0x71, [0, 0]) == [0x71, 0xca];
    assert Cipher(0xbc, [0, 0, 0]) == [0xbc, 0x71, 0xca];
  }

  lemma CipherByteTwice(key: bv32, b: Byte)
    ensures CipherByte(key, CipherByte(key, b)) == b
  {}

  /** The cipher is its own inverse. */
  lemma {:induction false} CipherTwice(key: bv32, data: seq<Byte>)
    ensures Cipher(key, Cipher(key, data)) == data
    decreases |data|
  {
    if data != [] {
      CipherByteTwice(key, data[0]);
      CipherTwice(NextKey(key), data[1..]);
      assert Cipher(key, data)[1..] == Cipher(NextKey(key), data[1..]);
    }
  }
}
