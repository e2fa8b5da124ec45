/** The lookup tables of the two checksums and the byte-at-a-time loops that use them. */
module CrcTables {
  import opened Crc

  type Byte = bv8

  const CRC8_INIT: Byte := 0x77
  const CRC16_INIT: bv16 := 0x3692

  /** `crc8_table`, sixteen entries for each value of the high nibble. */
  function Crc8Entry(i: bv8): Byte {
    var l := i & 0x0f;
    match i >> 4
    case 0 => (match l
      case 0 => 0x00 case 1 => 0x5e case 2 => 0xbc case 3 => 0xe2 case 4 => 0x61 case 5 => 0x3f case 6 => 0xdd case 7 => 0x83
      case 8 => 0xc2 case 9 => 0x9c case 10 => 0x7e case 11 => 0x20 case 12 => 0xa3 case 13 => 0xfd case 14 => 0x1f case _ => 0x41)
    case 1 => (match l
      case 0 => 0x9d case 1 => 0xc3 case 2 => 0x21 case 3 => 0x7f case 4 => 0xfc case 5 => 0xa2 case 6 => 0x40 case 7 => 0x1e
      case 8 => 0x5f case 9 => 0x01 case 10 => 0xe3 case 11 => 0xbd case 12 => 0x3e case 13 => 0x60 case 14 => 0x82 case _ => 0xdc)
    case 2 => (match l
      case 0 => 0x23 case 1 => 0x7d case 2 => 0x9f case 3 => 0xc1 case 4 => 0x42 case 5 => 0x1c case 6 => 0xfe case 7 => 0xa0
      case 8 => 0xe1 case 9 => 0xbf case 10 => 0x5d case 11 => 0x03 case 12 => 0x80 case 13 => 0xde case 14 => 0x3c case _ => 0x62)
    case 3 => (match l
      case 0 => 0xbe case 1 => 0xe0 case 2 => 0x02 case 3 => 0x5c case 4 => 0xdf case 5 => 0x81 case 6 => 0x63 case 7 => 0x3d
      case 8 => 0x7c case 9 => 0x22 case 10 => 0xc0 case 11 => 0x9e case 12 => 0x1d case 13 => 0x43 case 14 => 0xa1 case _ => 0xff)
    case 4 => (match l
      case 0 => 0x46 case 1 => 0x18 case 2 => 0xfa case 3 => 0xa4 case 4 => 0x27 case 5 => 0x79 case 6 => 0x9b case 7 => 0xc5
      case 8 => 0x84 case 9 => 0xda case 10 => 0x38 case 11 => 0x66 case 12 => 0xe5 case 13 => 0xbb case 14 => 0x59 case _ => 0x07)
    case 5 => (match l
      case 0 => 0xdb case 1 => 0x85 case 2 => 0x67 case 3 => 0x39 case 4 => 0xba case 5 => 0xe4 case 6 => 0x06 case 7 => 0x58
      case 8 => 0x19 case 9 => 0x47 case 10 => 0xa5 case 11 => 0xfb case 12 => 0x78 case 13 => 0x26 case 14 => 0xc4 case _ => 0x9a)
    case 6 => (match l
      case 0 => 0x65 case 1 => 0x3b case 2 => 0xd9 case 3 => 0x87 case 4 => 0x04 case 5 => 0x5a case 6 => 0xb8 case 7 => 0xe6
      case 8 => 0xa7 case 9 => 0xf9 case 10 => 0x1b case 11 => 0x45 case 12 => 0xc6 case 13 => 0x98 case 14 => 0x7a case _ => 0x24)
    case 7 => (match l
      case 0 => 0xf8 case 1 => 0xa6 case 2 => 0x44 case 3 => 0x1a case 4 => 0x99 case 5 => 0xc7 case 6 => 0x25 case 7 => 0x7b
      case 8 => 0x3a case 9 => 0x64 case 10 => 0x86 case 11 => 0xd8 case 12 => 0x5b case 13 => 0x05 case 14 => 0xe7 case _ => 0xb9)
    case 8 => (match l
      case 0 => 0x8c case 1 => 0xd2 case 2 => 0x30 case 3 => 0x6e case 4 => 0xed case 5 => 0xb3 case 6 => 0x51 case 7 => 0x0f
      case 8 => 0x4e case 9 => 0x10 case 10 => 0xf2 case 11 => 0xac case 12 => 0x2f case 13 => 0x71 case 14 => 0x93 case _ => 0xcd)
    case 9 => (match l
      case 0 => 0x11 case 1 => 0x4f case 2 => 0xad case 3 => 0xf3 case 4 => 0x70 case 5 => 0x2e case 6 => 0xcc case 7 => 0x92
      case 8 => 0xd3 case 9 => 0x8d case 10 => 0x6f case 11 => 0x31 case 12 => 0xb2 case 13 => 0xec case 14 => 0x0e case _ => 0x50)
    case 10 => (match l
      case 0 => 0xaf case 1 => 0xf1 case 2 => 0x13 case 3 => 0x4d case 4 => 0xce case 5 => 0x90 case 6 => 0x72 case 7 => 0x2c
      case 8 => 0x6d case 9 => 0x33 case 10 => 0xd1 case 11 => 0x8f case 12 => 0x0c case 13 => 0x52 case 14 => 0xb0 case _ => 0xee)
    case 11 => (match l
      case 0 => 0x32 case 1 => 0x6c case 2 => 0x8e case 3 => 0xd0 case 4 => 0x53 case 5 => 0x0d case 6 => 0xef case 7 => 0xb1
      case 8 => 0xf0 case 9 => 0xae case 10 => 0x4c case 11 => 0x12 case 12 => 0x91 case 13 => 0xcf case 14 => 0x2d case _ => 0x73)
    case 12 => (match l
      case 0 => 0xca case 1 => 0x94 case 2 => 0x76 case 3 => 0x28 case 4 => 0xab case 5 => 0xf5 case 6 => 0x17 case 7 => 0x49
      case 8 => 0x08 case 9 => 0x56 case 10 => 0xb4 case 11 => 0xea case 12 => 0x69 case 13 => 0x37 case 14 => 0xd5 case _ => 0x8b)
    case 13 => (match l
      case 0 => 0x57 case 1 => 0x09 case 2 => 0xeb case 3 => 0xb5 case 4 => 0x36 case 5 => 0x68 case 6 => 0x8a case 7 => 0xd4
      case 8 => 0x95 case 9 => 0xcb case 10 => 0x29 case 11 => 0x77 case 12 => 0xf4 case 13 => 0xaa case 14 => 0x48 case _ => 0x16)
    case 14 => (match l
      case 0 => 0xe9 case 1 => 0xb7 case 2 => 0x55 case 3 => 0x0b case 4 => 0x88 case 5 => 0xd6 case 6 => 0x34 case 7 => 0x6a
      case 8 => 0x2b case 9 => 0x75 case 10 => 0x97 case 11 => 0xc9 case 12 => 0x4a case 13 => 0x14 case 14 => 0xf6 case _ => 0xa8)
    case _ => (match l
      case 0 => 0x74 case 1 => 0x2a case 2 => 0xc8 case 3 => 0x96 case 4 => 0x15 case 5 => 0x4b case 6 => 0xa9 case 7 => 0xf7
      case 8 => 0xb6 case 9 => 0xe8 case 10 => 0x0a case 11 => 0x54 case 12 => 0xd7 case 13 => 0x89 case 14 => 0x6b case _ => 0x35)
  }

  /** `crc16_table`, in the same layout. */
  function Crc16Entry(i: bv8): bv16 {
    var l := i & 0x0f;
    match i >> 4
    case 0 => (match l
      case 0 => 0x0000 case 1 => 0x1189 case 2 => 0x2312 case 3 => 0x329b case 4 => 0x4624 case 5 => 0x57ad case 6 => 0x6536 case 7 => 0x74bf
      case 8 => 0x8c48 case 9 => 0x9dc1 case 10 => 0xaf5a case 11 => 0xbed3 case 12 => 0xca6c case 13 => 0xdbe5 case 14 => 0xe97e case _ => 0xf8f7)
    case 1 => (match l
      case 0 => 0x1081 case 1 => 0x0108 case 2 => 0x3393 case 3 => 0x221a case 4 => 0x56a5 case 5 => 0x472c case 6 => 0x75b7 case 7 => 0x643e
      case 8 => 0x9cc9 case 9 => 0x8d40 case 10 => 0xbfdb case 11 => 0xae52 case 12 => 0xdaed case 13 => 0xcb64 case 14 => 0xf9ff case _ => 0xe876)
    case 2 => (match l
      case 0 => 0x2102 case 1 => 0x308b case 2 => 0x0210 case 3 => 0x1399 case 4 => 0x6726 case 5 => 0x76af case 6 => 0x4434 case 7 => 0x55bd
      case 8 => 0xad4a case 9 => 0xbcc3 case 10 => 0x8e58 case 11 => 0x9fd1 case 12 => 0xeb6e case 13 => 0xfae7 case 14 => 0xc87c case _ => 0xd9f5)
    case 3 => (match l
      case 0 => 0x3183 case 1 => 0x200a case 2 => 0x1291 case 3 => 0x0318 case 4 => 0x77a7 case 5 => 0x662e case 6 => 0x54b5 case 7 => 0x453c
      case 8 => 0xbdcb case 9 => 0xac42 case 10 => 0x9ed9 case 11 => 0x8f50 case 12 => 0xfbef case 13 => 0xea66 case 14 => 0xd8fd case _ => 0xc974)
    case 4 => (match l
      case 0 => 0x4204 case 1 => 0x538d case 2 => 0x6116 case 3 => 0x709f case 4 => 0x0420 case 5 => 0x15a9 case 6 => 0x2732 case 7 => 0x36bb
      case 8 => 0xce4c case 9 => 0xdfc5 case 10 => 0xed5e case 11 => 0xfcd7 case 12 => 0x8868 case 13 => 0x99e1 case 14 => 0xab7a case _ => 0xbaf3)
    case 5 => (match l
      case 0 => 0x5285 case 1 => 0x430c case 2 => 0x7197 case 3 => 0x601e case 4 => 0x14a1 case 5 => 0x0528 case 6 => 0x37b3 case 7 => 0x263a
      case 8 => 0xdecd case 9 => 0xcf44 case 10 => 0xfddf case 11 => 0xec56 case 12 => 0x98e9 case 13 => 0x8960 case 14 => 0xbbfb case _ => 0xaa72)
    case 6 => (match l
      case 0 => 0x6306 case 1 => 0x728f case 2 => 0x4014 case 3 => 0x519d case 4 => 0x2522 case 5 => 0x34ab case 6 => 0x0630 case 7 => 0x17b9
      case 8 => 0xef4e case 9 => 0xfec7 case 10 => 0xcc5c case 11 => 0xddd5 case 12 => 0xa96a case 13 => 0xb8e3 case 14 => 0x8a78 case _ => 0x9bf1)
    case 7 => (match l
      case 0 => 0x7387 case 1 => 0x620e case 2 => 0x5095 case 3 => 0x411c case 4 => 0x35a3 case 5 => 0x242a case 6 => 0x16b1 case 7 => 0x0738
      case 8 => 0xffcf case 9 => 0xee46 case 10 => 0xdcdd case 11 => 0xcd54 case 12 => 0xb9eb case 13 => 0xa862 case 14 => 0x9af9 case _ => 0x8b70)
    case 8 => (match l
      case 0 => 0x8408 case 1 => 0x9581 case 2 => 0xa71a case 3 => 0xb693 case 4 => 0xc22c case 5 => 0xd3a5 case 6 => 0xe13e case 7 => 0xf0b7
      case 8 => 0x0840 case 9 => 0x19c9 case 10 => 0x2b52 case 11 => 0x3adb case 12 => 0x4e64 case 13 => 0x5fed case 14 => 0x6d76 case _ => 0x7cff)
    case 9 => (match l
      case 0 => 0x9489 case 1 => 0x8500 case 2 => 0xb79b case 3 => 0xa612 case 4 => 0xd2ad case 5 => 0xc324 case 6 => 0xf1bf case 7 => 0xe036
      case 8 => 0x18c1 case 9 => 0x0948 case 10 => 0x3bd3 case 11 => 0x2a5a case 12 => 0x5ee5 case 13 => 0x4f6c case 14 => 0x7df7 case _ => 0x6c7e)
    case 10 => (match l
      case 0 => 0xa50a case 1 => 0xb483 case 2 => 0x8618 case 3 => 0x9791 case 4 => 0xe32e case 5 => 0xf2a7 case 6 => 0xc03c case 7 => 0xd1b5
      case 8 => 0x2942 case 9 => 0x38cb case 10 => 0x0a50 case 11 => 0x1bd9 case 12 => 0x6f66 case 13 => 0x7eef case 14 => 0x4c74 case _ => 0x5dfd)
    case 11 => (match l
      case 0 => 0xb58b case 1 => 0xa402 case 2 => 0x9699 case 3 => 0x8710 case 4 => 0xf3af case 5 => 0xe226 case 6 => 0xd0bd case 7 => 0xc134
      case 8 => 0x39c3 case 9 => 0x284a case 10 => 0x1ad1 case 11 => 0x0b58 case 12 => 0x7fe7 case 13 => 0x6e6e case 14 => 0x5cf5 case _ => 0x4d7c)
    case 12 => (match l
      case 0 => 0xc60c case 1 => 0xd785 case 2 => 0xe51e case 3 => 0xf497 case 4 => 0x8028 case 5 => 0x91a1 case 6 => 0xa33a case 7 => 0xb2b3
      case 8 => 0x4a44 case 9 => 0x5bcd case 10 => 0x6956 case 11 => 0x78df case 12 => 0x0c60 case 13 => 0x1de9 case 14 => 0x2f72 case _ => 0x3efb)
    case 13 => (match l
      case 0 => 0xd68d case 1 => 0xc704 case 2 => 0xf59f case 3 => 0xe416 case 4 => 0x90a9 case 5 => 0x8120 case 6 => 0xb3bb case 7 => 0xa232
      case 8 => 0x5ac5 case 9 => 0x4b4c case 10 => 0x79d7 case 11 => 0x685e case 12 => 0x1ce1 case 13 => 0x0d68 case 14 => 0x3ff3 case _ => 0x2e7a)
    case 14 => (match l
      case 0 => 0xe70e case 1 => 0xf687 case 2 => 0xc41c case 3 => 0xd595 case 4 => 0xa12a case 5 => 0xb0a3 case 6 => 0x8238 case 7 => 0x93b1
      case 8 => 0x6b46 case 9 => 0x7acf case 10 => 0x4854 case 11 => 0x59dd case 12 => 0x2d62 case 13 => 0x3ceb case 14 => 0x0e70 case _ => 0x1ff9)
    case _ => (match l
      case 0 => 0xf78f case 1 => 0xe606 case 2 => 0xd49d case 3 => 0xc514 case 4 => 0xb1ab case 5 => 0xa022 case 6 => 0x92b9 case 7 => 0x8330
      case 8 => 0x7bc7 case 9 => 0x6a4e case 10 => 0x58d5 case 11 => 0x495c case 12 => 0x3de3 case 13 => 0x2c6a case 14 => 0x1ef1 case _ => 0x0f78)
  }

  /** One byte of input. */
  function Update8(c: Byte, b: Byte): Byte {
    Crc8Entry(c ^ b)
  }

  function Update16(c: bv16, b: Byte): bv16 {
    ((c >> 8) & 0xff) ^ Crc16Entry(((c ^ (b as bv16)) & 0xff) as Byte)
  }

  function Crc8From(c: Byte, data: seq<Byte>): Byte
    decreases |data|
  {
    if data == [] then c else Crc8From(Update8(c, data[0]), data[1..])
  }

  function Crc16From(c: bv16, data: seq<Byte>): bv16
    decreases |data|
  {
    if data == [] then c else Crc16From(Update16(c, data[0]), data[1..])
  }

  function Crc8(data: seq<Byte>): Byte {
    Crc8From(CRC8_INIT, data)
  }

  function Crc16(data: seq<Byte>): bv16 {
    Crc16From(CRC16_INIT, data)
  }

  /** `crc8_calc`. */
  method Crc8Calc(data: seq<Byte>, length: nat) returns (crc: Byte)
    requires length <= |data|
    ensures crc == Crc8(data[..length])
  {
    crc := 0x77;
    ghost var m := data[..length];
    assert m[0..] == m;
    for i := 0 to length
      invariant Crc8From(crc, m[i..]) == Crc8(m)
    {
      assert m[i..][1..] == m[i + 1..];
      crc := Crc8Entry(crc ^ data[i]);
    }
  }

  /** `crc16_calc`. */
  method Crc16Calc(data: seq<Byte>, length: nat) returns (crc: bv16)
    requires length <= |data|
    ensures crc == Crc16(data[..length])
  {
    crc := 0x3692;
    ghost var m := data[..length];
    assert m[0..] == m;
    for i := 0 to length
      invariant Crc16From(crc, m[i..]) == Crc16(m)
    {
      assert m[i..][1..] == m[i + 1..];
      crc := ((crc >> 8) & 0xff) ^ Crc16Entry(((crc ^ (data[i] as bv16)) & 0xff) as Byte);
    }
  }

  // ---------- words as bits ----------

  ghost function Mask(i: nat): bv16 {
    match i
    case 0 => 0x1 case 1 => 0x2 case 2 => 0x4 case 3 => 0x8 case 4 => 0x10 case 5 => 0x20 case 6 => 0x40 case 7 => 0x80
    case 8 => 0x100 case 9 => 0x200 case 10 => 0x400 case 11 => 0x800 case 12 => 0x1000 case 13 => 0x2000 case 14 => 0x4000 case 15 => 0x8000
    case _ => 0
  }

  ghost predicate BitAt(x: bv16, i: nat) {
    x & Mask(i) != 0
  }

  ghost function Bits16(x: bv16): (bits: seq<bool>)
    ensures |bits| == 16
  {
    seq(16, i requires 0 <= i < 16 => BitAt(x, i))
  }

  ghost function Bits8(x: Byte): (bits: seq<bool>)
    ensures |bits| == 8
  {
    Bits16(x as bv16)[..8]
  }

  /** A message as bits, the lowest bit of every byte first. */
  ghost function Bits(data: seq<Byte>): (bits: seq<bool>)
    ensures |bits| == 8 * |data|
  {
    if data == [] then [] else Bits8(data[0]) + Bits(data[1..])
  }

  /** x^8 + x^5 + x^4 + 1, reflected. */
  ghost const POLY8: seq<bool> := Bits8(0x8c)

  /** x^16 + x^12 + x^5 + 1, reflected. */
  ghost const POLY16: seq<bool> := Bits16(0x8408)

  lemma MaskSteps(i: nat)
    ensures Mask(i) & (Mask(i) - 1) == 0
    ensures i < 15 ==> Mask(i + 1) == Mask(i) << 1 && Mask(i) & 0x8000 == 0
    ensures i >= 8 ==> Mask(i) & 0xff == 0
    ensures i < 8 ==> Mask(i) & 0xff == Mask(i) && Mask(i + 8) == Mask(i) << 8
  {}

  lemma XorMask(a: bv16, b: bv16, m: bv16)
    requires m & (m - 1) == 0
    ensures (a ^ b) & m != 0 <==> (a & m != 0) != (b & m != 0)
  {}

  lemma ShiftMask(x: bv16, m: bv16)
    requires m & 0x8000 == 0
    ensures (x >> 1) & m == 0 <==> x & (m << 1) == 0
    ensures (x >> 1) & 0x8000 == 0
  {}

  lemma LowMask(x: bv16, m: bv16)
    ensures m & 0xff == 0 ==> (x & 0xff) & m == 0
    ensures m & 0xff == m ==> (x & 0xff) & m == x & m
  {}

  lemma HighMask(x: bv16, m: bv16)
    ensures m & 0xff == 0 ==> ((x >> 8) & 0xff) & m == 0
    ensures m & 0xff == m ==> (((x >> 8) & 0xff) & m == 0 <==> x & (m << 8) == 0)
  {}

  lemma XorBit(a: bv16, b: bv16, i: nat)
    ensures BitAt(a ^ b, i) <==> BitAt(a, i) != BitAt(b, i)
  {
    MaskSteps(i);
    XorMask(a, b, Mask(i));
  }

  lemma TopBitClear(x: bv16)
    ensures !BitAt(x >> 1, 15)
  {}

  lemma ShiftBit(x: bv16, i: nat)
    requires i < 15
    ensures BitAt(x >> 1, i) <==> BitAt(x, i + 1)
  {
    MaskSteps(i);
    ShiftMask(x, Mask(i));
  }

  lemma LowBit(x: bv16, i: nat)
    ensures BitAt(x & 0xff, i) <==> i < 8 && BitAt(x, i)
  {
    MaskSteps(i);
    LowMask(x, Mask(i));
  }

  lemma HighBit(x: bv16, i: nat)
    requires i < 16
    ensures BitAt((x >> 8) & 0xff, i) <==> i + 8 < 16 && BitAt(x, i + 8)
  {
    MaskSteps(i);
    HighMask(x, Mask(i));
  }

  lemma XorBits(a: bv16, b: bv16)
    ensures Bits16(a ^ b) == Xor(Bits16(a), Bits16(b))
  {
    forall i | 0 <= i < 16 ensures BitAt(a ^ b, i) <==> BitAt(a, i) != BitAt(b, i) {
      XorBit(a, b, i);
    }
  }

  lemma ShiftedAt(x: bv16, i: nat)
    requires i < 16
    ensures Bits16(x >> 1)[i] == Drop(Bits16(x), 1)[i]
  {
    if i < 15 {
      ShiftBit(x, i);
    } else {
      TopBitClear(x);
    }
  }

  lemma ShiftBits(x: bv16)
    ensures Bits16(x >> 1) == Drop(Bits16(x), 1)
  {
    forall i | 0 <= i < 16 ensures Bits16(x >> 1)[i] == Drop(Bits16(x), 1)[i] {
      ShiftedAt(x, i);
    }
  }

  lemma LowBits(x: bv16)
    ensures Bits16(x & 0xff) == Low(Bits16(x), 8)
  {
    var y := x & 0xff;
    forall i | 0 <= i < 16 ensures BitAt(y, i) <==> i < 8 && BitAt(x, i) {
      LowBit(x, i);
    }
  }

  lemma HighBits(x: bv16)
    ensures Bits16((x >> 8) & 0xff) == Drop(Bits16(x), 8)
  {
    var y := (x >> 8) & 0xff;
    forall i | 0 <= i < 16 ensures BitAt(y, i) <==> i + 8 < 16 && Bits16(x)[i + 8] {
      HighBit(x, i);
    }
  }

  lemma ZeroBits()
    ensures Bits16(0) == Zeros(16)
  {
    forall i | 0 <= i < 16
      ensures Bits16(0)[i] == Zeros(16)[i]
    {
      assert 0 & Mask(i) == 0;
    }
  }

  lemma NoBits(x: bv16)
    requires Bits16(x) == Zeros(16)
    ensures x == 0
  {
    assert forall i | 0 <= i < 16 :: Bits16(x)[i] == BitAt(x, i);
    assert !BitAt(x, 0) && !BitAt(x, 1) && !BitAt(x, 2) && !BitAt(x, 3);
    assert !BitAt(x, 4) && !BitAt(x, 5) && !BitAt(x, 6) && !BitAt(x, 7);
    assert !BitAt(x, 8) && !BitAt(x, 9) && !BitAt(x, 10) && !BitAt(x, 11);
    assert !BitAt(x, 12) && !BitAt(x, 13) && !BitAt(x, 14) && !BitAt(x, 15);
  }

  lemma Bits16Injective(a: bv16, b: bv16)
    requires Bits16(a) == Bits16(b)
    ensures a == b
  {
    XorBits(a, b);
    assert Xor(Bits16(a), Bits16(a)) == Zeros(16);
    NoBits(a ^ b);
  }

  lemma ByteIsLow(a: Byte)
    ensures Bits16(a as bv16) == Low(Bits16(a as bv16), 8)
    ensures Bits8(a) + Zeros(8) == Bits16(a as bv16)
  {
    LowBits(a as bv16);
    assert (a as bv16) & 0xff == a as bv16;
  }

  lemma Bits8Injective(a: Byte, b: Byte)
    requires Bits8(a) == Bits8(b)
    ensures a == b
  {
    ByteIsLow(a);
    ByteIsLow(b);
    Bits16Injective(a as bv16, b as bv16);
  }

  lemma ByteXor(c: Byte, b: Byte)
    ensures (c ^ b) as bv16 == (c as bv16) ^ (b as bv16)
  {}

  lemma Inject8(c: Byte, b: Byte)
    ensures Bits8(c ^ b) == Inject(Bits8(c), Bits8(b))
  {
    ByteXor(c, b);
    XorBits(c as bv16, b as bv16);
  }

  lemma ByteAsWord(b: Byte) returns (w: bv16)
    ensures w == b as bv16
    ensures Bits16(w) == Bits8(b) + Zeros(8)
  {
    ByteIsLow(b);
    w := b as bv16;
  }

  lemma Inject16(c: bv16, b: Byte) returns (x: bv16)
    ensures x == c ^ (b as bv16)
    ensures Bits16(x) == Inject(Bits16(c), Bits8(b))
  {
    var w := ByteAsWord(b);
    XorBits(c, w);
    InjectPadded(Bits16(c), Bits8(b), Bits16(w));
    x := c ^ w;
  }

  // ---------- the tables are eight steps of the register ----------

  ghost function WordStep8(x: Byte): Byte {
    (x >> 1) ^ (if x & 1 == 1 then 0x8c else 0)
  }

  ghost function WordStep16(x: bv16): bv16 {
    (x >> 1) ^ (if x & 1 == 1 then 0x8408 else 0)
  }

  lemma Crc8TableCorrect(i: Byte)
    ensures Crc8Entry(i) == WordStep8(WordStep8(WordStep8(WordStep8(WordStep8(WordStep8(WordStep8(WordStep8(i))))))))
  {
    match i & 0x0f case 0 => case 1 => case 2 => case 3 => case 4 => case 5 => case 6 => case 7 => case 8 => case 9 => case 10 => case 11 => case 12 => case 13 => case 14 => case _ =>
  }

  lemma Crc16TableCorrect(i: Byte)
    ensures Crc16Entry(i) == WordStep16(WordStep16(WordStep16(WordStep16(WordStep16(WordStep16(WordStep16(WordStep16(i as bv16))))))))
  {
    match i & 0x0f case 0 => case 1 => case 2 => case 3 => case 4 => case 5 => case 6 => case 7 => case 8 => case 9 => case 10 => case 11 => case 12 => case 13 => case 14 => case _ =>
  }

  lemma LowestBit(x: bv16)
    ensures Bits16(x)[0] <==> x & 1 == 1
  {}

  lemma StepOfParts(f: seq<bool>, x: seq<bool>)
    requires 0 < |x| == |f|
    ensures Step(f, x) == Xor(Drop(x, 1), if x[0] then f else Zeros(|f|))
  {}

  lemma FeedbackBits(on: bool) returns (p: bv16)
    ensures p == if on then 0x8408 else 0
    ensures Bits16(p) == if on then POLY16 else Zeros(16)
  {
    ZeroBits();
    p := if on then 0x8408 else 0;
  }

  lemma WordStepParts(x: bv16) returns (h: bv16, p: bv16)
    ensures WordStep16(x) == h ^ p
    ensures Bits16(h) == Drop(Bits16(x), 1)
    ensures Bits16(p) == if Bits16(x)[0] then POLY16 else Zeros(16)
  {
    LowestBit(x);
    ShiftBits(x);
    h := x >> 1;
    p := FeedbackBits(x & 1 == 1);
  }

  lemma WordStep16IsStep(x: bv16)
    ensures Bits16(WordStep16(x)) == Step(POLY16, Bits16(x))
  {
    var h, p := WordStepParts(x);
    XorBits(h, p);
    StepOfParts(POLY16, Bits16(x));
  }

  lemma WordStep8AsWord(x: Byte)
    ensures WordStep8(x) as bv16 == ((x as bv16) >> 1) ^ (if (x as bv16) & 1 == 1 then 0x8c else 0)
  {}

  lemma WordStep8IsStep(x: Byte)
    ensures Bits8(WordStep8(x)) == Step(POLY8, Bits8(x))
  {
    var w := x as bv16;
    WordStep8AsWord(x);
    LowestBit(w);
    ShiftBits(w);
    ZeroBits();
    XorBits(w >> 1, if w & 1 == 1 then 0x8c else 0);
    StepOfParts(POLY8, Bits8(x));
    ByteIsLow(x);
    assert Drop(Bits8(x), 1) == Drop(Bits16(w), 1)[..8];
    assert Zeros(16)[..8] == Zeros(8);
  }

  lemma IterEight(f: seq<bool>, x0: seq<bool>, x1: seq<bool>, x2: seq<bool>, x3: seq<bool>, x4: seq<bool>,
                  x5: seq<bool>, x6: seq<bool>, x7: seq<bool>, x8: seq<bool>)
    requires 0 < |x0| == |x1| == |x2| == |x3| == |x4| == |x5| == |x6| == |x7| == |f|
    requires x1 == Step(f, x0) && x2 == Step(f, x1) && x3 == Step(f, x2) && x4 == Step(f, x3)
    requires x5 == Step(f, x4) && x6 == Step(f, x5) && x7 == Step(f, x6) && x8 == Step(f, x7)
    ensures Iter(f, 8, x0) == x8
  {
    assert Iter(f, 8, x0) == Iter(f, 7, x1) == Iter(f, 6, x2) == Iter(f, 5, x3) == Iter(f, 4, x4);
    assert Iter(f, 4, x4) == Iter(f, 3, x5) == Iter(f, 2, x6) == Iter(f, 1, x7) == Iter(f, 0, x8);
  }

  lemma Crc8EntryIsIter(i: Byte)
    ensures Bits8(Crc8Entry(i)) == Iter(POLY8, 8, Bits8(i))
  {
    var x1 := WordStep8(i);
    var x2 := WordStep8(x1);
    var x3 := WordStep8(x2);
    var x4 := WordStep8(x3);
    var x5 := WordStep8(x4);
    var x6 := WordStep8(x5);
    var x7 := WordStep8(x6);
    Crc8TableCorrect(i);
    WordStep8IsStep(i);
    WordStep8IsStep(x1);
    WordStep8IsStep(x2);
    WordStep8IsStep(x3);
    WordStep8IsStep(x4);
    WordStep8IsStep(x5);
    WordStep8IsStep(x6);
    WordStep8IsStep(x7);
    IterEight(POLY8, Bits8(i), Bits8(x1), Bits8(x2), Bits8(x3), Bits8(x4),
              Bits8(x5), Bits8(x6), Bits8(x7), Bits8(Crc8Entry(i)));
  }

  lemma Crc16EntryIsIter(i: Byte)
    ensures Bits16(Crc16Entry(i)) == Iter(POLY16, 8, Bits16(i as bv16))
  {
    var x := i as bv16;
    var x1 := WordStep16(x);
    var x2 := WordStep16(x1);
    var x3 := WordStep16(x2);
    var x4 := WordStep16(x3);
    var x5 := WordStep16(x4);
    var x6 := WordStep16(x5);
    var x7 := WordStep16(x6);
    Crc16TableCorrect(i);
    WordStep16IsStep(x);
    WordStep16IsStep(x1);
    WordStep16IsStep(x2);
    WordStep16IsStep(x3);
    WordStep16IsStep(x4);
    WordStep16IsStep(x5);
    WordStep16IsStep(x6);
    WordStep16IsStep(x7);
    IterEight(POLY16, Bits16(x), Bits16(x1), Bits16(x2), Bits16(x3), Bits16(x4),
              Bits16(x5), Bits16(x6), Bits16(x7), Bits16(Crc16Entry(i)));
  }

  lemma Update8IsSerial(c: Byte, b: Byte)
    ensures Bits8(Update8(c, b)) == Serial(POLY8, Bits8(c), Bits8(b))
  {
    Crc8EntryIsIter(c ^ b);
    Inject8(c, b);
    SerialIsIter(POLY8, Bits8(c), Bits8(b));
  }

  lemma Index16(c: bv16, b: Byte)
    ensures (((c ^ (b as bv16)) & 0xff) as Byte) as bv16 == (c ^ (b as bv16)) & 0xff
    ensures ((c ^ (b as bv16)) >> 8) & 0xff == (c >> 8) & 0xff
  {}

  lemma WordHalves(x: bv16) returns (h: bv16, l: bv16)
    ensures h == (x >> 8) & 0xff && l == x & 0xff
    ensures Bits16(h) == Drop(Bits16(x), 8) && Bits16(l) == Low(Bits16(x), 8)
  {
    LowBits(x);
    HighBits(x);
    h, l := (x >> 8) & 0xff, x & 0xff;
  }

  lemma UpdateParts(c: bv16, b: Byte) returns (x: bv16, h: bv16, k: Byte)
    ensures h == (c >> 8) & 0xff && k == ((c ^ (b as bv16)) & 0xff) as Byte
    ensures Bits16(x) == Inject(Bits16(c), Bits8(b))
    ensures Bits16(h) == Drop(Bits16(x), 8)
    ensures Bits16(k as bv16) == Low(Bits16(x), 8)
  {
    var l;
    x := Inject16(c, b);
    h, l := WordHalves(x);
    Index16(c, b);
    k := l as Byte;
  }

  /** Shift out the low byte, look it up, and xor the high byte back in. */
  lemma Update16IsSerial(c: bv16, b: Byte)
    ensures Bits16(Update16(c, b)) == Serial(POLY16, Bits16(c), Bits8(b))
  {
    var x, h, k := UpdateParts(c, b);
    SerialIsIter(POLY16, Bits16(c), Bits8(b));
    IterByPart(POLY16, 8, Bits16(x));
    Crc16EntryIsIter(k);
    XorBits(h, Crc16Entry(k));
  }

  /** The table-driven CRC-8 is the bit-serial register, on every byte sequence. */
  lemma {:induction false} Crc8IsSerial(c: Byte, data: seq<Byte>)
    ensures Bits8(Crc8From(c, data)) == Serial(POLY8, Bits8(c), Bits(data))
    decreases |data|
  {
    if data != [] {
      Update8IsSerial(c, data[0]);
      SerialAppend(POLY8, Bits8(c), Bits8(data[0]), Bits(data[1..]));
      Crc8IsSerial(Update8(c, data[0]), data[1..]);
    }
  }

  /** The table-driven CRC-16 is the bit-serial register, on every byte sequence. */
  lemma {:induction false} Crc16IsSerial(c: bv16, data: seq<Byte>)
    ensures Bits16(Crc16From(c, data)) == Serial(POLY16, Bits16(c), Bits(data))
    decreases |data|
  {
    if data != [] {
      Update16IsSerial(c, data[0]);
      SerialAppend(POLY16, Bits16(c), Bits8(data[0]), Bits(data[1..]));
      Crc16IsSerial(Update16(c, data[0]), data[1..]);
    }
  }

  // ---------- what the checksums detect ----------

  lemma PolynomialsValid()
    ensures Polynomial(POLY8) && Polynomial(POLY16)
  {
    assert POLY8[7] == BitAt(0x8c, 7) && POLY16[15] == BitAt(0x8408, 15);
  }

  lemma {:induction false} BitsAppend(a: seq<Byte>, b: seq<Byte>)
    ensures Bits(a + b) == Bits(a) + Bits(b)
  {
    if a == [] {
      assert a + b == b;
    } else {
      assert (a + b)[1..] == a[1..] + b;
      BitsAppend(a[1..], b);
    }
  }

  lemma {:induction false} BitsInjective(a: seq<Byte>, b: seq<Byte>)
    requires Bits(a) == Bits(b)
    ensures a == b
  {
    if a != [] && b != [] {
      assert Bits8(a[0]) == Bits(a)[..8] && Bits8(b[0]) == Bits(b)[..8];
      assert Bits(a[1..]) == Bits(a)[8..] && Bits(b[1..]) == Bits(b)[8..];
      Bits8Injective(a[0], b[0]);
      BitsInjective(a[1..], b[1..]);
      assert a == [a[0]] + a[1..] && b == [b[0]] + b[1..];
    }
  }

  lemma BitsOfWindow(pre: seq<Byte>, u: seq<Byte>, post: seq<Byte>)
    ensures Bits(pre + u + post) == Bits(pre) + Bits(u) + Bits(post)
  {
    BitsAppend(pre + u, post);
    BitsAppend(pre, u);
  }

  /** Messages of equal length that differ in one byte have different CRC-8. */
  lemma Crc8DetectsByte(pre: seq<Byte>, a: Byte, b: Byte, post: seq<Byte>)
    ensures Crc8(pre + [a] + post) == Crc8(pre + [b] + post) <==> a == b
  {
    PolynomialsValid();
    BitsOfWindow(pre, [a], post);
    BitsOfWindow(pre, [b], post);
    Crc8IsSerial(CRC8_INIT, pre + [a] + post);
    Crc8IsSerial(CRC8_INIT, pre + [b] + post);
    assert Bits([a]) == Bits8(a) && Bits([b]) == Bits8(b);
    BurstDetected(POLY8, Bits8(CRC8_INIT), Bits(pre), Bits8(a), Bits8(b), Bits(post));
    if Bits8(a) == Bits8(b) {
      Bits8Injective(a, b);
    }
  }

  /** Any error burst of at most sixteen bits, at any bit position of a message of any length,
      changes the CRC-16. */
  lemma Crc16DetectsBurst(m: seq<Byte>, n: seq<Byte>, pre: seq<bool>, u: seq<bool>, v: seq<bool>, post: seq<bool>)
    requires Bits(m) == pre + u + post && Bits(n) == pre + v + post
    requires |u| == |v| <= 16
    ensures Crc16(m) == Crc16(n) <==> m == n
  {
    PolynomialsValid();
    Crc16IsSerial(CRC16_INIT, m);
    Crc16IsSerial(CRC16_INIT, n);
    BurstDetected(POLY16, Bits16(CRC16_INIT), pre, u, v, post);
    if u == v {
      BitsInjective(m, n);
    }
  }

  /** In particular, messages that differ only inside two consecutive bytes have different
      CRC-16. */
  lemma Crc16DetectsTwoBytes(pre: seq<Byte>, u: seq<Byte>, v: seq<Byte>, post: seq<Byte>)
    requires |u| == |v| <= 2
    ensures Crc16(pre + u + post) == Crc16(pre + v + post) <==> u == v
  {
    BitsOfWindow(pre, u, post);
    BitsOfWindow(pre, v, post);
    Crc16DetectsBurst(pre + u + post, pre + v + post, Bits(pre), Bits(u), Bits(v), Bits(post));
    if pre + u + post == pre + v + post {
      assert u == (pre + u + post)[|pre|..|pre| + |u|];
      assert v == (pre + v + post)[|pre|..|pre| + |v|];
    }
  }

  function LowByte(c: bv16): Byte {
    (c & 0xff) as Byte
  }

  function HighByte(c: bv16): Byte {
    ((c >> 8) & 0xff) as Byte
  }

  lemma BytesAsWords(c: bv16)
    ensures LowByte(c) as bv16 == c & 0xff && HighByte(c) as bv16 == (c >> 8) & 0xff
  {}

  lemma HalvesJoin(bits: seq<bool>)
    requires |bits| == 16
    ensures Low(bits, 8)[..8] + Drop(bits, 8)[..8] == bits
  {}

  lemma BytesOfWord(c: bv16)
    ensures Bits8(LowByte(c)) + Bits8(HighByte(c)) == Bits16(c)
  {
    var h, l := WordHalves(c);
    BytesAsWords(c);
    HalvesJoin(Bits16(c));
  }

  lemma TwoBytesBits(lo: Byte, hi: Byte)
    ensures Bits([lo, hi]) == Bits8(lo) + Bits8(hi)
  {
    assert [lo, hi][1..] == [hi];
    assert Bits([hi]) == Bits8(hi);
  }

  /** The CRC-16 over a message and two more bytes is zero exactly when these two bytes are
      the CRC-16 of the message, low byte first. */
  lemma Crc16Residue(m: seq<Byte>, lo: Byte, hi: Byte)
    ensures Crc16(m + [lo, hi]) == 0 <==> [lo, hi] == [LowByte(Crc16(m)), HighByte(Crc16(m))]
  {
    var c, u, r := Crc16(m), [lo, hi], Crc16(m + [lo, hi]);
    var own := [LowByte(c), HighByte(c)];
    PolynomialsValid();
    Crc16IsSerial(CRC16_INIT, m);
    Crc16IsSerial(CRC16_INIT, m + u);
    BitsAppend(m, u);
    SerialAppend(POLY16, Bits16(CRC16_INIT), Bits(m), Bits(u));
    ResidueZero(POLY16, Bits16(c), Bits(u));
    BytesOfWord(c);
    TwoBytesBits(LowByte(c), HighByte(c));
    assert Bits(own) == Bits16(c);
    ZeroBits();
    if Bits(u) == Bits(own) {
      BitsInjective(u, own);
    }
    if Bits16(r) == Zeros(16) {
      NoBits(r);
    }
  }
}
