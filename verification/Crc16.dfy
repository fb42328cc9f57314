/** The table-driven CRC-16 that guards the status frames, and the division it stands for. */
module Crc16 {

  // ---- bit by bit ----

  /** One step of the division by the polynomial, in reflected order. */
  function Shift(c: bv16): bv16 {
    if c & 1 == 1 then (c >> 1) ^ 0xA001 else c >> 1
  }

  function Eight(c: bv16): bv16 {
    Shift(Shift(Shift(Shift(Shift(Shift(Shift(Shift(c))))))))
  }

  /** A byte is added to the low half of the register and shifted through. */
  function Feed(c: bv16, b: bv8): bv16 {
    Eight(Add(c, b))
  }

  function Add(c: bv16, b: bv8): bv16 {
    c ^ b as bv16
  }

  /** The CRC register after some bytes. */
  function Crc(c: bv16, data: seq<bv8>): bv16
    decreases |data|
  {
    if data == [] then c else Crc(Feed(c, data[0]), data[1..])
  }

  lemma {:induction false} CrcSplit(c: bv16, s: seq<bv8>, t: seq<bv8>)
    ensures Crc(c, s + t) == Crc(Crc(c, s), t)
    decreases |s|
  {
    hide Feed;
    if s == [] {
      assert s + t == t;
    } else {
      assert (s + t)[1..] == s[1..] + t;
      CrcSplit(Feed(c, s[0]), s[1..], t);
    }
  }

  // ---- the two byte tables ----

  /** chCRCHTalbe, sixteen entries a row */
  function High(x: bv16): bv8
    requires x < 256
  {
    match x >> 4
    case 0 =>
      (match x & 15
       case 0 => 0x00 case 1 => 0xC1 case 2 => 0x81 case 3 => 0x40
       case 4 => 0x01 case 5 => 0xC0 case 6 => 0x80 case 7 => 0x41
       case 8 => 0x01 case 9 => 0xC0 case 10 => 0x80 case 11 => 0x41
       case 12 => 0x00 case 13 => 0xC1 case 14 => 0x81 case _ => 0x40)
    case 1 =>
      (match x & 15
       case 0 => 0x01 case 1 => 0xC0 case 2 => 0x80 case 3 => 0x41
       case 4 => 0x00 case 5 => 0xC1 case 6 => 0x81 case 7 => 0x40
       case 8 => 0x00 case 9 => 0xC1 case 10 => 0x81 case 11 => 0x40
       case 12 => 0x01 case 13 => 0xC0 case 14 => 0x80 case _ => 0x41)
    case 2 =>
      (match x & 15
       case 0 => 0x01 case 1 => 0xC0 case 2 => 0x80 case 3 => 0x41
       case 4 => 0x00 case 5 => 0xC1 case 6 => 0x81 case 7 => 0x40
       case 8 => 0x00 case 9 => 0xC1 case 10 => 0x81 case 11 => 0x40
       case 12 => 0x01 case 13 => 0xC0 case 14 => 0x80 case _ => 0x41)
    case 3 =>
      (match x & 15
       case 0 => 0x00 case 1 => 0xC1 case 2 => 0x81 case 3 => 0x40
       case 4 => 0x01 case 5 => 0xC0 case 6 => 0x80 case 7 => 0x41
       case 8 => 0x01 case 9 => 0xC0 case 10 => 0x80 case 11 => 0x41
       case 12 => 0x00 case 13 => 0xC1 case 14 => 0x81 case _ => 0x40)
    case 4 =>
      (match x & 15
       case 0 => 0x01 case 1 => 0xC0 case 2 => 0x80 case 3 => 0x41
       case 4 => 0x00 case 5 => 0xC1 case 6 => 0x81 case 7 => 0x40
       case 8 => 0x00 case 9 => 0xC1 case 10 => 0x81 case 11 => 0x40
       case 12 => 0x01 case 13 => 0xC0 case 14 => 0x80 case _ => 0x41)
    case 5 =>
      (match x & 15
       case 0 => 0x00 case 1 => 0xC1 case 2 => 0x81 case 3 => 0x40
       case 4 => 0x01 case 5 => 0xC0 case 6 => 0x80 case 7 => 0x41
       case 8 => 0x01 case 9 => 0xC0 case 10 => 0x80 case 11 => 0x41
       case 12 => 0x00 case 13 => 0xC1 case 14 => 0x81 case _ => 0x40)
    case 6 =>
      (match x & 15
       case 0 => 0x00 case 1 => 0xC1 case 2 => 0x81 case 3 => 0x40
       case 4 => 0x01 case 5 => 0xC0 case 6 => 0x80 case 7 => 0x41
       case 8 => 0x01 case 9 => 0xC0 case 10 => 0x80 case 11 => 0x41
       case 12 => 0x00 case 13 => 0xC1 case 14 => 0x81 case _ => 0x40)
    case 7 =>
      (match x & 15
       case 0 => 0x01 case 1 => 0xC0 case 2 => 0x80 case 3 => 0x41
       case 4 => 0x00 case 5 => 0xC1 case 6 => 0x81 case 7 => 0x40
       case 8 => 0x00 case 9 => 0xC1 case 10 => 0x81 case 11 => 0x40
       case 12 => 0x01 case 13 => 0xC0 case 14 => 0x80 case _ => 0x41)
    case 8 =>
      (match x & 15
       case 0 => 0x01 case 1 => 0xC0 case 2 => 0x80 case 3 => 0x41
       case 4 => 0x00 case 5 => 0xC1 case 6 => 0x81 case 7 => 0x40
       case 8 => 0x00 case 9 => 0xC1 case 10 => 0x81 case 11 => 0x40
       case 12 => 0x01 case 13 => 0xC0 case 14 => 0x80 case _ => 0x41)
    case 9 =>
      (match x & 15
       case 0 => 0x00 case 1 => 0xC1 case 2 => 0x81 case 3 => 0x40
       case 4 => 0x01 case 5 => 0xC0 case 6 => 0x80 case 7 => 0x41
       case 8 => 0x01 case 9 => 0xC0 case 10 => 0x80 case 11 => 0x41
       case 12 => 0x00 case 13 => 0xC1 case 14 => 0x81 case _ => 0x40)
    case 10 =>
      (match x & 15
       case 0 => 0x00 case 1 => 0xC1 case 2 => 0x81 case 3 => 0x40
       case 4 => 0x01 case 5 => 0xC0 case 6 => 0x80 case 7 => 0x41
       case 8 => 0x01 case 9 => 0xC0 case 10 => 0x80 case 11 => 0x41
       case 12 => 0x00 case 13 => 0xC1 case 14 => 0x81 case _ => 0x40)
    case 11 =>
      (match x & 15
       case 0 => 0x01 case 1 => 0xC0 case 2 => 0x80 case 3 => 0x41
       case 4 => 0x00 case 5 => 0xC1 case 6 => 0x81 case 7 => 0x40
       case 8 => 0x00 case 9 => 0xC1 case 10 => 0x81 case 11 => 0x40
       case 12 => 0x01 case 13 => 0xC0 case 14 => 0x80 case _ => 0x41)
    case 12 =>
      (match x & 15
       case 0 => 0x00 case 1 => 0xC1 case 2 => 0x81 case 3 => 0x40
       case 4 => 0x01 case 5 => 0xC0 case 6 => 0x80 case 7 => 0x41
       case 8 => 0x01 case 9 => 0xC0 case 10 => 0x80 case 11 => 0x41
       case 12 => 0x00 case 13 => 0xC1 case 14 => 0x81 case _ => 0x40)
    case 13 =>
      (match x & 15
       case 0 => 0x01 case 1 => 0xC0 case 2 => 0x80 case 3 => 0x41
       case 4 => 0x00 case 5 => 0xC1 case 6 => 0x81 case 7 => 0x40
       case 8 => 0x00 case 9 => 0xC1 case 10 => 0x81 case 11 => 0x40
       case 12 => 0x01 case 13 => 0xC0 case 14 => 0x80 case _ => 0x41)
    case 14 =>
      (match x & 15
       case 0 => 0x01 case 1 => 0xC0 case 2 => 0x80 case 3 => 0x41
       case 4 => 0x00 case 5 => 0xC1 case 6 => 0x81 case 7 => 0x40
       case 8 => 0x00 case 9 => 0xC1 case 10 => 0x81 case 11 => 0x40
       case 12 => 0x01 case 13 => 0xC0 case 14 => 0x80 case _ => 0x41)
    case _ =>
      (match x & 15
       case 0 => 0x00 case 1 => 0xC1 case 2 => 0x81 case 3 => 0x40
       case 4 => 0x01 case 5 => 0xC0 case 6 => 0x80 case 7 => 0x41
       case 8 => 0x01 case 9 => 0xC0 case 10 => 0x80 case 11 => 0x41
       case 12 => 0x00 case 13 => 0xC1 case 14 => 0x81 case _ => 0x40)
  }

  /** chCRCLTalbe */
  function Low(x: bv16): bv8
    requires x < 256
  {
    match x >> 4
    case 0 =>
      (match x & 15
       case 0 => 0x00 case 1 => 0xC0 case 2 => 0xC1 case 3 => 0x01
       case 4 => 0xC3 case 5 => 0x03 case 6 => 0x02 case 7 => 0xC2
       case 8 => 0xC6 case 9 => 0x06 case 10 => 0x07 case 11 => 0xC7
       case 12 => 0x05 case 13 => 0xC5 case 14 => 0xC4 case _ => 0x04)
    case 1 =>
      (match x & 15
       case 0 => 0xCC case 1 => 0x0C case 2 => 0x0D case 3 => 0xCD
       case 4 => 0x0F case 5 => 0xCF case 6 => 0xCE case 7 => 0x0E
       case 8 => 0x0A case 9 => 0xCA case 10 => 0xCB case 11 => 0x0B
       case 12 => 0xC9 case 13 => 0x09 case 14 => 0x08 case _ => 0xC8)
    case 2 =>
      (match x & 15
       case 0 => 0xD8 case 1 => 0x18 case 2 => 0x19 case 3 => 0xD9
       case 4 => 0x1B case 5 => 0xDB case 6 => 0xDA case 7 => 0x1A
       case 8 => 0x1E case 9 => 0xDE case 10 => 0xDF case 11 => 0x1F
       case 12 => 0xDD case 13 => 0x1D case 14 => 0x1C case _ => 0xDC)
    case 3 =>
      (match x & 15
       case 0 => 0x14 case 1 => 0xD4 case 2 => 0xD5 case 3 => 0x15
       case 4 => 0xD7 case 5 => 0x17 case 6 => 0x16 case 7 => 0xD6
       case 8 => 0xD2 case 9 => 0x12 case 10 => 0x13 case 11 => 0xD3
       case 12 => 0x11 case 13 => 0xD1 case 14 => 0xD0 case _ => 0x10)
    case 4 =>
      (match x & 15
       case 0 => 0xF0 case 1 => 0x30 case 2 => 0x31 case 3 => 0xF1
       case 4 => 0x33 case 5 => 0xF3 case 6 => 0xF2 case 7 => 0x32
       case 8 => 0x36 case 9 => 0xF6 case 10 => 0xF7 case 11 => 0x37
       case 12 => 0xF5 case 13 => 0x35 case 14 => 0x34 case _ => 0xF4)
    case 5 =>
      (match x & 15
       case 0 => 0x3C case 1 => 0xFC case 2 => 0xFD case 3 => 0x3D
       case 4 => 0xFF case 5 => 0x3F case 6 => 0x3E case 7 => 0xFE
       case 8 => 0xFA case 9 => 0x3A case 10 => 0x3B case 11 => 0xFB
       case 12 => 0x39 case 13 => 0xF9 case 14 => 0xF8 case _ => 0x38)
    case 6 =>
      (match x & 15
       case 0 => 0x28 case 1 => 0xE8 case 2 => 0xE9 case 3 => 0x29
       case 4 => 0xEB case 5 => 0x2B case 6 => 0x2A case 7 => 0xEA
       case 8 => 0xEE case 9 => 0x2E case 10 => 0x2F case 11 => 0xEF
       case 12 => 0x2D case 13 => 0xED case 14 => 0xEC case _ => 0x2C)
    case 7 =>
      (match x & 15
       case 0 => 0xE4 case 1 => 0x24 case 2 => 0x25 case 3 => 0xE5
       case 4 => 0x27 case 5 => 0xE7 case 6 => 0xE6 case 7 => 0x26
       case 8 => 0x22 case 9 => 0xE2 case 10 => 0xE3 case 11 => 0x23
       case 12 => 0xE1 case 13 => 0x21 case 14 => 0x20 case _ => 0xE0)
    case 8 =>
      (match x & 15
       case 0 => 0xA0 case 1 => 0x60 case 2 => 0x61 case 3 => 0xA1
       case 4 => 0x63 case 5 => 0xA3 case 6 => 0xA2 case 7 => 0x62
       case 8 => 0x66 case 9 => 0xA6 case 10 => 0xA7 case 11 => 0x67
       case 12 => 0xA5 case 13 => 0x65 case 14 => 0x64 case _ => 0xA4)
    case 9 =>
      (match x & 15
       case 0 => 0x6C case 1 => 0xAC case 2 => 0xAD case 3 => 0x6D
       case 4 => 0xAF case 5 => 0x6F case 6 => 0x6E case 7 => 0xAE
       case 8 => 0xAA case 9 => 0x6A case 10 => 0x6B case 11 => 0xAB
       case 12 => 0x69 case 13 => 0xA9 case 14 => 0xA8 case _ => 0x68)
    case 10 =>
      (match x & 15
       case 0 => 0x78 case 1 => 0xB8 case 2 => 0xB9 case 3 => 0x79
       case 4 => 0xBB case 5 => 0x7B case 6 => 0x7A case 7 => 0xBA
       case 8 => 0xBE case 9 => 0x7E case 10 => 0x7F case 11 => 0xBF
       case 12 => 0x7D case 13 => 0xBD case 14 => 0xBC case _ => 0x7C)
    case 11 =>
      (match x & 15
       case 0 => 0xB4 case 1 => 0x74 case 2 => 0x75 case 3 => 0xB5
       case 4 => 0x77 case 5 => 0xB7 case 6 => 0xB6 case 7 => 0x76
       case 8 => 0x72 case 9 => 0xB2 case 10 => 0xB3 case 11 => 0x73
       case 12 => 0xB1 case 13 => 0x71 case 14 => 0x70 case _ => 0xB0)
    case 12 =>
      (match x & 15
       case 0 => 0x50 case 1 => 0x90 case 2 => 0x91 case 3 => 0x51
       case 4 => 0x93 case 5 => 0x53 case 6 => 0x52 case 7 => 0x92
       case 8 => 0x96 case 9 => 0x56 case 10 => 0x57 case 11 => 0x97
       case 12 => 0x55 case 13 => 0x95 case 14 => 0x94 case _ => 0x54)
    case 13 =>
      (match x & 15
       case 0 => 0x9C case 1 => 0x5C case 2 => 0x5D case 3 => 0x9D
       case 4 => 0x5F case 5 => 0x9F case 6 => 0x9E case 7 => 0x5E
       case 8 => 0x5A case 9 => 0x9A case 10 => 0x9B case 11 => 0x5B
       case 12 => 0x99 case 13 => 0x59 case 14 => 0x58 case _ => 0x98)
    case 14 =>
      (match x & 15
       case 0 => 0x88 case 1 => 0x48 case 2 => 0x49 case 3 => 0x89
       case 4 => 0x4B case 5 => 0x8B case 6 => 0x8A case 7 => 0x4A
       case 8 => 0x4E case 9 => 0x8E case 10 => 0x8F case 11 => 0x4F
       case 12 => 0x8D case 13 => 0x4D case 14 => 0x4C case _ => 0x8C)
    case _ =>
      (match x & 15
       case 0 => 0x44 case 1 => 0x84 case 2 => 0x85 case 3 => 0x45
       case 4 => 0x87 case 5 => 0x47 case 6 => 0x46 case 7 => 0x86
       case 8 => 0x82 case 9 => 0x42 case 10 => 0x43 case 11 => 0x83
       case 12 => 0x41 case 13 => 0x81 case 14 => 0x80 case _ => 0x40)
  }

  /** What eight steps make of a single byte: two shifted copies, and a constant if its parity is odd. */
  function Closed(c: bv16): bv16 {
    var a := c ^ (c >> 4);
    var b := a ^ (a >> 2);
    var parity := (b ^ (b >> 1)) & 1;
    (c << 6) ^ (c << 7) ^ parity ^ (parity << 14) ^ (parity << 15)
  }

  lemma ClosedIsEight(c: bv16)
    requires c < 256
    ensures Closed(c) == Eight(c)
  {
  }

  function Top(c: bv16): bv16 { c >> 8 }
  function Bottom(c: bv16): bv16 { c & 0xFF }

  /** A 16-bit word from its bytes. */
  function Word(hi: bv8, lo: bv8): bv16 {
    (hi as bv16 << 8) | lo as bv16
  }

  lemma HighTable(x: bv16)
    requires x < 256
    ensures High(x) as bv16 == Bottom(Closed(x))
  {
  }

  lemma LowTable(x: bv16)
    requires x < 256
    ensures Low(x) as bv16 == Top(Closed(x))
  {
    LowBits(x);
    hide Low, Closed;
  }

  lemma LowBits(x: bv16)
    requires x < 256
    ensures Low(x) as bv16 == Closed(x) >> 8
  {
    match x >> 4 {
      case 0 => case 1 => case 2 => case 3 => case 4 => case 5 => case 6 => case 7 =>
      case 8 => case 9 => case 10 => case 11 => case 12 => case 13 => case 14 => case _ =>
    }
  }

  // ---- laws of the division ----

  function Xor(x: bv16, y: bv16): bv16 { x ^ y }
  function Half(x: bv16): bv16 { x >> 1 }
  predicate Even(x: bv16) { x & 1 == 0 }

  /** The register without its low byte. */
  function Upper(c: bv16): bv16 { c & 0xFF00 }

  lemma HalfXor(x: bv16, y: bv16)
    ensures Half(Xor(x, y)) == Xor(Half(x), Half(y))
  {
  }

  lemma EvenXor(x: bv16, y: bv16)
    requires Even(x)
    ensures Even(Xor(x, y)) == Even(y)
  {
  }

  lemma XorAssoc(x: bv16, y: bv16, z: bv16)
    ensures Xor(Xor(x, y), z) == Xor(x, Xor(y, z))
  {
  }

  lemma ShiftParts(c: bv16)
    ensures Shift(c) == if Even(c) then Half(c) else Xor(Half(c), 0xA001)
  {
    BitIs(c);
  }

  lemma BitIs(c: bv16)
    ensures c & 1 == 1 <==> !Even(c)
  {
  }

  /** An even part of the register is only shifted. */
  lemma ShiftEven(x: bv16, y: bv16)
    requires Even(x)
    ensures Shift(Xor(x, y)) == Xor(Half(x), Shift(y))
  {
    hide Shift, Xor, Half, Even;
    ShiftParts(y);
    ShiftParts(Xor(x, y));
    HalfXor(x, y);
    EvenXor(x, y);
    XorAssoc(Half(x), Half(y), 0xA001);
  }

  lemma UpperParts(c: bv16)
    ensures c == Xor(Upper(c), Bottom(c))
    ensures Half(Half(Half(Half(Half(Half(Half(Half(Upper(c))))))))) == Top(c)
  {
  }

  lemma UpperEven(c: bv16)
    ensures var h := Upper(c);
            && Even(h) && Even(Half(h)) && Even(Half(Half(h))) && Even(Half(Half(Half(h))))
            && Even(Half(Half(Half(Half(h))))) && Even(Half(Half(Half(Half(Half(h))))))
            && Even(Half(Half(Half(Half(Half(Half(h))))))) && Even(Half(Half(Half(Half(Half(Half(Half(h))))))))
  {
  }

  /** Eight steps move the high byte down and add what they make of the low byte. */
  lemma EightSplits(c: bv16)
    ensures Eight(c) == Xor(Top(c), Eight(Bottom(c)))
  {
    UpperParts(c);
    UpperEven(c);
    hide Shift, Xor, Half, Even, Upper, Bottom, Top;
    var h, l := Upper(c), Bottom(c);
    ShiftEven(h, l);
    var h1, l1 := Half(h), Shift(l);
    ShiftEven(h1, l1);
    var h2, l2 := Half(h1), Shift(l1);
    ShiftEven(h2, l2);
    var h3, l3 := Half(h2), Shift(l2);
    ShiftEven(h3, l3);
    var h4, l4 := Half(h3), Shift(l3);
    ShiftEven(h4, l4);
    var h5, l5 := Half(h4), Shift(l4);
    ShiftEven(h5, l5);
    var h6, l6 := Half(h5), Shift(l5);
    ShiftEven(h6, l6);
    ShiftEven(Half(h6), Shift(l6));
  }

  /** The division can be undone. */
  lemma EightInjective(c: bv16, d: bv16)
    ensures Eight(c) == Eight(d) ==> c == d
  {
  }

  /** The bytes of a word, low byte first. */
  function Split(c: bv16): (r: seq<bv8>)
    ensures |r| == 2
  {
    LowIsByte(c);
    [(c & 0xFF) as bv8, (c >> 8) as bv8]
  }

  lemma LowIsByte(c: bv16)
    ensures c & 0xFF < 256 && c >> 8 < 256
  {
  }

  lemma SplitWord(c: bv16)
    ensures Word(Split(c)[1], Split(c)[0]) == c
  {
    LowIsByte(c);
  }

  lemma WordSplit(hi: bv8, lo: bv8)
    ensures Split(Word(hi, lo)) == [lo, hi]
  {
    LowIsByte(Word(hi, lo));
  }

  // ---- the table-driven form ----

  /** The table index, and the new high and low register bytes. */
  function Index(lo: bv8, b: bv8): (i: bv16)
    ensures i < 256
  {
    (lo ^ b) as bv16
  }

  function Mix(hi: bv8, entry: bv8): bv8 {
    hi ^ entry
  }

  lemma WordParts(hi: bv8, lo: bv8, b: bv8)
    ensures Top(Add(Word(hi, lo), b)) == hi as bv16 && Bottom(Add(Word(hi, lo), b)) == Index(lo, b)
  {
  }

  lemma Recombine(hi: bv8, low: bv8, high: bv8, t: bv16)
    requires low as bv16 == Top(t) && high as bv16 == Bottom(t)
    ensures Word(low, Mix(hi, high)) == Xor(hi as bv16, t)
  {
  }

  /** One lookup in both tables does eight steps of the division. */
  lemma TableStep(hi: bv8, lo: bv8, b: bv8)
    ensures Word(Low(Index(lo, b)), Mix(hi, High(Index(lo, b)))) == Feed(Word(hi, lo), b)
  {
    var index := Index(lo, b);
    hide Eight, Closed, High, Low, Word, Top, Bottom, Mix, Index, Add, Xor;
    WordParts(hi, lo, b);
    EightSplits(Add(Word(hi, lo), b));
    ClosedIsEight(index);
    HighTable(index);
    LowTable(index);
    Recombine(hi, Low(index), High(index), Closed(index));
  }

  /** CRC16 */
  method Crc16(data: seq<bv8>) returns (crc: bv16)
    requires |data| < 0x1_0000
    ensures crc == Crc(0xFFFF, data)
  {
    var hi: bv8, lo: bv8 := 0xFF, 0xFF;
    assert Word(hi, lo) == 0xFFFF;
    hide Feed, High, Low, Word, Mix, Index;
    var i := 0;
    while i < |data|
      invariant i <= |data| && Crc(Word(hi, lo), data[i..]) == Crc(0xFFFF, data)
    {
      TableStep(hi, lo, data[i]);
      assert data[i..][1..] == data[i + 1..];
      var index := Index(lo, data[i]);
      lo, hi := Mix(hi, High(index)), Low(index);
      i := i + 1;
    }
    crc := Word(hi, lo);
  }

  // ---- what the check detects ----

  /** Two more bytes: only the own check value, low byte first, brings the register to zero. */
  lemma CheckStep(c: bv16, lo: bv8, hi: bv8)
    ensures Feed(Feed(c, lo), hi) == 0 <==> Word(hi, lo) == c
  {
    hide Eight, Word, Top, Bottom, Add, Xor;
    Zero();
    EightSplits(Word(hi, 0));
    HighOnly(hi);
    EightInjective(Add(Feed(c, lo), hi), 0);
    AddIsZero(Feed(c, lo), hi);
    EightInjective(Add(c, lo), Word(hi, 0));
    WordBits(c, hi, lo);
  }

  lemma Zero()
    ensures Eight(0) == 0
  {
  }

  lemma HighOnly(hi: bv8)
    ensures Xor(Top(Word(hi, 0)), 0) == hi as bv16 && Bottom(Word(hi, 0)) == 0
  {
  }

  lemma AddIsZero(c: bv16, b: bv8)
    ensures Add(c, b) == 0 <==> c == b as bv16
  {
  }

  lemma WordBits(c: bv16, hi: bv8, lo: bv8)
    ensures Word(hi, lo) == c <==> Add(c, lo) == Word(hi, 0)
  {
    assert (hi as bv16 << 8) | lo as bv16 == c <==> c ^ lo as bv16 == hi as bv16 << 8;
    assert Word(hi, 0) == hi as bv16 << 8;
  }

  lemma TwoBytes(c: bv16, a: bv8, b: bv8)
    ensures Crc(c, [a, b]) == Feed(Feed(c, a), b)
  {
    hide Feed;
    assert [a, b][1..] == [b];
    assert Crc(Feed(c, a), [b]) == Crc(Feed(Feed(c, a), b), [b][1..]);
  }

  /** A message followed by its CRC, low byte first, leaves residue 0, and no other check bytes do. */
  lemma Residue(data: seq<bv8>, lo: bv8, hi: bv8)
    ensures Crc(0xFFFF, data + [lo, hi]) == 0 <==> Word(hi, lo) == Crc(0xFFFF, data)
  {
    hide Feed, Word;
    CrcSplit(0xFFFF, data, [lo, hi]);
    TwoBytes(Crc(0xFFFF, data), lo, hi);
    CheckStep(Crc(0xFFFF, data), lo, hi);
  }

  /** Different pairs of bytes lead to different registers. */
  lemma PairInjective(c: bv16, a: bv8, b: bv8, x: bv8, y: bv8)
    ensures Feed(Feed(c, a), b) == Feed(Feed(c, x), y) ==> a == x && b == y
  {
    hide Eight, Add;
    if Feed(Feed(c, a), b) == Feed(Feed(c, x), y) {
      EightInjective(Add(Feed(c, a), b), Add(Feed(c, x), y));
      FirstByte(c, a, b, x, y);
      AddInjective(Feed(c, a), Feed(c, a), b, y);
    }
  }

  lemma AddInjective(c: bv16, d: bv16, b: bv8, y: bv8)
    requires Add(c, b) == Add(d, y)
    ensures c == d ==> b == y
    ensures b == y ==> c == d
  {
  }

  /** The high byte of eight steps tells the byte that was fed; a second byte does not reach it. */
  lemma FirstByte(c: bv16, a: bv8, b: bv8, x: bv8, y: bv8)
    requires Add(Eight(Add(c, a)), b) == Add(Eight(Add(c, x)), y)
    ensures a == x
  {
    hide Eight, Add, Top, Bottom, Closed;
    TopOfAdd(Eight(Add(c, a)), b);
    TopOfAdd(Eight(Add(c, x)), y);
    TopOfEight(Add(c, a));
    TopOfEight(Add(c, x));
    TopInjective(Bottom(Add(c, a)), Bottom(Add(c, x)));
    BottomOfAdd(c, a, x);
  }

  lemma TopInjective(x: bv16, y: bv16)
    requires x < 256 && y < 256 && Top(Closed(x)) == Top(Closed(y))
    ensures x == y
  {
  }

  lemma TopOfEight(c: bv16)
    ensures Bottom(c) < 256 && Top(Eight(c)) == Top(Closed(Bottom(c)))
  {
    BottomIsByte(c);
    EightSplits(c);
    ClosedIsEight(Bottom(c));
    hide Eight, Closed, Bottom;
    TopTwice(c, Closed(Bottom(c)));
  }

  lemma BottomIsByte(c: bv16)
    ensures Bottom(c) < 256
  {
  }

  lemma TopTwice(c: bv16, d: bv16)
    ensures Top(Xor(Top(c), d)) == Top(d)
  {
  }

  lemma TopOfAdd(c: bv16, b: bv8)
    ensures Top(Add(c, b)) == Top(c)
  {
  }

  lemma BottomOfAdd(c: bv16, a: bv8, x: bv8)
    requires Bottom(Add(c, a)) == Bottom(Add(c, x))
    ensures a == x
  {
  }

  lemma FeedInjective(c: bv16, d: bv16, b: bv8)
    ensures Feed(c, b) == Feed(d, b) ==> c == d
  {
    hide Eight, Add;
    if Feed(c, b) == Feed(d, b) {
      EightInjective(Add(c, b), Add(d, b));
      AddInjective(c, d, b, b);
    }
  }

  lemma {:induction false} CrcInjective(c: bv16, d: bv16, data: seq<bv8>)
    requires Crc(c, data) == Crc(d, data)
    ensures c == d
    decreases |data|
  {
    hide Feed;
    if data != [] {
      CrcInjective(Feed(c, data[0]), Feed(d, data[0]), data[1..]);
      FeedInjective(c, d, data[0]);
    }
  }

  lemma ByteInjective(c: bv16, a: bv8, x: bv8)
    requires Feed(c, a) == Feed(c, x)
    ensures a == x
  {
    hide Eight, Add;
    EightInjective(Add(c, a), Add(c, x));
    AddInjective(c, c, a, x);
  }

  lemma OneByte(c: bv16, a: bv8)
    ensures Crc(c, [a]) == Feed(c, a)
  {
    hide Feed;
    assert [a][1..] == [];
  }

  /** Up to two bytes are told apart by the register they lead to. */
  lemma ShortInjective(c: bv16, x: seq<bv8>, y: seq<bv8>)
    requires |x| == |y| <= 2 && Crc(c, x) == Crc(c, y)
    ensures x == y
  {
    hide Feed, Crc;
    if |x| == 1 {
      assert x == [x[0]] && y == [y[0]];
      OneByte(c, x[0]);
      OneByte(c, y[0]);
      ByteInjective(c, x[0], y[0]);
    } else if |x| == 2 {
      assert x == [x[0], x[1]] && y == [y[0], y[1]];
      TwoBytes(c, x[0], x[1]);
      TwoBytes(c, y[0], y[1]);
      PairInjective(c, x[0], x[1], y[0], y[1]);
    }
  }

  /** Messages of equal length that differ only inside two adjacent bytes have different CRCs, from any start value. */
  lemma BurstDetected(start: bv16, m: seq<bv8>, n: seq<bv8>, k: nat, w: nat)
    requires |m| == |n| && w <= 2 && k + w <= |m| && m != n
    requires forall i | 0 <= i < |m| && !(k <= i < k + w) :: m[i] == n[i]
    ensures Crc(start, m) != Crc(start, n)
  {
    hide Feed, Crc;
    var front, tail, x, y := m[..k], m[k + w..], m[k..k + w], n[k..k + w];
    assert m == front + (x + tail) && n == front + (y + tail);
    var c := Crc(start, front);
    CrcSplit(start, front, x + tail);
    CrcSplit(start, front, y + tail);
    CrcSplit(c, x, tail);
    CrcSplit(c, y, tail);
    if Crc(start, m) == Crc(start, n) {
      CrcInjective(Crc(c, x), Crc(c, y), tail);
      ShortInjective(c, x, y);
      assert false;
    }
  }

  // ---- the published check value ----

  lemma Unfold(c: bv16, b: bv8, rest: seq<bv8>)
    ensures Crc(c, [b] + rest) == Crc(Feed(c, b), rest)
  {
    hide Feed;
    assert ([b] + rest)[1..] == rest;
  }

  /** The digits 1 to 9, whose CRC is 0x4B37, the check value of CRC-16/MODBUS. */
  lemma CheckValue()
    ensures Crc(0xFFFF, [0x31, 0x32, 0x33, 0x34, 0x35, 0x36, 0x37, 0x38, 0x39]) == 0x4B37
  {
    var data: seq<bv8> := [0x31, 0x32, 0x33, 0x34, 0x35, 0x36, 0x37, 0x38, 0x39];
    FeedDigits();
    hide Feed;
    assert data[0..] == [0x31] + data[1..];
    Unfold(0xFFFF, 0x31, data[1..]);
    assert data[1..] == [0x32] + data[2..];
    Unfold(0x947E, 0x32, data[2..]);
    assert data[2..] == [0x33] + data[3..];
    Unfold(0xF595, 0x33, data[3..]);
    assert data[3..] == [0x34] + data[4..];
    Unfold(0x7A75, 0x34, data[4..]);
    assert data[4..] == [0x35] + data[5..];
    Unfold(0x30BA, 0x35, data[5..]);
    assert data[5..] == [0x36] + data[6..];
    Unfold(0xA471, 0x36, data[6..]);
    assert data[6..] == [0x37] + data[7..];
    Unfold(0x32E4, 0x37, data[7..]);
    assert data[7..] == [0x38] + data[8..];
    Unfold(0x9D73, 0x38, data[8..]);
    assert data[8..] == [0x39] + data[9..];
    Unfold(0x37DD, 0x39, data[9..]);
  }

  lemma FeedDigits()
    ensures Feed(0xFFFF, 0x31) == 0x947E
    ensures Feed(0x947E, 0x32) == 0xF595
    ensures Feed(0xF595, 0x33) == 0x7A75
    ensures Feed(0x7A75, 0x34) == 0x30BA
    ensures Feed(0x30BA, 0x35) == 0xA471
    ensures Feed(0xA471, 0x36) == 0x32E4
    ensures Feed(0x32E4, 0x37) == 0x9D73
    ensures Feed(0x9D73, 0x38) == 0x37DD
    ensures Feed(0x37DD, 0x39) == 0x4B37
  {
  }
}
