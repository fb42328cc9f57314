/** CRC-32 with a table computed at start-up, and the division it stands for. */
module Crc32 {

  // ---- bit by bit ----

  /** One step of the division by the polynomial, in reflected order. */
  function Shift(c: bv32): bv32 {
    if c & 1 == 1 then (c >> 1) ^ 0xEDB8_8320 else c >> 1
  }

  function Eight(c: bv32): bv32 {
    Shift(Shift(Shift(Shift(Shift(Shift(Shift(Shift(c))))))))
  }

  function Add(c: bv32, b: bv8): bv32 {
    c ^ b as bv32
  }

  /** A byte is added to the low end of the register and shifted through. */
  function Feed(c: bv32, b: bv8): bv32 {
    Eight(Add(c, b))
  }

  /** The register after some bytes, without the final complement. */
  function Crc(c: bv32, data: seq<bv8>): bv32
    decreases |data|
  {
    if data == [] then c else Crc(Feed(c, data[0]), data[1..])
  }

  /** The CRC of a text can be computed piece by piece. */
  lemma {:induction false} CrcSplit(c: bv32, s: seq<bv8>, t: seq<bv8>)
    ensures Crc(c, s + t) == Crc(Crc(c, s), t)
    decreases |s|
  {
    hide Feed;
    if s == [] {
      assert s + t == t;
    } else {
      assert (s + t)[1..] == s[1..] + t;
      CrcSplit(Feed(c, s[0]), s[1..], t);
    }
  }

  // ---- the table ----

  /** The remainder of a table index. */
  function Remainder(i: nat): bv32
    requires i < 256
  {
    Eight(i as bv32)
  }

  function Shifts(c: bv32, n: nat): bv32
    decreases n
  {
    if n == 0 then c else Shift(Shifts(c, n - 1))
  }

  lemma EightShifts(c: bv32)
    ensures Shifts(c, 8) == Eight(c)
  {
    hide Shift;
    assert Shifts(c, 2) == Shift(Shift(c)) by { assert Shifts(c, 1) == Shift(c); }
    assert Shifts(c, 4) == Shift(Shift(Shifts(c, 2))) by { assert Shifts(c, 3) == Shift(Shifts(c, 2)); }
    assert Shifts(c, 6) == Shift(Shift(Shifts(c, 4))) by { assert Shifts(c, 5) == Shift(Shifts(c, 4)); }
    assert Shifts(c, 8) == Shift(Shift(Shifts(c, 6))) by { assert Shifts(c, 7) == Shift(Shifts(c, 6)); }
  }

  ghost predicate Made(table: seq<bv32>, n: nat) {
    n <= 256 <= |table| && forall i: nat | i < n :: table[i] == Remainder(i)
  }

  /** make_crc32_table */
  method MakeCrc32Table(table: array<bv32>)
    requires table.Length == 256
    modifies table
    ensures Made(table[..], 256)
  {
    hide Eight, Shift;
    var i: nat := 0;
    while i < 256
      invariant i <= 256 && Made(table[..], i)
    {
      ghost var before := table[..];
      var c := i as bv32;
      var bit: nat := 0;
      while bit < 8
        invariant bit <= 8 && c == Shifts(i as bv32, bit) && table[..] == before
      {
        c := OneBit(c);
        bit := bit + 1;
      }
      EightShifts(i as bv32);
      table[i] := c;
      assert table[..] == before[i := Remainder(i)];
      i := i + 1;
    }
  }

  /** The body of the inner loop. */
  method OneBit(c: bv32) returns (r: bv32)
    ensures r == Shift(c)
  {
    if c & 1 != 0 {
      r := (c >> 1) ^ 0xEDB8_8320;
    } else {
      r := c >> 1;
    }
  }

  // ---- the table-driven form ----

  function Low(c: bv32): bv32 {
    c & 0xFF
  }

  function Down(c: bv32): bv32 {
    c >> 8
  }

  function Index(c: bv32, b: bv8): (i: nat)
    ensures i < 256
  {
    LowIsByte(Add(c, b));
    Low(Add(c, b)) as nat
  }

  lemma LowIsByte(c: bv32)
    ensures Low(c) as nat < 256
  {
  }

  function Xor(c: bv32, d: bv32): bv32 {
    c ^ d
  }

  function Half(c: bv32): bv32 {
    c >> 1
  }

  function Odd(c: bv32): bool {
    c & 1 == 1
  }

  function Poly(odd: bool): bv32 {
    if odd then 0xEDB8_8320 else 0
  }

  lemma XorZero(c: bv32)
    ensures Xor(c, 0) == c
  {
  }

  lemma ShiftParts(c: bv32)
    ensures Shift(c) == Xor(Half(c), Poly(Odd(c)))
  {
    assert Shift(c) == if Odd(c) then Xor(Half(c), 0xEDB8_8320) else Half(c);
    hide Shift, Half, Odd, Xor;
    XorZero(Half(c));
  }

  lemma HalfLinear(c: bv32, d: bv32)
    ensures Half(Xor(c, d)) == Xor(Half(c), Half(d))
  {
  }

  lemma OddLinear(c: bv32, d: bv32)
    ensures Odd(Xor(c, d)) == (Odd(c) != Odd(d))
  {
  }

  lemma PolyLinear(p: bool, q: bool)
    ensures Poly(p != q) == Xor(Poly(p), Poly(q))
  {
  }

  lemma XorAssoc(a: bv32, b: bv32, c: bv32)
    ensures Xor(Xor(a, b), c) == Xor(a, Xor(b, c))
  {
  }

  lemma XorComm(a: bv32, b: bv32)
    ensures Xor(a, b) == Xor(b, a)
  {
  }

  lemma Shuffle(a: bv32, x: bv32, b: bv32, y: bv32)
    ensures Xor(Xor(a, x), Xor(b, y)) == Xor(Xor(a, b), Xor(x, y))
  {
    hide Xor;
    XorAssoc(a, x, Xor(b, y));
    XorAssoc(x, b, y);
    XorComm(x, b);
    XorAssoc(b, x, y);
    XorAssoc(a, b, Xor(x, y));
  }

  /** The steps of the division are linear. */
  lemma ShiftLinear(c: bv32, d: bv32)
    ensures Shift(Xor(c, d)) == Xor(Shift(c), Shift(d))
  {
    hide Shift, Xor, Half, Odd, Poly;
    ShiftParts(c);
    ShiftParts(d);
    ShiftParts(Xor(c, d));
    HalfLinear(c, d);
    OddLinear(c, d);
    PolyLinear(Odd(c), Odd(d));
    Shuffle(Half(c), Poly(Odd(c)), Half(d), Poly(Odd(d)));
  }

  lemma {:induction false} ShiftsLinear(c: bv32, d: bv32, n: nat)
    ensures Shifts(Xor(c, d), n) == Xor(Shifts(c, n), Shifts(d, n))
    decreases n
  {
    hide Shift, Xor;
    if n > 0 {
      ShiftsLinear(c, d, n - 1);
      ShiftLinear(Shifts(c, n - 1), Shifts(d, n - 1));
    }
  }

  lemma EightLinear(c: bv32, d: bv32)
    ensures Eight(Xor(c, d)) == Xor(Eight(c), Eight(d))
  {
    hide Eight, Shifts, Xor;
    ShiftsLinear(c, d, 8);
    EightShifts(c);
    EightShifts(d);
    EightShifts(Xor(c, d));
  }

  /** The register without its low byte. */
  function High(c: bv32): bv32 {
    c & 0xFFFF_FF00
  }

  lemma HighOnly(c: bv32)
    ensures Eight(High(c)) == Down(c)
  {
  }

  lemma Parts(c: bv32)
    ensures c == Xor(High(c), Low(c))
  {
  }

  /** Eight steps move the high bytes down and add what they make of the low byte. */
  lemma EightSplits(c: bv32)
    ensures Eight(c) == Xor(Down(c), Eight(Low(c)))
  {
    hide Eight, Low, Down, High, Xor;
    Parts(c);
    EightLinear(High(c), Low(c));
    HighOnly(c);
  }

  lemma AddIsLow(c: bv32, b: bv8)
    ensures Down(Add(c, b)) == Down(c)
  {
  }

  lemma RoundTrip(x: bv32)
    ensures (x as nat) as bv32 == x
  {
  }

  lemma TableStep(c: bv32, b: bv8)
    ensures Xor(Down(c), Remainder(Index(c, b))) == Feed(c, b)
  {
    hide Eight, Add, Down, Low, Xor;
    EightSplits(Add(c, b));
    AddIsLow(c, b);
    RoundTrip(Low(Add(c, b)));
  }

  /** make_crc */
  method MakeCrc(table: array<bv32>, start: bv32, data: seq<bv8>) returns (crc: bv32)
    requires table.Length == 256 && Made(table[..], 256)
    ensures crc == Crc(start, data)
  {
    hide Eight, Feed, Add, Down, Index, Remainder, Xor;
    crc := start;
    var i := 0;
    while i < |data|
      invariant i <= |data| && Crc(crc, data[i..]) == Crc(start, data)
    {
      TableStep(crc, data[i]);
      assert data[i..][1..] == data[i + 1..];
      assert table[..][Index(crc, data[i])] == table[Index(crc, data[i])];
      crc := Xor(Down(crc), table[Index(crc, data[i])]);
      i := i + 1;
    }
  }

  // ---- what the check detects ----

  lemma ShiftInjective(c: bv32, d: bv32)
    requires Shift(c) == Shift(d)
    ensures c == d
  {
  }

  lemma EightInjective(c: bv32, d: bv32)
    requires Eight(c) == Eight(d)
    ensures c == d
  {
    EightShifts(c);
    EightShifts(d);
    ShiftsInjective(c, d, 8);
  }

  lemma {:induction false} ShiftsInjective(c: bv32, d: bv32, n: nat)
    requires Shifts(c, n) == Shifts(d, n)
    ensures c == d
    decreases n
  {
    hide Shift;
    if n > 0 {
      ShiftInjective(Shifts(c, n - 1), Shifts(d, n - 1));
      ShiftsInjective(c, d, n - 1);
    }
  }

  function Up(c: bv32): bv32 {
    c << 8
  }

  function Join(b: bv8, rest: bv32): bv32 {
    Xor(b as bv32, Up(rest))
  }

  /** Up to four bytes as one word, the first byte lowest. */
  function Pack(data: seq<bv8>): bv32
    decreases |data|
  {
    if data == [] then 0 else Join(data[0], Pack(data[1..]))
  }

  predicate Fits(c: bv32, n: nat) {
    (n == 0 ==> c == 0) && (n == 1 ==> c < 0x100) && (n == 2 ==> c < 0x1_0000) && (n == 3 ==> c < 0x100_0000)
  }

  lemma JoinFits(b: bv8, rest: bv32, n: nat)
    requires Fits(rest, n)
    ensures Fits(Join(b, rest), n + 1)
  {
    if n == 0 {
      assert b as bv32 ^ (0 << 8) < 0x100;
    } else if n == 1 {
      assert b as bv32 ^ (rest << 8) < 0x1_0000;
    } else if n == 2 {
      assert b as bv32 ^ (rest << 8) < 0x100_0000;
    }
  }

  lemma {:induction false} PackFits(data: seq<bv8>)
    ensures Fits(Pack(data), |data|)
    decreases |data|
  {
    hide Join, Fits;
    if data == [] {
      EmptyFits();
    } else {
      PackFits(data[1..]);
      JoinFits(data[0], Pack(data[1..]), |data| - 1);
    }
  }

  lemma EmptyFits()
    ensures Fits(0, 0)
  {
  }

  lemma Widen(c: bv32, n: nat)
    requires Fits(c, n) && n <= 3
    ensures c < 0x100_0000
  {
  }

  /** Bytes above the lowest one only move down. */
  lemma UpUndone(c: bv32)
    requires c < 0x100_0000
    ensures Eight(Up(c)) == c
  {
  }

  lemma JoinInjective(b: bv8, r: bv32, c: bv8, s: bv32)
    requires r < 0x100_0000 && s < 0x100_0000 && Join(b, r) == Join(c, s)
    ensures b == c && r == s
  {
    hide Join;
    JoinParts(b, r);
    JoinParts(c, s);
    SameByte(b, c);
  }

  lemma JoinParts(b: bv8, r: bv32)
    requires r < 0x100_0000
    ensures Low(Join(b, r)) == b as bv32 && Down(Join(b, r)) == r
  {
    JoinLow(b as bv32, r);
    JoinDown(b as bv32, r);
    hide Low, Down, Xor, Up;
  }

  lemma JoinLow(b: bv32, r: bv32)
    requires b < 0x100
    ensures Low(Xor(b, Up(r))) == b
  {
    assert (b ^ (r << 8)) & 0xFF == b;
  }

  lemma JoinDown(b: bv32, r: bv32)
    requires b < 0x100 && r < 0x100_0000
    ensures Down(Xor(b, Up(r))) == r
  {
    BitsDown(b, r);
  }

  lemma BitsDown(b: bv32, r: bv32)
    requires b < 0x100 && r < 0x100_0000
    ensures (b ^ (r << 8)) >> 8 == r
  {
  }

  lemma SameByte(b: bv8, c: bv8)
    requires b as bv32 == c as bv32
    ensures b == c
  {
  }

  lemma {:induction false} PackInjective(m: seq<bv8>, n: seq<bv8>)
    requires |m| == |n| <= 4 && Pack(m) == Pack(n)
    ensures m == n
    decreases |m|
  {
    hide Join, Fits;
    if m != [] {
      PackFits(m[1..]);
      PackFits(n[1..]);
      Widen(Pack(m[1..]), |m| - 1);
      Widen(Pack(n[1..]), |m| - 1);
      JoinInjective(m[0], Pack(m[1..]), n[0], Pack(n[1..]));
      PackInjective(m[1..], n[1..]);
      assert m == [m[0]] + m[1..] && n == [n[0]] + n[1..];
    }
  }

  lemma {:induction false} ShiftsAdd(c: bv32, n: nat)
    ensures Shifts(Shifts(c, 8), n) == Shifts(c, 8 + n)
    decreases n
  {
    hide Shift;
    if n > 0 {
      ShiftsAdd(c, n - 1);
    }
  }

  lemma FeedJoin(c: bv32, b: bv8, rest: bv32)
    requires rest < 0x100_0000
    ensures Xor(Feed(c, b), rest) == Eight(Xor(c, Join(b, rest)))
  {
    hide Eight, Up, Xor;
    UpUndone(rest);
    EightLinear(Add(c, b), Up(rest));
    AddIsXor(c, b);
    XorAssoc(c, b as bv32, Up(rest));
  }

  lemma AddIsXor(c: bv32, b: bv8)
    ensures Add(c, b) == Xor(c, b as bv32)
  {
  }

  /** Feeding up to four bytes is adding their word and shifting it through. */
  lemma {:induction false} CrcPack(c: bv32, data: seq<bv8>)
    requires |data| <= 4
    ensures Crc(c, data) == Shifts(Xor(c, Pack(data)), 8 * |data|)
    decreases |data|
  {
    hide Feed, Xor, Shift, Join, Fits, Eight;
    if data == [] {
      XorZero(c);
    } else {
      var rest := Pack(data[1..]);
      PackFits(data[1..]);
      Widen(rest, |data| - 1);
      CrcPack(Feed(c, data[0]), data[1..]);
      FeedJoin(c, data[0], rest);
      EightShifts(Xor(c, Pack(data)));
      ShiftsAdd(Xor(c, Pack(data)), 8 * (|data| - 1));
    }
  }

  lemma XorInjective(c: bv32, x: bv32, y: bv32)
    requires Xor(c, x) == Xor(c, y)
    ensures x == y
  {
  }

  lemma FeedInjective(c: bv32, d: bv32, b: bv8)
    requires Feed(c, b) == Feed(d, b)
    ensures c == d
  {
    hide Eight, Add;
    EightInjective(Add(c, b), Add(d, b));
    AddInjective(c, d, b);
  }

  lemma AddInjective(c: bv32, d: bv32, b: bv8)
    requires Add(c, b) == Add(d, b)
    ensures c == d
  {
  }

  lemma {:induction false} CrcInjective(c: bv32, d: bv32, data: seq<bv8>)
    requires Crc(c, data) == Crc(d, data)
    ensures c == d
    decreases |data|
  {
    hide Feed;
    if data != [] {
      CrcInjective(Feed(c, data[0]), Feed(d, data[0]), data[1..]);
      FeedInjective(c, d, data[0]);
    }
  }

  /** Strings of equal length that differ only inside four adjacent bytes have different CRCs, from any start value. */
  lemma BurstDetected(start: bv32, m: seq<bv8>, n: seq<bv8>, k: nat, w: nat)
    requires |m| == |n| && w <= 4 && k + w <= |m| && m != n
    requires forall i | 0 <= i < |m| && !(k <= i < k + w) :: m[i] == n[i]
    ensures Crc(start, m) != Crc(start, n)
  {
    hide Feed, Xor, Pack, Shifts;
    var front, tail, x, y := m[..k], m[k + w..], m[k..k + w], n[k..k + w];
    assert m == front + (x + tail) && n == front + (y + tail);
    var c := Crc(start, front);
    CrcSplit(start, front, x + tail);
    CrcSplit(start, front, y + tail);
    CrcSplit(c, x, tail);
    CrcSplit(c, y, tail);
    CrcPack(c, x);
    CrcPack(c, y);
    if Crc(start, m) == Crc(start, n) {
      CrcInjective(Crc(c, x), Crc(c, y), tail);
      ShiftsInjective(Xor(c, Pack(x)), Xor(c, Pack(y)), 8 * w);
      XorInjective(c, Pack(x), Pack(y));
      PackInjective(x, y);
      assert false;
    }
  }

  // ---- the published check value ----

  lemma Unfold(c: bv32, b: bv8, rest: seq<bv8>)
    ensures Crc(c, [b] + rest) == Crc(Feed(c, b), rest)
  {
    hide Feed;
    assert ([b] + rest)[1..] == rest;
  }

  /** The digits 1 to 9, before the final complement, which makes it 0xCBF43926, the check value of CRC-32. */
  lemma CheckValue()
    ensures Crc(0xFFFF_FFFF, [0x31, 0x32, 0x33, 0x34, 0x35, 0x36, 0x37, 0x38, 0x39]) == 0x340B_C6D9
  {
    var data: seq<bv8> := [0x31, 0x32, 0x33, 0x34, 0x35, 0x36, 0x37, 0x38, 0x39];
    FeedDigits();
    hide Feed;
    assert data[0..] == [0x31] + data[1..];
    Unfold(0xFFFF_FFFF, 0x31, data[1..]);
    assert data[1..] == [0x32] + data[2..];
    Unfold(0x7C23_1048, 0x32, data[2..]);
    assert data[2..] == [0x33] + data[3..];
    Unfold(0xB0AC_BB32, 0x33, data[3..]);
    assert data[3..] == [0x34] + data[4..];
    Unfold(0x77B7_9C2D, 0x34, data[4..]);
    assert data[4..] == [0x35] + data[5..];
    Unfold(0x641C_1F5C, 0x35, data[5..]);
    assert data[5..] == [0x36] + data[6..];
    Unfold(0x340A_C5E3, 0x36, data[6..]);
    assert data[6..] == [0x37] + data[7..];
    Unfold(0xF68D_2C9E, 0x37, data[7..]);
    assert data[7..] == [0x38] + data[8..];
    Unfold(0xAFFC_9660, 0x38, data[8..]);
    assert data[8..] == [0x39] + data[9..];
    Unfold(0x651F_2550, 0x39, data[9..]);
  }

  lemma FeedDigits()
    ensures Feed(0xFFFF_FFFF, 0x31) == 0x7C23_1048
    ensures Feed(0x7C23_1048, 0x32) == 0xB0AC_BB32
    ensures Feed(0xB0AC_BB32, 0x33) == 0x77B7_9C2D
    ensures Feed(0x77B7_9C2D, 0x34) == 0x641C_1F5C
    ensures Feed(0x641C_1F5C, 0x35) == 0x340A_C5E3
    ensures Feed(0x340A_C5E3, 0x36) == 0xF68D_2C9E
    ensures Feed(0xF68D_2C9E, 0x37) == 0xAFFC_9660
    ensures Feed(0xAFFC_9660, 0x38) == 0x651F_2550
    ensures Feed(0x651F_2550, 0x39) == 0x340B_C6D9
  {
  }
}
