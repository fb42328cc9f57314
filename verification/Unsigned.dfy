/** The number an `unsigned` of 32 bits stands for, and what C's bit operators do to that number. */
module Unsigned {

  // The operators under names of their own, so that proofs can hide them.

  function Bit(x: bv32): nat {
    if x & 1 == 1 then 1 else 0
  }

  function Down(x: bv32): bv32 {
    x >> 1
  }

  function Up(x: bv32): bv32 {
    x << 1
  }

  function Either(x: bv32, y: bv32): bv32 {
    x | y
  }

  predicate Apart(x: bv32, y: bv32) {
    x & y == 0
  }

  function Succ(x: bv32): bv32 {
    x + 1
  }

  /** Binary digits, the last one first. */
  function Nat(x: bv32): nat {
    if x == 0 then 0 else 2 * Nat(Down(x)) + Bit(x)
  }

  lemma Digits(x: bv32)
    ensures Nat(x) == 2 * Nat(Down(x)) + Bit(x)
    ensures Bit(x) <= 1
  {
    assert x == 0 ==> Down(x) == 0 && Bit(x) == 0;
  }

  lemma {:induction false} Zero(x: bv32)
    ensures Nat(x) == 0 <==> x == 0
  {
    if x != 0 {
      Digits(x);
      Zero(Down(x));
      assert Down(x) == 0 ==> Bit(x) == 1;
    }
  }

  lemma SameBits(x: bv32, y: bv32)
    requires Down(x) == Down(y) && Bit(x) == Bit(y)
    ensures x == y
  {
  }

  /** Different words stand for different numbers. */
  lemma {:induction false} Injective(x: bv32, y: bv32)
    requires Nat(x) == Nat(y)
    ensures x == y
    decreases Nat(x)
  {
    hide Nat, Bit, Down;
    if Nat(x) == 0 {
      Zero(x);
      Zero(y);
    } else {
      Digits(x);
      Digits(y);
      Injective(Down(x), Down(y));
      SameBits(x, y);
    }
  }

  lemma EitherDown(x: bv32, y: bv32)
    ensures Down(Either(x, y)) == Either(Down(x), Down(y))
  {
  }

  lemma ApartDown(x: bv32, y: bv32)
    requires Apart(x, y)
    ensures Apart(Down(x), Down(y))
  {
  }

  lemma EitherZero(y: bv32)
    ensures Either(0, y) == y
  {
  }

  lemma EitherBit(x: bv32, y: bv32)
    requires Apart(x, y)
    ensures Bit(Either(x, y)) == Bit(x) + Bit(y)
  {
  }

  /** Joining words that have no bit in common adds them. */
  lemma {:induction false} Joined(x: bv32, y: bv32)
    requires Apart(x, y)
    ensures Nat(Either(x, y)) == Nat(x) + Nat(y)
    decreases Nat(x)
  {
    hide Nat, Bit, Down, Either, Apart;
    if Nat(x) == 0 {
      Zero(x);
      EitherZero(y);
    } else {
      EitherDown(x, y);
      ApartDown(x, y);
      EitherBit(x, y);
      Digits(x);
      Digits(y);
      Digits(Either(x, y));
      Joined(Down(x), Down(y));
    }
  }

  lemma SuccBits(x: bv32)
    requires x < 0x1000_0000
    ensures Bit(x) == 0 ==> Down(Succ(x)) == Down(x) && Bit(Succ(x)) == 1
    ensures Bit(x) == 1 ==> Down(Succ(x)) == Succ(Down(x)) && Bit(Succ(x)) == 0
    ensures Down(x) < 0x1000_0000
  {
  }

  lemma {:induction false} Increased(x: bv32)
    requires x < 0x1000_0000
    ensures Nat(Succ(x)) == Nat(x) + 1
    decreases Nat(x)
  {
    hide Nat, Bit, Down, Succ;
    SuccBits(x);
    Digits(x);
    Digits(Succ(x));
    if Bit(x) == 1 {
      Increased(Down(x));
    }
  }

  lemma UpBits(x: bv32)
    requires x < 0x8000_0000
    ensures Down(Up(x)) == x && Bit(Up(x)) == 0
  {
  }

  lemma Doubled(x: bv32)
    requires x < 0x8000_0000
    ensures Nat(Up(x)) == 2 * Nat(x)
  {
    hide Nat, Bit, Up, Down;
    UpBits(x);
    Digits(Up(x));
  }

  // ---- shifts by more than one place ----

  function Up2(x: bv32): bv32 {
    x << 2
  }

  lemma Up2Is(x: bv32)
    requires x < 0x4000_0000
    ensures Up2(x) == Up(Up(x)) && Up(x) < 0x8000_0000
  {
  }

  lemma Times4(x: bv32)
    requires x < 0x4000_0000
    ensures Nat(Up2(x)) == 4 * Nat(x)
  {
    Up2Is(x);
    hide *;
    Doubled(x);
    Doubled(Up(x));
  }

  lemma Shl4(x: bv32)
    requires x < 0x1000_0000
    ensures Nat(x << 4) == 16 * Nat(x)
  {
    assert x << 4 == Up2(Up2(x)) && Up2(x) < 0x4000_0000;
    hide *;
    Times4(x);
    Times4(Up2(x));
  }

  lemma Shl6(x: bv32)
    requires x < 0x400_0000
    ensures Nat(x << 6) == 64 * Nat(x)
  {
    assert x << 6 == Up2(x << 4) && x << 4 < 0x4000_0000;
    hide *;
    Shl4(x);
    Times4(x << 4);
  }

  lemma Shl10(x: bv32)
    requires x < 0x40_0000
    ensures Nat(x << 10) == 1024 * Nat(x)
  {
    assert x << 10 == (x << 6) << 4 && x << 6 < 0x1000_0000;
    hide *;
    Shl6(x);
    Shl4(x << 6);
  }
  lemma Down3(x: bv32)
    ensures x >> 3 == Down(Down(Down(x)))
  {
  }

  lemma Shr3(x: bv32)
    ensures Nat(x >> 3) == Nat(x) / 8
  {
    hide *;
    Down3(x);
    Digits(x);
    Digits(Down(x));
    Digits(Down(Down(x)));
  }

  lemma Shr6(x: bv32)
    ensures Nat(x >> 6) == Nat(x) / 64
  {
    assert x >> 6 == (x >> 3) >> 3;
    hide *;
    Shr3(x);
    Shr3(x >> 3);
  }
  lemma Shr10(x: bv32)
    ensures Nat(x >> 10) == Nat(x) / 1024
  {
    assert x >> 10 == Down((x >> 6) >> 3);
    hide *;
    Shr6(x);
    Shr3(x >> 6);
    Digits((x >> 6) >> 3);
  }

  /** The six lowest bits. */
  lemma LowSix(x: bv32)
    ensures Nat(x & 0x3F) == Nat(x) % 64
  {
    assert x == Either((x >> 6) << 6, x & 0x3F) && Apart((x >> 6) << 6, x & 0x3F) && x >> 6 < 0x400_0000;
    assert (x & 0x3F) >> 6 == 0;
    hide *;
    Shl6(x >> 6);
    Shr6(x & 0x3F);
    Zero(0);
    Shr6(x);
    Joined((x >> 6) << 6, x & 0x3F);
  }
  /** Putting six bits behind a word. */
  lemma Join6(q: bv32, r: bv32)
    requires q < 0x400_0000 && r < 64
    ensures Nat((q << 6) | r) == 64 * Nat(q) + Nat(r)
  {
    assert (q << 6) | r == Either(q << 6, r) && Apart(q << 6, r);
    hide *;
    Shl6(q);
    Joined(q << 6, r);
  }

  lemma Join10(q: bv32, r: bv32)
    requires q < 0x40_0000 && r < 0x400
    ensures Nat((q << 10) | r) == 1024 * Nat(q) + Nat(r)
  {
    assert (q << 10) | r == Either(q << 10, r) && Apart(q << 10, r);
    hide *;
    Shl10(q);
    Joined(q << 10, r);
  }

  /** The word that the value of a hex digit is converted to. */
  function Word(n: nat): (x: bv32)
    requires n < 16
    ensures Nat(x) == n
    ensures (n < 1 ==> x < 1) && (n < 2 ==> x < 2) && (n < 4 ==> x < 4) && (n < 8 ==> x < 8) && x < 16
  {
    if n == 0 then 0
    else
      var q := Word(n / 2);
      Doubled(q);
      if n % 2 == 0 then Up(q) else Increased(Up(q)); Succ(Up(q))
  }

  /** Small literals. */
  lemma Literals()
    ensures Nat(2) == 2 && Nat(3) == 3 && Nat(0x36) == 0x36 && Nat(0x37) == 0x37
  {
    assert Down(0x37) == 0x1B && Down(0x36) == 0x1B && Down(0x1B) == 13 && Down(13) == 6;
    assert Down(6) == 3 && Down(3) == 1 && Down(2) == 1 && Down(1) == 0;
    assert Bit(0x37) == Bit(0x1B) == Bit(13) == Bit(3) == Bit(1) == 1 && Bit(0x36) == Bit(6) == Bit(2) == 0;
    hide *;
    Zero(0);
    Digits(1);
    Digits(2);
    Digits(3);
    Digits(6);
    Digits(13);
    Digits(0x1B);
    Digits(0x36);
    Digits(0x37);
  }

  lemma LowByte(x: bv32)
    ensures Nat(x & 0xFF) < 0x100
  {
    assert Down(Down((x & 0xFF) >> 6)) == 0;
    hide *;
    Shr6(x & 0xFF);
    Digits((x & 0xFF) >> 6);
    Digits(Down((x & 0xFF) >> 6));
    Zero(0);
  }

  /** What a `char` keeps of an unsigned. */
  function Byte(x: bv32): char {
    LowByte(x);
    Nat(x & 0xFF) as char
  }

  // ---- comparing words with powers of two is comparing their numbers ----

  lemma Below0x80(x: bv32)
    ensures x < 0x80 <==> Nat(x) < 0x80
  {
    assert x < 0x80 <==> Down(x >> 6) == 0;
    hide *;
    Shr6(x);
    Digits(x >> 6);
    Zero(Down(x >> 6));
  }

  lemma Below0x800(x: bv32)
    ensures x < 0x800 <==> Nat(x) < 0x800
  {
    assert x < 0x800 <==> Down(x >> 10) == 0;
    hide *;
    Shr10(x);
    Digits(x >> 10);
    Zero(Down(x >> 10));
  }

  lemma Below0x1000(x: bv32)
    ensures x < 0x1000 <==> Nat(x) < 0x1000
  {
    assert x < 0x1000 <==> (x >> 6) >> 6 == 0;
    hide *;
    Shr6(x);
    Shr6(x >> 6);
    Zero((x >> 6) >> 6);
  }

  lemma Below0x1_0000(x: bv32)
    ensures x < 0x1_0000 <==> Nat(x) < 0x1_0000
  {
    assert x < 0x1_0000 <==> (x >> 10) >> 6 == 0;
    hide *;
    Shr10(x);
    Shr6(x >> 10);
    Zero((x >> 10) >> 6);
  }

  lemma Below0x20_0000(x: bv32)
    ensures x < 0x20_0000 <==> Nat(x) < 0x20_0000
  {
    assert x < 0x20_0000 <==> Down((x >> 10) >> 10) == 0;
    hide *;
    Shr10(x);
    Shr10(x >> 10);
    Digits((x >> 10) >> 10);
    Zero(Down((x >> 10) >> 10));
  }

  /** The block of 1024 numbers that a word lies in. */
  lemma InBlock(x: bv32, block: bv32)
    ensures x >> 10 == block <==> Nat(x) / 1024 == Nat(block)
  {
    hide *;
    Shr10(x);
    if Nat(x >> 10) == Nat(block) {
      Injective(x >> 10, block);
    }
  }
}
