/**
 Machine words of a bit vector: single bits of a 32-bit word, and what the bitwise operations and
 shifts do to them.
 */
module Words {
  type Word = bv32

  /** 1U << k. */
  function One(k: nat): (m: Word)
    requires k < 32
    ensures SingleBit(m)
  {
    match k
    case 0 => 0x1
    case 1 => 0x2
    case 2 => 0x4
    case 3 => 0x8
    case 4 => 0x10
    case 5 => 0x20
    case 6 => 0x40
    case 7 => 0x80
    case 8 => 0x100
    case 9 => 0x200
    case 10 => 0x400
    case 11 => 0x800
    case 12 => 0x1000
    case 13 => 0x2000
    case 14 => 0x4000
    case 15 => 0x8000
    case 16 => 0x10000
    case 17 => 0x20000
    case 18 => 0x40000
    case 19 => 0x80000
    case 20 => 0x100000
    case 21 => 0x200000
    case 22 => 0x400000
    case 23 => 0x800000
    case 24 => 0x1000000
    case 25 => 0x2000000
    case 26 => 0x4000000
    case 27 => 0x8000000
    case 28 => 0x10000000
    case 29 => 0x20000000
    case 30 => 0x40000000
    case _ => 0x8000_0000
  }

  predicate Meets(w: Word, m: Word) {
    w & m != 0
  }

  /** Bit k of a word. */
  predicate BitOf(w: Word, k: nat)
    requires k < 32
  {
    Meets(w, One(k))
  }

  lemma OneDoubles(k: nat)
    requires k + 1 < 32
    ensures One(k + 1) == One(k) << 1 && One(k) < One(k + 1) && One(k) << 1 != 0
  {
    match k
    case 0 => assert One(1) == 0x2;
    case 1 => assert One(2) == 0x4;
    case 2 => assert One(3) == 0x8;
    case 3 => assert One(4) == 0x10;
    case 4 => assert One(5) == 0x20;
    case 5 => assert One(6) == 0x40;
    case 6 => assert One(7) == 0x80;
    case 7 => assert One(8) == 0x100;
    case 8 => assert One(9) == 0x200;
    case 9 => assert One(10) == 0x400;
    case 10 => assert One(11) == 0x800;
    case 11 => assert One(12) == 0x1000;
    case 12 => assert One(13) == 0x2000;
    case 13 => assert One(14) == 0x4000;
    case 14 => assert One(15) == 0x8000;
    case 15 => assert One(16) == 0x10000;
    case 16 => assert One(17) == 0x20000;
    case 17 => assert One(18) == 0x40000;
    case 18 => assert One(19) == 0x80000;
    case 19 => assert One(20) == 0x100000;
    case 20 => assert One(21) == 0x200000;
    case 21 => assert One(22) == 0x400000;
    case 22 => assert One(23) == 0x800000;
    case 23 => assert One(24) == 0x1000000;
    case 24 => assert One(25) == 0x2000000;
    case 25 => assert One(26) == 0x4000000;
    case 26 => assert One(27) == 0x8000000;
    case 27 => assert One(28) == 0x10000000;
    case 28 => assert One(29) == 0x20000000;
    case 29 => assert One(30) == 0x40000000;
    case 30 => assert One(31) == 0x80000000;
    case _ =>
  }

  lemma {:induction false} OneGrows(j: nat, k: nat)
    requires j < k < 32
    ensures One(j) < One(k)
    decreases k
  {
    hide One;
    OneDoubles(k - 1);
    if j < k - 1 {
      OneGrows(j, k - 1);
    }
  }

  function AndW(w: Word, v: Word): Word {
    w & v
  }

  function OrW(w: Word, v: Word): Word {
    w | v
  }

  function XorW(w: Word, v: Word): Word {
    w ^ v
  }

  function NotW(w: Word): Word {
    !w
  }

  predicate SingleBit(m: Word) {
    m != 0 && m & (m - 1) == 0
  }

  lemma AndMask(w: Word, v: Word, m: Word)
    requires SingleBit(m)
    ensures Meets(w & v, m) <==> Meets(w, m) && Meets(v, m)
  {
  }

  lemma OrMask(w: Word, v: Word, m: Word)
    ensures Meets(w | v, m) <==> Meets(w, m) || Meets(v, m)
  {
    OrDistributes(w, v, m);
    OrZero(w & m, v & m);
  }

  lemma OrDistributes(w: Word, v: Word, m: Word)
    ensures (w | v) & m == (w & m) | (v & m)
  {
  }

  lemma OrZero(a: Word, b: Word)
    ensures a | b == 0 <==> a == 0 && b == 0
  {
  }

  lemma XorMask(w: Word, v: Word, m: Word)
    requires SingleBit(m)
    ensures Meets(w ^ v, m) <==> Meets(w, m) != Meets(v, m)
  {
  }

  lemma NotMask(w: Word, m: Word)
    requires SingleBit(m)
    ensures Meets(!w, m) <==> !Meets(w, m)
  {
  }

  lemma BitAnd(w: Word, v: Word, k: nat)
    requires k < 32
    ensures BitOf(AndW(w, v), k) <==> BitOf(w, k) && BitOf(v, k)
  {
    hide One, Meets, SingleBit;
    AndMask(w, v, One(k));
  }

  lemma BitOr(w: Word, v: Word, k: nat)
    requires k < 32
    ensures BitOf(OrW(w, v), k) <==> BitOf(w, k) || BitOf(v, k)
  {
    hide One, Meets, SingleBit;
    OrMask(w, v, One(k));
  }

  lemma BitXor(w: Word, v: Word, k: nat)
    requires k < 32
    ensures BitOf(XorW(w, v), k) <==> BitOf(w, k) != BitOf(v, k)
  {
    hide One, Meets, SingleBit;
    XorMask(w, v, One(k));
  }

  lemma BitNot(w: Word, k: nat)
    requires k < 32
    ensures BitOf(NotW(w), k) <==> !BitOf(w, k)
  {
    hide One, Meets, SingleBit;
    NotMask(w, One(k));
  }

  lemma ZeroBits(k: nat)
    requires k < 32
    ensures !BitOf(0, k) && BitOf(0xFFFF_FFFF, k)
  {
    hide One;
  }

  /** A word is determined by its bits. */
  lemma WordsEqual(w: Word, v: Word)
    requires forall k :: 0 <= k < 32 ==> BitOf(w, k) == BitOf(v, k)
    ensures w == v
  {
    forall k | 0 <= k < 32 ensures !BitOf(XorW(w, v), k) {
      BitXor(w, v, k);
    }
    SomeBit(XorW(w, v));
    XorZero(w, v);
  }

  lemma NoBits(x: Word)
    requires forall k :: 0 <= k < 32 ==> x & One(k) == 0
    ensures x == 0
  {
    assert x & One(0) == 0 && x & One(1) == 0 && x & One(2) == 0 && x & One(3) == 0;
    assert x & One(4) == 0 && x & One(5) == 0 && x & One(6) == 0 && x & One(7) == 0;
    assert x & One(8) == 0 && x & One(9) == 0 && x & One(10) == 0 && x & One(11) == 0;
    assert x & One(12) == 0 && x & One(13) == 0 && x & One(14) == 0 && x & One(15) == 0;
    assert x & One(16) == 0 && x & One(17) == 0 && x & One(18) == 0 && x & One(19) == 0;
    assert x & One(20) == 0 && x & One(21) == 0 && x & One(22) == 0 && x & One(23) == 0;
    assert x & One(24) == 0 && x & One(25) == 0 && x & One(26) == 0 && x & One(27) == 0;
    assert x & One(28) == 0 && x & One(29) == 0 && x & One(30) == 0 && x & One(31) == 0;
  }

  lemma SomeBit(x: Word)
    ensures x != 0 ==> exists k :: 0 <= k < 32 && BitOf(x, k)
  {
    hide One;
    if forall k :: 0 <= k < 32 ==> !BitOf(x, k) {
      forall k | 0 <= k < 32 ensures x & One(k) == 0 {
        assert !BitOf(x, k);
      }
      NoBits(x);
    }
  }

  lemma XorZero(w: Word, v: Word)
    requires w ^ v == 0
    ensures w == v
  {
  }

  // ---------- shifts ----------

  function ShiftLeft(w: Word, n: nat): Word
    requires n <= 32
  {
    w << n
  }

  function ShiftRight(w: Word, n: nat): Word
    requires n <= 32
  {
    w >> n
  }

  lemma LeftTwice(w: Word, n: nat)
    requires n < 32
    ensures (w << n) << 1 == w << (n + 1)
  {
    assert n == 0 || n == 1 || n == 2 || n == 3 || n == 4 || n == 5 || n == 6 || n == 7 || n == 8 || n == 9 || n == 10
      || n == 11 || n == 12 || n == 13 || n == 14 || n == 15 || n == 16 || n == 17 || n == 18 || n == 19 || n == 20 || n == 21
      || n == 22 || n == 23 || n == 24 || n == 25 || n == 26 || n == 27 || n == 28 || n == 29 || n == 30 || n == 31;
  }

  lemma RightTwice(w: Word, n: nat)
    requires n < 32
    ensures (w >> n) >> 1 == w >> (n + 1)
  {
    assert n == 0 || n == 1 || n == 2 || n == 3 || n == 4 || n == 5 || n == 6 || n == 7 || n == 8 || n == 9 || n == 10
      || n == 11 || n == 12 || n == 13 || n == 14 || n == 15 || n == 16 || n == 17 || n == 18 || n == 19 || n == 20 || n == 21
      || n == 22 || n == 23 || n == 24 || n == 25 || n == 26 || n == 27 || n == 28 || n == 29 || n == 30 || n == 31;
  }

  lemma LeftStep(w: Word, n: nat)
    requires n < 32
    ensures ShiftLeft(w, n + 1) == ShiftLeft(w, n) << 1
  {
    LeftTwice(w, n);
  }

  lemma RightStep(w: Word, n: nat)
    requires n < 32
    ensures ShiftRight(w, n + 1) == ShiftRight(w, n) >> 1
  {
    RightTwice(w, n);
  }

  lemma NoShift(w: Word)
    ensures ShiftLeft(w, 0) == w && ShiftRight(w, 0) == w
  {
  }

  lemma LeftMask(w: Word, m: Word)
    requires SingleBit(m) && m << 1 != 0
    ensures Meets(w << 1, m << 1) <==> Meets(w, m)
  {
  }

  lemma RightMask(w: Word, m: Word)
    ensures Meets(w >> 1, m) <==> Meets(w, m << 1)
  {
  }

  lemma EndBits(w: Word)
    ensures !Meets(w << 1, 1) && !Meets(w >> 1, 0x8000_0000)
  {
  }

  lemma FirstAndLast()
    ensures One(0) == 1 && One(31) == 0x8000_0000
  {
  }

  lemma LeftOne(w: Word, k: nat)
    requires k < 32
    ensures BitOf(w << 1, k) <==> k >= 1 && BitOf(w, k - 1)
  {
    FirstAndLast();
    hide One, Meets;
    if k >= 1 {
      OneDoubles(k - 1);
      LeftMask(w, One(k - 1));
    } else {
      EndBits(w);
    }
  }

  lemma RightOne(w: Word, k: nat)
    requires k < 32
    ensures BitOf(w >> 1, k) <==> k < 31 && BitOf(w, k + 1)
  {
    FirstAndLast();
    hide One, Meets;
    if k < 31 {
      OneDoubles(k);
      RightMask(w, One(k));
    } else {
      EndBits(w);
    }
  }

  /** Bit k of a word shifted left by n is bit k - n of the word. */
  lemma {:induction false} ShiftedLeft(w: Word, n: nat, k: nat)
    requires n <= 32 && k < 32
    ensures BitOf(ShiftLeft(w, n), k) <==> k >= n && BitOf(w, k - n)
    decreases n
  {
    hide One, BitOf, ShiftLeft, ShiftRight;
    if n == 0 {
      NoShift(w);
    } else {
      LeftStep(w, n - 1);
      LeftOne(ShiftLeft(w, n - 1), k);
      if k >= 1 {
        ShiftedLeft(w, n - 1, k - 1);
      }
    }
  }

  /** And shifted right it is bit k + n. */
  lemma {:induction false} ShiftedRight(w: Word, n: nat, k: nat)
    requires n <= 32 && k < 32
    ensures BitOf(ShiftRight(w, n), k) <==> k + n < 32 && BitOf(w, k + n)
    decreases n
  {
    hide One, BitOf, ShiftLeft, ShiftRight;
    if n == 0 {
      NoShift(w);
    } else {
      RightStep(w, n - 1);
      RightOne(ShiftRight(w, n - 1), k);
      if k < 31 {
        ShiftedRight(w, n - 1, k + 1);
      }
    }
  }

  // ---------- masks ----------

  /** (1U << n) - 1. */
  function LowMask(n: nat): Word
    requires n < 32
  {
    One(n) - 1
  }

  lemma BelowPower(a: Word, b: Word)
    requires SingleBit(a) && SingleBit(b)
    ensures Meets(a, b - 1) <==> a < b
  {
  }

  /** The mask has exactly the n lowest bits. */
  lemma LowMaskBits(n: nat, k: nat)
    requires n < 32 && k < 32
    ensures BitOf(LowMask(n), k) <==> k < n
  {
    hide One;
    BelowPower(One(k), One(n));
    AndCommutes(One(k), LowMask(n));
    if k < n {
      OneGrows(k, n);
    } else if n < k {
      OneGrows(n, k);
    }
  }

  lemma AndCommutes(w: Word, v: Word)
    ensures Meets(w, v) == Meets(v, w)
  {
  }

  lemma SameSingleBit(a: Word, b: Word)
    requires SingleBit(a) && SingleBit(b)
    ensures Meets(a, b) <==> a == b
  {
  }

  /** 1U << k has bit k and no other. */
  lemma OneBit(k: nat, j: nat)
    requires k < 32 && j < 32
    ensures BitOf(One(k), j) <==> j == k
  {
    hide One;
    SameSingleBit(One(k), One(j));
    if j < k {
      OneGrows(j, k);
    } else if k < j {
      OneGrows(k, j);
    }
  }

  lemma OrNothing(w: Word)
    ensures OrW(w, 0) == w
  {
  }
}
