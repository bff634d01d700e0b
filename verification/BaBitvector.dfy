/**
 The bit vector of the core: words in an array, two of them always present, with the bits above the
 last one kept zero so that comparing words is comparing bits.
 */
module BaBitvectorModel {
  import opened Words

  const MAX_INLINE_WORD := 1

  /** The index of the last word in use, or -1. */
  function MaxWord(max: int): (w: int)
    requires max >= -1
    ensures w >= -1 && (max >= 0 ==> 32 * w <= max < 32 * (w + 1))
  {
    if max < 0 then -1 else max / 32
  }

  /** How many words count: those in use, but never fewer than the inline ones. */
  function Used(max: int): (n: nat)
    requires max >= -1
    ensures n >= 2 && max < 32 * n
  {
    if MaxWord(max) < MAX_INLINE_WORD then MAX_INLINE_WORD + 1 else MaxWord(max) + 1
  }

  predicate BitAt(words: seq<Word>, i: nat)
    requires i < 32 * |words|
  {
    BitOf(words[i / 32], i % 32)
  }

  ghost predicate Fits(words: seq<Word>, max: int) {
    max >= -1 && Used(max) <= |words|
  }

  /** The value of the vector. */
  ghost function Bits(words: seq<Word>, max: int): (bits: seq<bool>)
    requires Fits(words, max)
    ensures |bits| == max + 1 && forall i :: 0 <= i < |bits| ==> bits[i] == BitAt(words, i)
  {
    seq(max + 1, i requires 0 <= i < max + 1 => BitAt(words, i))
  }

  ghost predicate TailZero(words: seq<Word>, max: int)
    requires Fits(words, max)
  {
    forall i :: max < i < 32 * Used(max) ==> !BitAt(words, i)
  }

  ghost function Falses(n: nat): seq<bool> {
    seq(n, _ => false)
  }

  lemma Position(p: nat, k: nat)
    requires k < 32
    ensures (32 * p + k) / 32 == p && (32 * p + k) % 32 == k
  {
  }

  /** Words that agree bit by bit up to word n agree. */
  lemma SameWords(a: seq<Word>, b: seq<Word>, n: nat)
    requires n <= |a| && n <= |b| && forall i :: 0 <= i < 32 * n ==> BitAt(a, i) == BitAt(b, i)
    ensures a[..n] == b[..n]
  {
    hide AndW, OrW, XorW, NotW, BitOf;
    forall p | 0 <= p < n ensures a[p] == b[p] {
      forall k | 0 <= k < 32 ensures BitOf(a[p], k) == BitOf(b[p], k) {
        Position(p, k);
        assert BitAt(a, 32 * p + k) == BitAt(b, 32 * p + k);
      }
      WordsEqual(a[p], b[p]);
    }
  }

  /** With zero tails, the same words are the same vector. */
  lemma EqualBitsEqualWords(a: seq<Word>, b: seq<Word>, max: int)
    requires Fits(a, max) && Fits(b, max) && TailZero(a, max) && TailZero(b, max)
    ensures Bits(a, max) == Bits(b, max) <==> a[..Used(max)] == b[..Used(max)]
  {
    hide AndW, OrW, XorW, NotW, BitOf;
    var n := Used(max);
    if Bits(a, max) == Bits(b, max) {
      forall i | 0 <= i < 32 * n ensures BitAt(a, i) == BitAt(b, i) {
        if i <= max {
          assert Bits(a, max)[i] == Bits(b, max)[i];
        }
      }
      SameWords(a, b, n);
    }
    if a[..n] == b[..n] {
      forall i | 0 <= i < 32 * n ensures BitAt(a, i) == BitAt(b, i) {
        assert a[..n][i / 32] == b[..n][i / 32];
      }
    }
  }

  /** Without zero tails they need not be: the word comparison then tells equal vectors apart. */
  lemma StaleTailBreaksEquality()
    ensures var a, b := [1, 0], [3, 0];
      Fits(a, 0) && Fits(b, 0) && Bits(a, 0) == Bits(b, 0) && a[..Used(0)] != b[..Used(0)]
  {
    var a: seq<Word>, b: seq<Word> := [1, 0], [3, 0];
    assert a[0] != b[0];
    assert BitOf(1, 0) && BitOf(3, 0);
  }

  /** A zero word from p on means no bits from there on. */
  lemma ZeroFrom(words: seq<Word>, p: nat, n: nat)
    requires p <= n <= |words| && forall q :: p <= q < n ==> words[q] == 0
    ensures forall i :: 32 * p <= i < 32 * n ==> !BitAt(words, i)
  {
    hide AndW, OrW, XorW, NotW, BitOf;
    forall i | 32 * p <= i < 32 * n ensures !BitAt(words, i) {
      ZeroBits(i % 32);
    }
  }

  lemma SameFrom(a: seq<Word>, b: seq<Word>, p: nat, n: nat)
    requires p <= n <= |a| && n <= |b| && forall q :: p <= q < n ==> a[q] == b[q]
    ensures forall i :: 32 * p <= i < 32 * n ==> BitAt(a, i) == BitAt(b, i)
  {
  }

  /** The words with the bits above the last one in its word cleared. */
  function ClearedLast(words: seq<Word>, max: int): (cleared: seq<Word>)
    requires Fits(words, max)
    ensures |cleared| == |words|
  {
    if max < 0 then words[0 := 0]
    else if max % 32 != 31 then words[max / 32 := AndW(words[max / 32], LowMask(max % 32 + 1))]
    else words
  }

  lemma ClearedBits(words: seq<Word>, max: int, i: nat)
    requires Fits(words, max) && i < 32 * |words|
    ensures i <= max ==> BitAt(ClearedLast(words, max), i) == BitAt(words, i)
    ensures max < i < 32 * (MaxWord(max) + 1) || (max < 0 && i < 32) ==> !BitAt(ClearedLast(words, max), i)
    ensures i >= 32 * (MaxWord(max) + 1) && !(max < 0 && i < 32) ==> BitAt(ClearedLast(words, max), i) == BitAt(words, i)
  {
    hide AndW, OrW, XorW, NotW, BitOf, LowMask;
    if max < 0 {
      ZeroBits(i % 32);
    } else if max % 32 != 31 && i / 32 == max / 32 {
      BitAnd(words[i / 32], LowMask(max % 32 + 1), i % 32);
      LowMaskBits(max % 32 + 1, i % 32);
    }
  }

  /** What changing the size without touching the words means for the value and the tail. */
  lemma Resized(before: seq<Word>, after: seq<Word>, size: int, n: nat)
    requires Fits(before, size) && TailZero(before, size) && Used(size) <= |after| && after[..Used(size)] == before[..Used(size)]
    requires MaxWord(n - 1) + 1 > Used(size) ==> |after| == MaxWord(n - 1) + 1 && forall p :: Used(size) <= p < |after| ==> after[p] == 0
    ensures Fits(after, n - 1)
    ensures n <= size + 1 ==> Bits(after, n - 1) == Bits(before, size)[..n]
    ensures n > size ==> TailZero(after, n - 1) && Bits(after, n - 1) == Bits(before, size) + Falses(n - size - 1)
    ensures TailZero(after, n - 1) <==> forall i :: n <= i <= size && i < 32 * Used(n - 1) ==> !Bits(before, size)[i]
  {
    hide AndW, OrW, XorW, NotW, BitOf;
    forall i | 0 <= i < 32 * Used(n - 1)
      ensures BitAt(after, i) == (i <= size && BitAt(before, i))
    {
      if i < 32 * Used(size) {
        assert after[..Used(size)][i / 32] == before[..Used(size)][i / 32];
        assert BitAt(after, i) == BitAt(before, i);
      } else {
        assert Used(size) <= i / 32 < |after|;
        assert after[i / 32] == 0;
        ZeroBits(i % 32);
      }
    }
  }

  /** All words up to the last one in use set to the same word, and the last one trimmed. */
  function Assigned(words: seq<Word>, n: nat, value: bool): seq<Word>
    requires Fits(words, n - 1)
  {
    var bits: Word := if value then 0xFFFF_FFFF else 0;
    var count := if n > 32 then MaxWord(n - 1) + 1 else 1;
    var filled := seq(count, _ => bits) + words[count..];
    if value then ClearedLast(filled, n - 1) else filled
  }

  lemma AssignedBits(words: seq<Word>, n: nat, value: bool)
    requires Fits(words, n - 1) && |words| >= 2
    ensures Fits(Assigned(words, n, value), n - 1) && Bits(Assigned(words, n, value), n - 1) == seq(n, _ => value)
    ensures TailZero(Assigned(words, n, value), n - 1) <==> n > 32 || words[1] == 0
  {
    hide AndW, OrW, XorW, NotW, BitOf, ClearedLast;
    var bits: Word := if value then 0xFFFF_FFFF else 0;
    var count := if n > 32 then MaxWord(n - 1) + 1 else 1;
    var filled := seq(count, _ => bits) + words[count..];
    var after := Assigned(words, n, value);
    forall i | 0 <= i < 32 * count ensures BitAt(filled, i) == value {
      ZeroBits(i % 32);
    }
    forall i | 0 <= i < 32 * count ensures BitAt(after, i) == (i < n && value) {
      ClearedBits(filled, n - 1, i);
    }
    forall i | 32 * count <= i < 32 * |words| ensures BitAt(after, i) == BitAt(words, i) {
      ClearedBits(filled, n - 1, i);
    }
    if n <= 32 {
      SecondWord(words);
      assert count == 1 && Used(n - 1) == 2;
      assert (forall i :: 32 <= i < 64 ==> !BitAt(after, i)) <==> (forall i :: 32 <= i < 64 ==> !BitAt(words, i));
    }
  }

  lemma SecondWord(words: seq<Word>)
    requires |words| >= 2
    ensures words[1] == 0 <==> forall i :: 32 <= i < 64 ==> !BitAt(words, i)
  {
    hide AndW, OrW, XorW, NotW, BitOf;
    SomeBit(words[1]);
    if words[1] == 0 {
      ZeroFrom(words, 1, 2);
    } else {
      var k :| 0 <= k < 32 && BitOf(words[1], k);
      Position(1, k);
      assert BitAt(words, 32 + k);
    }
  }

  // ---------- bit sequences ----------

  ghost function NotSeq(a: seq<bool>): seq<bool> {
    seq(|a|, i requires 0 <= i < |a| => !a[i])
  }

  ghost function AndSeq(a: seq<bool>, b: seq<bool>): seq<bool>
    requires |a| == |b|
  {
    seq(|a|, i requires 0 <= i < |a| => a[i] && b[i])
  }

  ghost function OrSeq(a: seq<bool>, b: seq<bool>): seq<bool>
    requires |a| == |b|
  {
    seq(|a|, i requires 0 <= i < |a| => a[i] || b[i])
  }

  ghost function XorSeq(a: seq<bool>, b: seq<bool>): seq<bool>
    requires |a| == |b|
  {
    seq(|a|, i requires 0 <= i < |a| => a[i] != b[i])
  }

  ghost function MinusSeq(a: seq<bool>, b: seq<bool>): seq<bool>
    requires |a| == |b|
  {
    seq(|a|, i requires 0 <= i < |a| => a[i] && !b[i])
  }

  /** b ORed into a from position offset on. */
  ghost function OffsetOrSeq(a: seq<bool>, b: seq<bool>, offset: nat): seq<bool> {
    seq(|a|, i requires 0 <= i < |a| => a[i] || (offset <= i < offset + |b| && b[i - offset]))
  }

  /** Bit by bit, what the operations give. */
  lemma BitwiseAt(a: seq<bool>, b: seq<bool>, offset: nat, i: nat)
    requires i < |a|
    ensures |NotSeq(a)| == |OffsetOrSeq(a, b, offset)| == |a| && NotSeq(a)[i] == !a[i]
    ensures OffsetOrSeq(a, b, offset)[i] == (a[i] || (i >= offset && i - offset < |b| && b[i - offset]))
    ensures |a| == |b| ==> |AndSeq(a, b)| == |OrSeq(a, b)| == |XorSeq(a, b)| == |MinusSeq(a, b)| == |a|
    ensures |a| == |b| ==> AndSeq(a, b)[i] == (a[i] && b[i]) && OrSeq(a, b)[i] == (a[i] || b[i])
    ensures |a| == |b| ==> XorSeq(a, b)[i] == (a[i] != b[i]) && MinusSeq(a, b)[i] == (a[i] && !b[i])
  {
  }

  ghost predicate WordsBeyond(before: seq<Word>, after: seq<Word>, max: int)
    requires max >= -1
  {
    && |after| == |before|
    && (forall p :: MaxWord(max) < p < |before| ==> after[p] == before[p])
  }

  lemma AndBits(before: seq<Word>, other: seq<Word>, after: seq<Word>, max: int)
    requires Fits(before, max) && Fits(other, max) && TailZero(before, max)
    requires WordsBeyond(before, after, max) && forall p :: 0 <= p <= MaxWord(max) ==> after[p] == AndW(before[p], other[p])
    ensures TailZero(after, max) && Bits(after, max) == AndSeq(Bits(before, max), Bits(other, max))
  {
    hide AndW, OrW, XorW, NotW, BitOf;
    forall i | 0 <= i < 32 * Used(max) ensures BitAt(after, i) == (BitAt(before, i) && (i > max || BitAt(other, i))) {
      BitAnd(before[i / 32], other[i / 32], i % 32);
    }
  }

  lemma OrBits(before: seq<Word>, other: seq<Word>, after: seq<Word>, max: int)
    requires Fits(before, max) && Fits(other, max) && TailZero(before, max) && TailZero(other, max)
    requires WordsBeyond(before, after, max) && forall p :: 0 <= p <= MaxWord(max) ==> after[p] == OrW(before[p], other[p])
    ensures TailZero(after, max) && Bits(after, max) == OrSeq(Bits(before, max), Bits(other, max))
  {
    hide AndW, OrW, XorW, NotW, BitOf;
    forall i | 0 <= i < 32 * Used(max) ensures BitAt(after, i) == (BitAt(before, i) || BitAt(other, i)) {
      BitOr(before[i / 32], other[i / 32], i % 32);
    }
  }

  lemma XorBits(before: seq<Word>, other: seq<Word>, after: seq<Word>, max: int)
    requires Fits(before, max) && Fits(other, max) && TailZero(before, max) && TailZero(other, max)
    requires WordsBeyond(before, after, max) && forall p :: 0 <= p <= MaxWord(max) ==> after[p] == XorW(before[p], other[p])
    ensures TailZero(after, max) && Bits(after, max) == XorSeq(Bits(before, max), Bits(other, max))
  {
    hide AndW, OrW, XorW, NotW, BitOf;
    forall i | 0 <= i < 32 * Used(max) ensures BitAt(after, i) == (BitAt(before, i) != BitAt(other, i)) {
      BitXor(before[i / 32], other[i / 32], i % 32);
    }
  }

  /** Flipped words, trimmed: every bit is flipped and the tail is zero. */
  lemma NotBits(before: seq<Word>, flipped: seq<Word>, max: int)
    requires Fits(before, max) && TailZero(before, max)
    requires WordsBeyond(before, flipped, max) && forall p :: 0 <= p <= MaxWord(max) ==> flipped[p] == NotW(before[p])
    ensures Fits(flipped, max) && TailZero(ClearedLast(flipped, max), max)
    ensures Bits(ClearedLast(flipped, max), max) == NotSeq(Bits(before, max))
  {
    hide AndW, OrW, XorW, NotW, BitOf, ClearedLast;
    forall i | 0 <= i < 32 * Used(max) ensures BitAt(ClearedLast(flipped, max), i) == (i <= max && !BitAt(before, i)) {
      ClearedBits(flipped, max, i);
      BitNot(before[i / 32], i % 32);
      if i / 32 <= MaxWord(max) {
        assert flipped[i / 32] == NotW(before[i / 32]);
      } else {
        assert flipped[i / 32] == before[i / 32];
        assert !BitAt(before, i);
      }
    }
  }

  /** The first bit position beyond the words in use. */
  function WordsEnd(max: int): (n: nat)
    requires max >= -1
    ensures max < n <= 32 * Used(max)
  {
    32 * (MaxWord(max) + 1)
  }

  lemma DifferenceBits(mine: seq<Word>, other: seq<Word>, before: seq<Word>, after: seq<Word>, max: int)
    requires Fits(mine, max) && Fits(other, max) && Fits(before, max) && TailZero(other, max) && WordsBeyond(before, after, max)
    requires forall p :: 0 <= p <= MaxWord(max) ==> after[p] == AndW(other[p], NotW(mine[p]))
    ensures Bits(after, max) == MinusSeq(Bits(other, max), Bits(mine, max))
    ensures TailZero(after, max) <==> forall i :: WordsEnd(max) <= i < 32 * Used(max) ==> !BitAt(before, i)
  {
    hide AndW, OrW, XorW, NotW, BitOf;
    forall i | 0 <= i < WordsEnd(max) ensures BitAt(after, i) == (BitAt(other, i) && !BitAt(mine, i)) {
      BitNot(mine[i / 32], i % 32);
      BitAnd(other[i / 32], NotW(mine[i / 32]), i % 32);
    }
    SameFrom(after, before, MaxWord(max) + 1, Used(max));
  }

  /** Beyond the words in use a resized vector still holds what it held before. */
  lemma KeptTail(before: seq<Word>, after: seq<Word>, size: int, max: int)
    requires Fits(before, size) && TailZero(before, size) && Fits(after, max)
    requires Used(size) <= |after| && after[..Used(size)] == before[..Used(size)]
    ensures (forall i :: WordsEnd(max) <= i < 32 * Used(max) ==> !BitAt(after, i)) <==>
      forall i :: WordsEnd(max) <= i <= size && i < 32 * Used(max) ==> !Bits(before, size)[i]
  {
    hide BitOf;
    forall i | WordsEnd(max) <= i < 32 * Used(max)
      ensures i < 32 * Used(size) && BitAt(after, i) == BitAt(before, i)
      ensures i > size ==> !BitAt(before, i)
    {
      assert after[..Used(size)][i / 32] == before[..Used(size)][i / 32];
    }
    if forall i :: WordsEnd(max) <= i <= size && i < 32 * Used(max) ==> !Bits(before, size)[i] {
      forall i | WordsEnd(max) <= i < 32 * Used(max) ensures !BitAt(after, i) {
        if i <= size {
          assert !Bits(before, size)[i];
        }
      }
    }
  }

  lemma CommonBit(a: seq<Word>, b: seq<Word>, p: nat)
    requires p < |a| && p < |b| && AndW(a[p], b[p]) != 0
    ensures exists i :: 0 <= i < 32 * |a| && i < 32 * |b| && i / 32 == p && BitAt(a, i) && BitAt(b, i)
  {
    hide AndW, OrW, XorW, NotW, BitOf;
    SomeBit(AndW(a[p], b[p]));
    var k :| 0 <= k < 32 && BitOf(AndW(a[p], b[p]), k);
    BitAnd(a[p], b[p], k);
    Position(p, k);
    assert BitAt(a, 32 * p + k) && BitAt(b, 32 * p + k);
  }

  lemma OneBitSet(before: seq<Word>, after: seq<Word>, max: int, i: nat, x: bool)
    requires Fits(before, max) && TailZero(before, max) && i <= max
    requires after == before[i / 32 := if x then OrW(before[i / 32], One(i % 32)) else AndW(before[i / 32], NotW(One(i % 32)))]
    ensures Fits(after, max) && TailZero(after, max) && Bits(after, max) == Bits(before, max)[i := x]
  {
    hide AndW, OrW, XorW, NotW, BitOf, One;
    forall j | 0 <= j < 32 * Used(max) ensures BitAt(after, j) == if j == i then x else BitAt(before, j) {
      OneBit(i % 32, j % 32);
      BitOr(before[i / 32], One(i % 32), j % 32);
      BitNot(One(i % 32), j % 32);
      BitAnd(before[i / 32], NotW(One(i % 32)), j % 32);
    }
  }

  // ---------- the shifted words ----------

  /** What the word below the one in line contributes: its high bits. */
  function High(other: seq<Word>, oMaxWord: int, offset: nat, p: nat): Word
    requires oMaxWord < |other|
  {
    var j := p - offset / 32 - 1;
    if offset % 32 != 0 && 0 <= j <= oMaxWord then ShiftRight(other[j], 32 - offset % 32) else 0
  }

  function Low(other: seq<Word>, oMaxWord: int, offset: nat, p: nat): Word
    requires oMaxWord < |other|
  {
    var j := p - offset / 32;
    if 0 <= j <= oMaxWord then ShiftLeft(other[j], offset % 32) else 0
  }

  function Full(before: seq<Word>, other: seq<Word>, oMaxWord: int, offset: nat, p: nat): Word
    requires oMaxWord < |other| && p < |before|
  {
    OrW(OrW(before[p], High(other, oMaxWord, offset, p)), Low(other, oMaxWord, offset, p))
  }

  lemma NoLow(before: seq<Word>, other: seq<Word>, oMaxWord: int, offset: nat, p: nat)
    requires oMaxWord < |other| && p < |before| && p - offset / 32 > oMaxWord
    ensures Full(before, other, oMaxWord, offset, p) == OrW(before[p], High(other, oMaxWord, offset, p))
  {
    OrNothing(OrW(before[p], High(other, oMaxWord, offset, p)));
  }

  /** Word oPos of the other vector goes into the low part of one word and the high part of the next. */
  lemma Pieces(before: seq<Word>, other: seq<Word>, oMaxWord: int, offset: nat, oPos: nat, p: nat)
    requires oPos <= oMaxWord < |other| && p == offset / 32 + oPos
    ensures
      && (p < |before| ==> Full(before, other, oMaxWord, offset, p)
                           == OrW(OrW(before[p], High(other, oMaxWord, offset, p)), ShiftLeft(other[oPos], offset % 32)))
      && High(other, oMaxWord, offset, p + 1) == (if offset % 32 != 0 then ShiftRight(other[oPos], 32 - offset % 32) else 0)
      && (oPos == 0 ==> High(other, oMaxWord, offset, p) == 0)
  {
    hide OrW, ShiftLeft, ShiftRight;
  }

  lemma FullElsewhere(before: seq<Word>, other: seq<Word>, oMaxWord: int, offset: nat)
    requires oMaxWord < |other|
    ensures forall p :: 0 <= p < |before| && (p < offset / 32 || p > offset / 32 + oMaxWord + 1) ==>
      Full(before, other, oMaxWord, offset, p) == before[p]
  {
    forall p | 0 <= p < |before| && (p < offset / 32 || p > offset / 32 + oMaxWord + 1)
      ensures Full(before, other, oMaxWord, offset, p) == before[p]
    {
      OrNothing(before[p]);
    }
  }

  /** Bit k of the combined word p: its own, or the other vector's bit offset places lower. */
  lemma FullBit(before: seq<Word>, other: seq<Word>, oMax: int, offset: nat, p: nat, k: nat)
    requires Fits(other, oMax) && TailZero(other, oMax) && oMax >= 0 && p < |before| && k < 32
    ensures BitOf(Full(before, other, MaxWord(oMax), offset, p), k) <==>
      BitOf(before[p], k) || (offset <= 32 * p + k <= offset + oMax && BitAt(other, 32 * p + k - offset))
  {
    hide AndW, OrW, XorW, NotW, BitOf, ShiftLeft, ShiftRight;
    var m, s, q := MaxWord(oMax), offset % 32, offset / 32;
    var high, low := High(other, m, offset, p), Low(other, m, offset, p);
    BitOr(OrW(before[p], high), low, k);
    BitOr(before[p], high, k);
    ZeroBits(k);
    LowBit(other, oMax, offset, p, k);
    HighBit(other, oMax, offset, p, k);
  }

  lemma LowBit(other: seq<Word>, oMax: int, offset: nat, p: nat, k: nat)
    requires Fits(other, oMax) && TailZero(other, oMax) && oMax >= 0 && k < 32
    ensures BitOf(Low(other, MaxWord(oMax), offset, p), k) <==>
      k >= offset % 32 && offset <= 32 * p + k <= offset + oMax && BitAt(other, 32 * p + k - offset)
  {
    hide AndW, OrW, XorW, NotW, BitOf, ShiftLeft;
    var j := p - offset / 32;
    ZeroBits(k);
    if 0 <= j <= MaxWord(oMax) {
      ShiftedLeft(other[j], offset % 32, k);
      if k >= offset % 32 {
        Position(j, k - offset % 32);
        assert 32 * p + k - offset == 32 * j + (k - offset % 32);
        assert BitAt(other, 32 * j + (k - offset % 32)) == BitOf(other[j], k - offset % 32);
      }
    }
  }

  lemma HighBit(other: seq<Word>, oMax: int, offset: nat, p: nat, k: nat)
    requires Fits(other, oMax) && TailZero(other, oMax) && oMax >= 0 && k < 32
    ensures BitOf(High(other, MaxWord(oMax), offset, p), k) <==>
      k < offset % 32 && offset <= 32 * p + k <= offset + oMax && BitAt(other, 32 * p + k - offset)
  {
    hide AndW, OrW, XorW, NotW, BitOf, ShiftRight;
    var s := offset % 32;
    var j := p - offset / 32 - 1;
    ZeroBits(k);
    if s != 0 && 0 <= j <= MaxWord(oMax) {
      ShiftedRight(other[j], 32 - s, k);
      if k < s {
        Position(j, k + 32 - s);
        assert 32 * p + k - offset == 32 * j + (k + 32 - s);
        assert BitAt(other, 32 * j + (k + 32 - s)) == BitOf(other[j], k + 32 - s);
      }
    }
  }

  lemma OffsetBits(before: seq<Word>, other: seq<Word>, after: seq<Word>, max: int, oMax: int, offset: nat)
    requires Fits(before, max) && TailZero(before, max) && Fits(other, oMax) && TailZero(other, oMax) && oMax >= 0 && offset + oMax <= max
    requires |after| == |before| && forall p :: MaxWord(max) < p < |before| ==> after[p] == before[p]
    requires forall p :: 0 <= p <= MaxWord(max) ==> after[p] == Full(before, other, MaxWord(oMax), offset, p)
    ensures TailZero(after, max) && Bits(after, max) == OffsetOrSeq(Bits(before, max), Bits(other, oMax), offset)
  {
    hide AndW, OrW, XorW, NotW, BitOf, Full, High, Low;
    forall i | 0 <= i < 32 * Used(max)
      ensures BitAt(after, i) <==> BitAt(before, i) || (offset <= i <= offset + oMax && BitAt(other, i - offset))
    {
      if i / 32 <= MaxWord(max) {
        FullBit(before, other, oMax, offset, i / 32, i % 32);
        assert 32 * (i / 32) + i % 32 == i;
      }
    }
  }

  class BABitvector {
    var max: int
    var data: array<Word>

    ghost predicate Valid()
      reads this, data
    {
      Fits(data[..], max) && TailZero(data[..], max)
    }

    ghost function Value(): seq<bool>
      reads this, data
      requires Fits(data[..], max)
    {
      Bits(data[..], max)
    }

    constructor (n: nat)
      ensures Valid() && fresh(data) && Value() == Falses(n)
    {
      max := n - 1;
      data := new Word[Used(n - 1)](_ => 0);
      new;
      ZeroFrom(data[..], 0, data.Length);
    }

    method Get(i: nat) returns (b: bool)
      requires Fits(data[..], max) && i <= max
      ensures b == Value()[i]
    {
      b := BitOf(data[i / 32], i % 32);
    }

    method Clear()
      requires Valid()
      modifies data
      ensures Valid() && Value() == Falses(max + 1)
    {
      ghost var before := data[..];
      var nn := MaxWord(max);
      var i := 0;
      while i <= nn
        invariant 0 <= i <= nn + 1
        invariant forall p :: 0 <= p < i ==> data[p] == 0
        invariant forall p :: i <= p < data.Length ==> data[p] == before[p]
      {
        data[i] := 0;
        i := i + 1;
      }
      ZeroFrom(data[..], 0, nn + 1);
      SameFrom(data[..], before, nn + 1, Used(max));
    }

    method Zero() returns (z: bool)
      requires Valid()
      ensures z <==> Value() == Falses(max + 1)
    {
      hide AndW, OrW, XorW, NotW, BitOf;
      var nn := MaxWord(max);
      var i := 0;
      while i <= nn
        invariant 0 <= i <= nn + 1 && forall p :: 0 <= p < i ==> data[p] == 0
      {
        if data[i] != 0 {
          SomeBit(data[i]);
          ghost var k :| 0 <= k < 32 && BitOf(data[i], k);
          Position(i, k);
          assert BitAt(data[..], 32 * i + k);
          assert Value()[32 * i + k] && !Falses(max + 1)[32 * i + k];
          return false;
        }
        i := i + 1;
      }
      ZeroFrom(data[..], 0, nn + 1);
      assert Value() == Falses(max + 1);
      z := true;
    }

    /** Makes room for newMax + 1 bits; words in use are kept, new ones are zero. */
    method ResizeToMax(newMax: int)
      requires Fits(data[..], max) && newMax >= 0
      modifies this`data
      ensures data == old(data) || fresh(data)
      ensures Used(max) <= data.Length && data[..Used(max)] == old(data[..])[..Used(max)]
      ensures if MaxWord(newMax) + 1 > Used(max)
              then data.Length == MaxWord(newMax) + 1 && forall p :: Used(max) <= p < data.Length ==> data[p] == 0
              else data == old(data)
    {
      var wantU := newMax / 32 + 1;
      var haveU := MaxWord(max) + 1;
      if haveU < MAX_INLINE_WORD + 1 {
        haveU := MAX_INLINE_WORD + 1;
      }
      if wantU <= haveU {
        return;
      }
      var newData := new Word[wantU](_ => 0);
      var i := 0;
      while i < haveU
        invariant 0 <= i <= haveU && fresh(newData) && newData.Length == wantU && data == old(data) && data[..] == old(data[..])
        invariant forall p :: 0 <= p < i ==> newData[p] == data[p]
        invariant forall p :: i <= p < wantU ==> newData[p] == 0
      {
        newData[i] := data[i];
        i := i + 1;
      }
      data := newData;
    }

    /** Growing appends false bits.  Shrinking keeps the words, so the tail is zero only if the lost bits in them were. */
    method Resize(n: nat)
      requires Valid()
      modifies this`max, this`data
      ensures max == n - 1 && Fits(data[..], max) && (data == old(data) || fresh(data))
      ensures Used(old(max)) <= data.Length && data[..Used(old(max))] == old(data[..])[..Used(old(max))]
      ensures n <= old(max) + 1 ==> Value() == old(Value())[..n]
      ensures n > old(max) ==> Valid() && Value() == old(Value()) + Falses(n - old(max) - 1)
      ensures Valid() <==> forall i :: n <= i <= old(max) && i < 32 * Used(n - 1) ==> !old(Value())[i]
    {
      ghost var before, size := data[..], max;
      if n - 1 > 63 {
        ResizeToMax(n - 1);
      }
      max := n - 1;
      Resized(before, data[..], size, n);
    }

    /** Clears the bits above the last one in its word. */
    method ClearLast()
      requires Fits(data[..], max)
      modifies data
      ensures data[..] == ClearedLast(old(data[..]), max)
    {
      hide LowMask;
      if max < 0 {
        data[0] := 0;
      } else if max % 32 != 31 {
        var mask := LowMask(max % 32 + 1);
        data[max / 32] := AndW(data[max / 32], mask);
      }
    }

    /** All bits equal to value.  For up to 32 bits the second inline word is left as it is. */
    method Assign(n: nat, value: bool)
      requires Valid()
      modifies this, data
      ensures max == n - 1 && Fits(data[..], max) && Value() == seq(n, _ => value)
      ensures Valid() <==> n > 32 || old(data[1]) == 0
    {
      hide AndW, OrW, XorW, NotW, BitOf, ClearedLast, LowMask, TailZero;
      ghost var first := data[..];
      Resize(n);
      ghost var before := data[..];
      assert before[..2][1] == first[..2][1] by {
        assert before[..2] == before[..Used(old(max))][..2] && first[..2] == first[..Used(old(max))][..2];
      }
      var bits: Word := if value then 0xFFFF_FFFF else 0;
      Fill(if n > 32 then MaxWord(max) else 0, bits);
      if value {
        ClearLast();
      }
      assert data[..] == Assigned(before, n, value);
      AssignedBits(before, n, value);
    }

    method Fill(copy: nat, bits: Word)
      requires copy < data.Length
      modifies data
      ensures data[..] == seq(copy + 1, _ => bits) + old(data[..])[copy + 1..]
    {
      ghost var before := data[..];
      var i := 0;
      while i <= copy
        invariant 0 <= i <= copy + 1
        invariant forall p :: 0 <= p < i ==> data[p] == bits
        invariant forall p :: i <= p < data.Length ==> data[p] == before[p]
      {
        data[i] := bits;
        i := i + 1;
      }
    }

    // ---------- bitwise operations ----------

    method Negate()
      requires Valid()
      modifies data
      ensures Valid() && Value() == NotSeq(old(Value()))
    {
      hide AndW, OrW, XorW, NotW, BitOf, TailZero, ClearedLast, One;
      ghost var before := data[..];
      var nn := MaxWord(max);
      var i := 0;
      while i <= nn
        invariant 0 <= i <= nn + 1
        invariant forall p :: 0 <= p < i ==> data[p] == NotW(before[p])
        invariant forall p :: i <= p < data.Length ==> data[p] == before[p]
      {
        data[i] := NotW(data[i]);
        i := i + 1;
      }
      NotBits(before, data[..], max);
      ClearLast();
    }

    method And(o: BABitvector)
      requires Valid() && o.Valid() && o.max == max && o.data != data
      modifies data
      ensures Valid() && Value() == AndSeq(old(Value()), o.Value())
    {
      hide AndW, OrW, XorW, NotW, BitOf, TailZero, ClearedLast, One;
      ghost var before := data[..];
      var nn := MaxWord(max);
      var i := 0;
      while i <= nn
        invariant 0 <= i <= nn + 1
        invariant forall p :: 0 <= p < i ==> data[p] == AndW(before[p], o.data[p])
        invariant forall p :: i <= p < data.Length ==> data[p] == before[p]
      {
        data[i] := AndW(data[i], o.data[i]);
        i := i + 1;
      }
      AndBits(before, o.data[..], data[..], max);
    }

    /** The other vector may be longer; this one then grows first. */
    method Or(o: BABitvector)
      requires Valid() && o.Valid() && o.max >= max && o != this && o.data != data
      modifies this, data
      ensures Valid() && Value() == OrSeq(old(Value()) + Falses(o.max - old(max)), o.Value())
    {
      if o.max > max {
        Resize(o.max + 1);
      }
      ghost var before := data[..];
      assert Bits(before, max) == old(Value()) + Falses(o.max - old(max));
      OrWords(o);
    }

    method OrWords(o: BABitvector)
      requires Valid() && o.Valid() && o.max == max && o.data != data
      modifies data
      ensures Valid() && Value() == OrSeq(old(Value()), o.Value())
    {
      hide AndW, OrW, XorW, NotW, BitOf, TailZero, ClearedLast, One;
      ghost var before := data[..];
      var nn := MaxWord(max);
      var i := 0;
      while i <= nn
        invariant 0 <= i <= nn + 1
        invariant forall p :: 0 <= p < i ==> data[p] == OrW(before[p], o.data[p])
        invariant forall p :: i <= p < data.Length ==> data[p] == before[p]
      {
        data[i] := OrW(data[i], o.data[i]);
        i := i + 1;
      }
      OrBits(before, o.data[..], data[..], max);
    }

    method Xor(o: BABitvector)
      requires Valid() && o.Valid() && o.max == max && o.data != data
      modifies data
      ensures Valid() && Value() == XorSeq(old(Value()), o.Value())
    {
      hide AndW, OrW, XorW, NotW, BitOf, TailZero, ClearedLast, One;
      ghost var before := data[..];
      var nn := MaxWord(max);
      var i := 0;
      while i <= nn
        invariant 0 <= i <= nn + 1
        invariant forall p :: 0 <= p < i ==> data[p] == XorW(before[p], o.data[p])
        invariant forall p :: i <= p < data.Length ==> data[p] == before[p]
      {
        data[i] := XorW(data[i], o.data[i]);
        i := i + 1;
      }
      XorBits(before, o.data[..], data[..], max);
    }

    /** ORs the other vector in and reports the bits that were new. */
    method OrWithDifference(o: BABitvector, diff: BABitvector)
      requires Valid() && o.Valid() && diff.Valid() && o.max == max && diff != this && diff != o
      requires o.data != data && diff.data != data && diff.data != o.data
      modifies data, diff, diff.data
      ensures Valid() && Value() == OrSeq(old(Value()), o.Value())
      ensures diff.max == max && Fits(diff.data[..], diff.max) && diff.Value() == MinusSeq(o.Value(), old(Value()))
      ensures diff.Valid() <==> forall i :: WordsEnd(max) <= i <= old(diff.max) && i < 32 * Used(max) ==> !old(diff.Value())[i]
    {
      hide AndW, OrW, XorW, NotW, BitOf, TailZero, ClearedLast, One;
      ghost var before := data[..];
      if diff.max != max {
        diff.Resize(max + 1);
      }
      ghost var rest := diff.data[..];
      OrAndDifference(o.data, diff.data);
      OrBits(before, o.data[..], data[..], max);
      DifferenceBits(before, o.data[..], rest, diff.data[..], max);
      KeptTail(old(diff.data[..]), rest, old(diff.max), max);
    }

    method OrAndDifference(oData: array<Word>, diffData: array<Word>)
      requires max >= -1 && MaxWord(max) < data.Length && MaxWord(max) < oData.Length && MaxWord(max) < diffData.Length
      requires oData != data && diffData != data && diffData != oData
      modifies data, diffData
      ensures WordsBeyond(old(data[..]), data[..], max) && WordsBeyond(old(diffData[..]), diffData[..], max)
      ensures forall p :: 0 <= p <= MaxWord(max) ==> data[p] == OrW(old(data[..])[p], oData[p])
      ensures forall p :: 0 <= p <= MaxWord(max) ==> diffData[p] == AndW(oData[p], NotW(old(data[..])[p]))
    {
      hide AndW, OrW, NotW;
      ghost var before, rest := data[..], diffData[..];
      var nn := MaxWord(max);
      var i := 0;
      while i <= nn
        invariant 0 <= i <= nn + 1
        invariant forall p :: 0 <= p < i ==> data[p] == OrW(before[p], oData[p])
        invariant forall p :: 0 <= p < i ==> diffData[p] == AndW(oData[p], NotW(before[p]))
        invariant forall p :: i <= p < data.Length ==> data[p] == before[p]
        invariant forall p :: i <= p < diffData.Length ==> diffData[p] == rest[p]
      {
        diffData[i] := AndW(oData[i], NotW(data[i]));
        data[i] := OrW(data[i], oData[i]);
        i := i + 1;
      }
    }

    method NonzeroIntersection(o: BABitvector) returns (common: bool)
      requires Valid() && o.Valid()
      ensures common <==> exists i :: 0 <= i <= max && i <= o.max && Value()[i] && o.Value()[i]
    {
      hide AndW, OrW, XorW, NotW, BitOf;
      var nn := MaxWord(o.max);
      if nn > MaxWord(max) {
        nn := MaxWord(max);
      }
      var i := 0;
      while i <= nn
        invariant 0 <= i <= nn + 1 && forall p :: 0 <= p < i ==> AndW(data[p], o.data[p]) == 0
      {
        if AndW(data[i], o.data[i]) != 0 {
          CommonBit(data[..], o.data[..], i);
          ghost var b :| 0 <= b < 32 * |data[..]| && b < 32 * |o.data[..]| && b / 32 == i && BitAt(data[..], b) && BitAt(o.data[..], b);
          assert Value()[b] && o.Value()[b];
          return true;
        }
        i := i + 1;
      }
      forall b | 0 <= b <= max && b <= o.max ensures !(Value()[b] && o.Value()[b]) {
        BitAnd(data[b / 32], o.data[b / 32], b % 32);
        ZeroBits(b % 32);
      }
      common := false;
    }

    method Equals(o: BABitvector) returns (same: bool)
      requires Valid() && o.Valid()
      ensures same <==> Value() == o.Value()
    {
      if max != o.max {
        return false;
      }
      EqualBitsEqualWords(data[..], o.data[..], max);
      var i := 0;
      while i < Used(max)
        invariant 0 <= i <= Used(max) && data[..i] == o.data[..i]
      {
        if data[i] != o.data[i] {
          assert data[..Used(max)][i] != o.data[..Used(max)][i];
          return false;
        }
        i := i + 1;
      }
      same := true;
    }

    /** Sets bit i, growing the vector if it is too short. */
    method ForceBit(i: nat, x: bool)
      requires Valid()
      modifies this, data
      ensures Valid() && Value() == (old(Value()) + Falses(if i > old(max) then i - old(max) else 0))[i := x]
    {
      hide AndW, OrW, XorW, NotW, BitOf, TailZero, ClearedLast, One;
      if i > max {
        Resize(i + 1);
      }
      ghost var before := data[..];
      if x {
        data[i / 32] := OrW(data[i / 32], One(i % 32));
      } else {
        data[i / 32] := AndW(data[i / 32], NotW(One(i % 32)));
      }
      OneBitSet(before, data[..], max, i, x);
    }

    // ---------- shifted or ----------

    /** ORs the bits of the other vector in from position offset on. */
    method OffsetOr(o: BABitvector, offset: nat)
      requires Valid() && o.Valid() && o.max >= 0 && offset + o.max <= max && o.data != data
      modifies data
      ensures Valid() && Value() == OffsetOrSeq(old(Value()), o.Value(), offset)
    {
      hide AndW, OrW, XorW, NotW, BitOf, TailZero, Full;
      ghost var before := data[..];
      OffsetOrWords(o.data, MaxWord(o.max), offset, before, o.data[..]);
      OffsetBits(before, o.data[..], data[..], max, o.max, offset);
    }

    method OffsetOrWords(oData: array<Word>, oMaxWord: nat, offset: nat, ghost before: seq<Word>, ghost other: seq<Word>)
      requires max >= 0 && MaxWord(max) < data.Length && oMaxWord < oData.Length && oData != data && offset / 32 <= MaxWord(max)
      requires before == data[..] && other == oData[..]
      modifies data
      ensures WordsBeyond(before, data[..], max)
      ensures forall p :: 0 <= p <= MaxWord(max) ==> data[p] == Full(before, other, oMaxWord, offset, p)
    {
      hide OrW, ShiftLeft, ShiftRight, Full, High, Low, MaxWord;
      var bits1st := offset % 32;
      var myPos := offset / 32;
      var oPos := 0;
      var myMaxWord := MaxWord(max);
      FullElsewhere(before, other, oMaxWord, offset);
      OrNothing(before[myPos]);
      Pieces(before, other, oMaxWord, offset, 0, myPos);
      ghost var q := myPos;
      while true
        invariant 0 <= oPos <= oMaxWord && myPos == q + oPos <= myMaxWord
        invariant forall p :: 0 <= p < myPos ==> data[p] == Full(before, other, oMaxWord, offset, p)
        invariant data[myPos] == OrW(before[myPos], High(other, oMaxWord, offset, myPos))
        invariant forall p :: myPos < p < data.Length ==> data[p] == before[p]
        decreases oMaxWord - oPos
      {
        var val := oData[oPos];
        Pieces(before, other, oMaxWord, offset, oPos, myPos);
        data[myPos] := OrW(data[myPos], ShiftLeft(val, bits1st));
        myPos := myPos + 1;
        if myPos > myMaxWord {
          break;
        }
        OrNothing(before[myPos]);
        if bits1st != 0 {
          data[myPos] := OrW(data[myPos], ShiftRight(val, 32 - bits1st));
        }
        oPos := oPos + 1;
        if oPos > oMaxWord {
          NoLow(before, other, oMaxWord, offset, myPos);
          break;
        }
      }
      assert |data[..]| == |before|;
    }
  }
}
