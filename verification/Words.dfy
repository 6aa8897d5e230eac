/** 16-bit words and the numbers they stand for. */
module Words {
  type Word = bv16

  /** The word with the binary digits of `i`. */
  function Point(i: nat): Word {
    if i == 0 then 0 else Append(Point(i / 2), LastBit(i))
  }

  function Power(n: nat): nat {
    if n == 0 then 1 else 2 * Power(n - 1)
  }

  function Half(w: Word): Word {
    w >> 1
  }

  /** Halving `n` times leaves nothing. */
  predicate Fits(w: Word, n: nat)
    decreases n
  {
    if n == 0 then w == 0 else Fits(Half(w), n - 1)
  }

  lemma FitsUnfolds(w: Word, n: nat)
    requires 0 < n
    ensures Fits(w, n) <==> Fits(Half(w), n - 1)
  {
  }

  lemma HalfMonotone(w: Word, v: Word)
    requires w <= v
    ensures Half(w) <= Half(v)
  {
  }

  lemma {:induction false} NothingBelowZero(w: Word, v: Word)
    requires w <= v && Fits(v, 0)
    ensures Fits(w, 0)
  {
  }

  lemma {:induction false} FitsMonotone(w: Word, v: Word, n: nat)
    requires w <= v && Fits(v, n)
    ensures Fits(w, n)
    decreases n
  {
    hide *;
    if n == 0 {
      NothingBelowZero(w, v);
    } else {
      FitsUnfolds(w, n);
      FitsUnfolds(v, n);
      HalfMonotone(w, v);
      FitsMonotone(Half(w), Half(v), n - 1);
    }
  }

  lemma {:induction false} FitsMore(w: Word, n: nat, m: nat)
    requires Fits(w, n) && n <= m
    ensures Fits(w, m)
    decreases m
  {
    if n > 0 {
      FitsMore(Half(w), n - 1, m - 1);
    } else if m > 0 {
      assert Half(0) == 0;
      FitsMore(0, 0, m - 1);
    }
  }

  lemma {:induction false} AllFit(w: Word)
    ensures Fits(w, 16)
  {
    assert Fits(0, 0) && Fits(1, 1) && Fits(3, 2) && Fits(7, 3) && Fits(0xF, 4) && Fits(0x1F, 5) && Fits(0x3F, 6);
    assert Fits(0x7F, 7) && Fits(0xFF, 8) && Fits(0x1FF, 9) && Fits(0x3FF, 10) && Fits(0x7FF, 11) && Fits(0xFFF, 12);
    assert Fits(0x1FFF, 13) && Fits(0x3FFF, 14) && Fits(0x7FFF, 15) && Fits(0xFFFF, 16);
    hide Fits;
    FitsMonotone(w, 0xFFFF, 16);
  }

  lemma SignDoesNotFit()
    ensures !Fits(0x8000, 15)
  {
    assert !Fits(1, 0) && !Fits(2, 1) && !Fits(4, 2) && !Fits(8, 3) && !Fits(0x10, 4) && !Fits(0x20, 5);
    assert !Fits(0x40, 6) && !Fits(0x80, 7) && !Fits(0x100, 8) && !Fits(0x200, 9) && !Fits(0x400, 10);
    assert !Fits(0x800, 11) && !Fits(0x1000, 12) && !Fits(0x2000, 13) && !Fits(0x4000, 14);
  }

  /** A word that fits in 15 bits is below the sign bit. */
  lemma {:induction false} NoSign(w: Word, n: nat)
    requires Fits(w, n) && n <= 15
    ensures w < 0x8000
  {
    hide *;
    FitsMore(w, n, 15);
    SignDoesNotFit();
    if 0x8000 <= w {
      FitsMonotone(0x8000, w, 15);
    }
  }

  function LastBit(i: nat): (b: Word)
    ensures b <= 1
    ensures b == 1 <==> i % 2 == 1
  {
    if i % 2 == 1 then 1 else 0
  }

  lemma {:induction false} PointSplit(i: nat)
    ensures Point(i) == Append(Point(i / 2), LastBit(i))
  {
    assert Append(0, 0) == 0;
  }

  function Append(w: Word, b: Word): Word {
    (w << 1) | b
  }

  lemma HalfOfAppend(w: Word, b: Word)
    requires w < 0x8000 && b <= 1
    ensures Half(Append(w, b)) == w
  {
  }

  lemma AppendInjective(w: Word, b: Word, w': Word, b': Word)
    requires w < 0x8000 && w' < 0x8000 && b <= 1 && b' <= 1 && Append(w, b) == Append(w', b')
    ensures w == w' && b == b'
  {
  }

  lemma {:induction false} PointOfZero(n: nat)
    ensures Fits(Point(0), n)
  {
    FitsMore(0, 0, n);
  }

  lemma {:induction false} PointFits(i: nat, n: nat)
    requires i < Power(n) && n <= 16
    ensures Fits(Point(i), n)
  {
    hide Point, Fits, Half, Append, LastBit;
    if i == 0 {
      PointOfZero(n);
    } else {
      PointFits(i / 2, n - 1);
      NoSign(Point(i / 2), n - 1);
      PointSplit(i);
      HalfOfAppend(Point(i / 2), LastBit(i));
      FitsUnfolds(Point(i), n);
    }
  }

  /** Numbers of at most 16 binary digits are told apart by their words. */
  lemma {:induction false} PointInjective(i: nat, j: nat, n: nat)
    requires i < Power(n) && j < Power(n) && n <= 16 && Point(i) == Point(j)
    ensures i == j
  {
    hide Point, Append, Fits;
    if n > 0 {
      PointFits(i / 2, n - 1);
      PointFits(j / 2, n - 1);
      NoSign(Point(i / 2), n - 1);
      NoSign(Point(j / 2), n - 1);
      PointSplit(i);
      PointSplit(j);
      AppendInjective(Point(i / 2), LastBit(i), Point(j / 2), LastBit(j));
      PointInjective(i / 2, j / 2, n - 1);
      assert i == 2 * (i / 2) + i % 2 && j == 2 * (j / 2) + j % 2;
    }
  }

  lemma {:induction false} PointsDiffer(i: nat, j: nat)
    requires i < 0x10000 && j < 0x10000 && i != j
    ensures Point(i) != Point(j)
  {
    assert Power(5) == 32;
    assert Power(10) == 1024;
    assert Power(16) == 0x10000;
    if Point(i) == Point(j) {
      PointInjective(i, j, 16);
    }
  }

  function LowBit(w: Word): (b: Word)
    ensures b <= 1
  {
    w & 1
  }

  /** The number the last `n` bits of a word stand for. */
  function NumberBits(w: Word, n: nat): nat
    decreases n
  {
    if n == 0 then 0 else 2 * NumberBits(Half(w), n - 1) + (if LowBit(w) == 1 then 1 else 0)
  }

  lemma {:induction false} NumberIsSmall(w: Word, n: nat)
    ensures NumberBits(w, n) < Power(n)
    decreases n
  {
    if n > 0 {
      NumberIsSmall(Half(w), n - 1);
    }
  }

  lemma AppendLowBit(w: Word)
    ensures Append(Half(w), LowBit(w)) == w
  {
  }

  lemma LastBitOf(m: nat, w: Word)
    ensures var i := 2 * m + (if LowBit(w) == 1 then 1 else 0); i / 2 == m && LastBit(i) == LowBit(w)
  {
    hide LowBit;
    assert LowBit(w) == 0 || LowBit(w) == 1;
  }

  lemma {:induction false} PointOfNumber(w: Word, n: nat)
    requires Fits(w, n)
    ensures Point(NumberBits(w, n)) == w
    decreases n
  {
    hide Half, LowBit, LastBit, Append, Point;
    if n == 0 {
      PointZero();
    } else {
      PointOfNumber(Half(w), n - 1);
      LastBitOf(NumberBits(Half(w), n - 1), w);
      PointSplit(NumberBits(w, n));
      AppendLowBit(w);
    }
  }

  lemma PointZero()
    ensures Point(0) == 0
  {
  }

  function Number(w: Word): nat {
    NumberBits(w, 16)
  }

  /** Words and numbers below 2^16 are in bijection. */
  lemma {:induction false} NumbersAreWords(w: Word, i: nat)
    requires i < 0x10000
    ensures Number(w) < 0x10000 && Point(Number(w)) == w && Number(Point(i)) == i
  {
    assert Power(5) == 32;
    assert Power(10) == 1024;
    assert Power(16) == 0x10000;
    hide Point, Fits, NumberBits, Power;
    AllFit(w);
    PointOfNumber(w, 16);
    NumberIsSmall(w, 16);
    AllFit(Point(i));
    PointOfNumber(Point(i), 16);
    NumberIsSmall(Point(i), 16);
    PointInjective(Number(Point(i)), i, 16);
  }
}
