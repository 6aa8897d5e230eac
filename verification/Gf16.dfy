/** The field of 2^16 elements with the polynomial x^16 + x^12 + x^3 + x + 1 that gf-complete uses for 16-bit words. */
module Gf16 {
  import opened Words
  import opened Fields

  function Xor(a: Word, b: Word): Word {
    a ^ b
  }

  /** Multiplication by x: the bit shifted out comes back as x^12 + x^3 + x + 1. */
  function XTime(a: Word): Word {
    var carry := a >> 15;
    (a << 1) ^ carry ^ (carry << 1) ^ (carry << 3) ^ (carry << 12)
  }

  function Bit(a: Word): Word {
    a & 1
  }

  function Times(bit: Word, a: Word): Word {
    if bit == 0 then 0 else a
  }

  /** `a` times the polynomial in the last `n` bits of `b`. */
  function MulBits(a: Word, b: Word, n: nat): Word
    decreases n
  {
    if n == 0 then 0 else Xor(Times(Bit(b), a), MulBits(XTime(a), Half(b), n - 1))
  }

  const WIDTH: nat := 16

  function Mul(a: Word, b: Word): Word {
    MulBits(a, b, WIDTH)
  }

  lemma ShiftsAdd(a: Word, b: Word)
    ensures XTime(a ^ b) == XTime(a) ^ XTime(b)
  {
  }

  lemma XTimeAdds(a: Word, b: Word)
    ensures XTime(Xor(a, b)) == Xor(XTime(a), XTime(b))
  {
    hide XTime;
    ShiftsAdd(a, b);
  }

  lemma RawXorAssociates(a: Word, b: Word, c: Word)
    ensures (a ^ b) ^ c == a ^ (b ^ c)
  {
  }

  lemma XorAssociates(a: Word, b: Word, c: Word)
    ensures Xor(Xor(a, b), c) == Xor(a, Xor(b, c))
  {
    RawXorAssociates(a, b, c);
  }

  lemma XorCommutes(a: Word, b: Word)
    ensures Xor(a, b) == Xor(b, a)
  {
  }

  lemma XorZero(a: Word)
    ensures Xor(a, 0) == a && Xor(0, a) == a && Xor(a, a) == 0
  {
  }

  lemma XorLaws(a: Word, b: Word, c: Word)
    ensures Xor(a, b) == Xor(b, a) && Xor(Xor(a, b), c) == Xor(a, Xor(b, c))
    ensures Xor(a, 0) == a && Xor(0, a) == a && Xor(a, a) == 0
  {
    hide *;
    XorAssociates(a, b, c);
    XorCommutes(a, b);
    XorZero(a);
  }

  lemma XorRegroup(a: Word, b: Word, c: Word, d: Word)
    ensures Xor(Xor(a, b), Xor(c, d)) == Xor(Xor(a, c), Xor(b, d))
  {
    hide *;
    XorLaws(a, b, Xor(c, d));
    XorLaws(b, c, d);
    XorLaws(c, b, d);
    XorLaws(a, c, Xor(b, d));
  }

  lemma TimesAddsBits(b: Word, c: Word, a: Word)
    ensures Times(Bit(Xor(b, c)), a) == Xor(Times(Bit(b), a), Times(Bit(c), a))
    ensures Half(Xor(b, c)) == Xor(Half(b), Half(c))
  {
  }

  lemma TimesAdds(bit: Word, a: Word, c: Word)
    ensures Times(bit, Xor(a, c)) == Xor(Times(bit, a), Times(bit, c))
    ensures Times(bit, XTime(a)) == XTime(Times(bit, a))
  {
    assert XTime(0) == 0;
  }

  lemma TimesOne(a: Word)
    ensures Times(Bit(a), 1) == Bit(a)
    ensures a == Xor(Bit(a), XTime(Half(a)))
  {
  }

  lemma Unfold(a: Word, b: Word, n: nat)
    requires 0 < n
    ensures MulBits(a, b, n) == Xor(Times(Bit(b), a), MulBits(XTime(a), Half(b), n - 1))
  {
  }

  lemma {:induction false} MulBitsAddsLeft(a: Word, c: Word, b: Word, n: nat)
    ensures MulBits(Xor(a, c), b, n) == Xor(MulBits(a, b, n), MulBits(c, b, n))
    decreases n
  {
    if n > 0 {
      hide *;
      Unfold(Xor(a, c), b, n);
      Unfold(a, b, n);
      Unfold(c, b, n);
      XTimeAdds(a, c);
      MulBitsAddsLeft(XTime(a), XTime(c), Half(b), n - 1);
      TimesAdds(Bit(b), a, c);
      XorRegroup(Times(Bit(b), a), Times(Bit(b), c),
                 MulBits(XTime(a), Half(b), n - 1), MulBits(XTime(c), Half(b), n - 1));
    }
  }

  lemma {:induction false} MulBitsAddsRight(a: Word, b: Word, c: Word, n: nat)
    ensures MulBits(a, Xor(b, c), n) == Xor(MulBits(a, b, n), MulBits(a, c, n))
    decreases n
  {
    if n > 0 {
      hide *;
      Unfold(a, Xor(b, c), n);
      Unfold(a, b, n);
      Unfold(a, c, n);
      TimesAddsBits(b, c, a);
      MulBitsAddsRight(XTime(a), Half(b), Half(c), n - 1);
      XorRegroup(Times(Bit(b), a), Times(Bit(c), a),
                 MulBits(XTime(a), Half(b), n - 1), MulBits(XTime(a), Half(c), n - 1));
    }
  }

  lemma {:induction false} MulBitsXTime(a: Word, b: Word, n: nat)
    ensures MulBits(XTime(a), b, n) == XTime(MulBits(a, b, n))
    decreases n
  {
    if n == 0 {
      assert XTime(0) == 0;
    } else {
      hide *;
      Unfold(XTime(a), b, n);
      Unfold(a, b, n);
      MulBitsXTime(XTime(a), Half(b), n - 1);
      TimesAdds(Bit(b), a, a);
      XTimeAdds(Times(Bit(b), a), MulBits(XTime(a), Half(b), n - 1));
    }
  }

  lemma {:induction false} MulOfZero(b: Word, n: nat)
    ensures MulBits(0, b, n) == 0
    decreases n
  {
    if n > 0 {
      assert XTime(0) == 0 && Times(Bit(b), 0) == 0;
      hide XTime, Bit, Half, Times;
      MulOfZero(Half(b), n - 1);
    }
  }

  lemma {:induction false} NoBits(a: Word, b: Word)
    ensures MulBits(a, b, 0) == 0
  {
  }

  lemma MulZeroLeft(a: Word)
    ensures Mul(0, a) == 0
  {
    hide MulBits;
    MulOfZero(a, WIDTH);
  }

  lemma TimesOfMul(bit: Word, c: Word, a: Word)
    ensures Times(bit, Mul(c, a)) == Mul(Times(bit, c), a)
  {
    hide MulBits;
    MulOfZero(a, WIDTH);
  }

  lemma MulLaws(a: Word, b: Word, c: Word)
    ensures Mul(Xor(a, b), c) == Xor(Mul(a, c), Mul(b, c))
    ensures Mul(a, Xor(b, c)) == Xor(Mul(a, b), Mul(a, c))
    ensures Mul(XTime(a), b) == XTime(Mul(a, b))
  {
    hide MulBits, XTime, Xor;
    MulBitsAddsLeft(a, b, c, WIDTH);
    MulBitsAddsRight(a, b, c, WIDTH);
    MulBitsXTime(a, b, WIDTH);
  }

  /** Multiplications by two factors, one after the other, can be exchanged. */
  lemma {:induction false} MulBitsExchange(c: Word, a: Word, b: Word, n: nat)
    ensures MulBits(Mul(c, a), b, n) == Mul(MulBits(c, b, n), a)
    decreases n
  {
    hide *;
    if n == 0 {
      NoBits(Mul(c, a), b);
      NoBits(c, b);
      MulZeroLeft(a);
    } else {
      Unfold(Mul(c, a), b, n);
      Unfold(c, b, n);
      MulLaws(c, a, a);
      MulBitsExchange(XTime(c), a, Half(b), n - 1);
      TimesOfMul(Bit(b), c, a);
      MulLaws(Times(Bit(b), c), MulBits(XTime(c), Half(b), n - 1), a);
    }
  }

  lemma {:induction false} OneTimesBits(a: Word, n: nat)
    requires Fits(a, n)
    ensures MulBits(1, a, n) == a
    decreases n
  {
    if n > 0 {
      hide XTime, Bit, Half, Times, Xor, MulBits;
      OneTimesBits(Half(a), n - 1);
      MulBitsXTime(1, Half(a), n - 1);
      Unfold(1, a, n);
      TimesOne(a);
    }
  }

  lemma OneTimes(a: Word)
    ensures Mul(1, a) == a
  {
    hide MulBits;
    AllFit(a);
    OneTimesBits(a, WIDTH);
  }

  lemma MulCommutes(a: Word, b: Word)
    ensures Mul(a, b) == Mul(b, a)
  {
    hide *;
    OneTimes(a);
    OneTimes(b);
    Exchange(1, a, b);
  }

  lemma Exchange(c: Word, a: Word, b: Word)
    ensures Mul(Mul(c, a), b) == Mul(Mul(c, b), a)
  {
    hide MulBits;
    MulBitsExchange(c, a, b, WIDTH);
  }

  lemma MulAssoc(a: Word, b: Word, c: Word)
    ensures Mul(Mul(a, b), c) == Mul(a, Mul(b, c))
  {
    hide *;
    MulCommutes(a, b);
    Exchange(b, a, c);
    MulCommutes(Mul(b, c), a);
  }

  /** `c` times the square of the polynomial in the last `n` bits of `a`: each bit moves to twice its position. */
  function SquareBits(a: Word, c: Word, n: nat): Word
    decreases n
  {
    if n == 0 then 0 else Xor(Times(Bit(a), c), SquareBits(Half(a), XTime(XTime(c)), n - 1))
  }

  lemma BitSquared(a: Word)
    ensures Mul(Bit(a), Bit(a)) == Bit(a)
  {
    OneTimes(1);
    MulOfZero(0, WIDTH);
    hide MulBits;
    assert Bit(a) == 0 || Bit(a) == 1;
  }

  lemma TimesIsMul(a: Word, c: Word)
    ensures Mul(c, Bit(a)) == Times(Bit(a), c)
  {
    OneTimes(c);
    MulCommutes(c, Bit(a));
    MulOfZero(c, WIDTH);
    hide MulBits;
    assert Bit(a) == 0 || Bit(a) == 1;
  }

  lemma XTimeMoves(a: Word, b: Word)
    ensures Mul(a, XTime(b)) == Mul(XTime(a), b)
  {
    hide *;
    MulLaws(a, b, b);
    MulCommutes(a, XTime(b));
    MulLaws(b, a, a);
    MulCommutes(a, b);
  }

  lemma SquareOfSum(a: Word, b: Word)
    ensures Mul(Xor(a, b), Xor(a, b)) == Xor(Mul(a, a), Mul(b, b))
  {
    hide *;
    var ab := Mul(a, b);
    MulLaws(a, b, Xor(a, b));
    MulLaws(a, a, b);
    MulLaws(b, a, b);
    MulCommutes(a, b);
    assert Mul(Xor(a, b), Xor(a, b)) == Xor(Xor(Mul(a, a), ab), Xor(ab, Mul(b, b)));
    XorLaws(Mul(a, a), ab, Xor(ab, Mul(b, b)));
    XorLaws(ab, ab, Mul(b, b));
    XorLaws(Mul(b, b), ab, ab);
  }

  lemma SplitSquare(a: Word)
    ensures Mul(a, a) == Xor(Bit(a), XTime(XTime(Mul(Half(a), Half(a)))))
  {
    hide *;
    var h := Half(a);
    TimesOne(a);
    SquareOfSum(Bit(a), XTime(h));
    BitSquared(a);
    MulLaws(h, XTime(h), h);
    XTimeMoves(h, h);
    MulLaws(h, h, h);
  }

  lemma {:induction false} SquareBitsIsSquare(a: Word, c: Word, n: nat)
    requires Fits(a, n)
    ensures SquareBits(a, c, n) == Mul(c, Mul(a, a))
    decreases n
  {
    if n == 0 {
      hide MulBits;
      MulOfZero(0, WIDTH);
      MulOfZero(c, WIDTH);
      MulCommutes(c, 0);
    } else {
      var h := Half(a);
      assert SquareBits(a, c, n) == Xor(Times(Bit(a), c), SquareBits(h, XTime(XTime(c)), n - 1));
      hide XTime, Xor, Half, Bit, Times, MulBits, Mul, SquareBits;
      SquareBitsIsSquare(h, XTime(XTime(c)), n - 1);
      SplitSquare(a);
      MulLaws(c, Bit(a), XTime(XTime(Mul(h, h))));
      TimesIsMul(a, c);
      XTimeMoves(c, XTime(Mul(h, h)));
      XTimeMoves(XTime(c), Mul(h, h));
    }
  }

  /** The square of all sixteen bits: bit `i` contributes x^(2i). */
  function Square(a: Word): Word {
    var h1 := Half(a);
    var h2 := Half(h1);
    var h3 := Half(h2);
    var h4 := Half(h3);
    var h5 := Half(h4);
    var h6 := Half(h5);
    var h7 := Half(h6);
    var h8 := Half(h7);
    var h9 := Half(h8);
    var h10 := Half(h9);
    var h11 := Half(h10);
    var h12 := Half(h11);
    var h13 := Half(h12);
    var h14 := Half(h13);
    var h15 := Half(h14);
    Xor(Times(Bit(a), 0x1), Xor(Times(Bit(h1), 0x4), Xor(Times(Bit(h2), 0x10), Xor(Times(Bit(h3), 0x40),
    Xor(Times(Bit(h4), 0x100), Xor(Times(Bit(h5), 0x400), Xor(Times(Bit(h6), 0x1000), Xor(Times(Bit(h7), 0x4000),
    Xor(Times(Bit(h8), 0x100B), Xor(Times(Bit(h9), 0x402C), Xor(Times(Bit(h10), 0x10BB), Xor(Times(Bit(h11), 0x42EC),
    Xor(Times(Bit(h12), 0x1BBB),
        Xor(Times(Bit(h13), 0x6EEC), Xor(Times(Bit(h14), 0xABBB), Xor(Times(Bit(h15), 0x8EFA), 0))))))))))))))))
  }

  lemma SquareStep(h: Word, c: Word, d: Word, n: nat)
    requires 0 < n && d == XTime(XTime(c))
    ensures SquareBits(h, c, n) == Xor(Times(Bit(h), c), SquareBits(Half(h), d, n - 1))
  {
  }

  lemma {:induction false} SquareUnrolls(a: Word)
    ensures SquareBits(a, 1, 16) == Square(a)
  {
    hide Xor, Times, Bit, Half, SquareBits;
    var h1 := Half(a);
    var h2 := Half(h1);
    var h3 := Half(h2);
    var h4 := Half(h3);
    var h5 := Half(h4);
    var h6 := Half(h5);
    var h7 := Half(h6);
    var h8 := Half(h7);
    var h9 := Half(h8);
    var h10 := Half(h9);
    var h11 := Half(h10);
    var h12 := Half(h11);
    var h13 := Half(h12);
    var h14 := Half(h13);
    var h15 := Half(h14);
    SquareStep(a, 0x1, 0x4, 16);
    SquareStep(h1, 0x4, 0x10, 15);
    SquareStep(h2, 0x10, 0x40, 14);
    SquareStep(h3, 0x40, 0x100, 13);
    SquareStep(h4, 0x100, 0x400, 12);
    SquareStep(h5, 0x400, 0x1000, 11);
    SquareStep(h6, 0x1000, 0x4000, 10);
    SquareStep(h7, 0x4000, 0x100B, 9);
    SquareStep(h8, 0x100B, 0x402C, 8);
    SquareStep(h9, 0x402C, 0x10BB, 7);
    SquareStep(h10, 0x10BB, 0x42EC, 6);
    SquareStep(h11, 0x42EC, 0x1BBB, 5);
    SquareStep(h12, 0x1BBB, 0x6EEC, 4);
    SquareStep(h13, 0x6EEC, 0xABBB, 3);
    SquareStep(h14, 0xABBB, 0x8EFA, 2);
    SquareStep(h15, 0x8EFA, 0x1BFE, 1);
    SquareBitsEnds(Half(h15));
  }

  lemma {:induction false} SquareBitsEnds(a: Word)
    ensures SquareBits(a, 0x1BFE, 0) == 0
  {
  }

  lemma SquareIsMul(a: Word)
    ensures Square(a) == Mul(a, a)
  {
    hide Square, MulBits, SquareBits, Fits;
    AllFit(a);
    SquareBitsIsSquare(a, 1, WIDTH);
    SquareUnrolls(a);
    OneTimes(Mul(a, a));
  }

  lemma FixedHasNoHighBits(a: Word)
    requires Square(a) == a
    ensures a & 0xFF00 == 0
  {
  }

  /** Only zero and one are their own squares. */
  lemma SquareFixes(a: Word)
    requires Square(a) == a
    ensures a == 0 || a == 1
  {
    FixedHasNoHighBits(a);
  }

  lemma SquareOfProduct(a: Word, b: Word)
    ensures Mul(Mul(a, b), Mul(a, b)) == Mul(Mul(a, a), Mul(b, b))
  {
    hide *;
    MulAssoc(Mul(a, b), a, b);
    MulCommutes(a, b);
    MulAssoc(b, a, a);
    MulCommutes(b, Mul(a, a));
    MulAssoc(Mul(a, a), b, b);
  }

  /** Squaring, `n` times. */
  function Frobenius(a: Word, n: nat): Word {
    if n == 0 then a else Mul(Frobenius(a, n - 1), Frobenius(a, n - 1))
  }

  lemma {:induction false} FrobeniusIsAutomorphism(a: Word, b: Word, n: nat)
    ensures Frobenius(Mul(a, b), n) == Mul(Frobenius(a, n), Frobenius(b, n))
    ensures Frobenius(Xor(a, b), n) == Xor(Frobenius(a, n), Frobenius(b, n))
  {
    hide Mul, Xor;
    if n > 0 {
      FrobeniusIsAutomorphism(a, b, n - 1);
      SquareOfProduct(Frobenius(a, n - 1), Frobenius(b, n - 1));
      SquareOfSum(Frobenius(a, n - 1), Frobenius(b, n - 1));
    }
  }

  lemma {:induction false} FrobeniusShifts(a: Word, n: nat)
    ensures Frobenius(Mul(a, a), n) == Frobenius(a, n + 1)
  {
    hide Mul;
    if n > 0 {
      FrobeniusShifts(a, n - 1);
    }
  }

  lemma {:induction false} FrobeniusOfBit(a: Word, n: nat)
    ensures Frobenius(Bit(a), n) == Bit(a)
  {
    hide Mul, Bit;
    if n > 0 {
      FrobeniusOfBit(a, n - 1);
      BitSquared(a);
    }
  }

  lemma SquareValues()
    ensures Square(0x2) == 0x4 && Square(0x4) == 0x10 && Square(0x10) == 0x100 && Square(0x100) == 0x100B
  {
  }

  lemma MoreSquareValues()
    ensures Square(0x100B) == 0x1BFE && Square(0x1BFE) == 0x5C24 && Square(0x5C24) == 0xE647 && Square(0xE647) == 0xB2F
  {
  }

  lemma LaterSquareValues()
    ensures Square(0xB2F) == 0x169E && Square(0x169E) == 0xA78 && Square(0xA78) == 0x1780 && Square(0x1780) == 0x1B27
  {
  }

  lemma LastSquareValues()
    ensures Square(0x1B27) == 0xD65 && Square(0xD65) == 0x564D && Square(0x564D) == 0xF0C6 && Square(0xF0C6) == 0x2
  {
  }

  lemma NextSquares(a: Word, n: nat, b: Word, c: Word, d: Word, e: Word, g: Word)
    requires Frobenius(a, n) == b && Square(b) == c && Square(c) == d && Square(d) == e && Square(e) == g
    ensures Frobenius(a, n + 4) == g
  {
    hide Square, Mul;
    SquareIsMul(b);
    SquareIsMul(c);
    SquareIsMul(d);
    SquareIsMul(e);
    assert Frobenius(a, n + 2) == d;
  }

  /** Squaring sixteen times leads from x back to x. */
  lemma FrobeniusOfX()
    ensures Frobenius(2, 16) == 2
  {
    hide *;
    FrobeniusStart(2);
    SquareValues();
    MoreSquareValues();
    LaterSquareValues();
    LastSquareValues();
    NextSquares(2, 0, 0x2, 0x4, 0x10, 0x100, 0x100B);
    NextSquares(2, 4, 0x100B, 0x1BFE, 0x5C24, 0xE647, 0xB2F);
    NextSquares(2, 8, 0xB2F, 0x169E, 0xA78, 0x1780, 0x1B27);
    NextSquares(2, 12, 0x1B27, 0xD65, 0x564D, 0xF0C6, 0x2);
  }

  lemma {:induction false} FrobeniusStart(a: Word)
    ensures Frobenius(a, 0) == a
  {
  }

  lemma XTimeIsMul(a: Word)
    ensures XTime(a) == Mul(a, 2)
  {
    assert XTime(1) == 2;
    hide *;
    MulLaws(1, a, a);
    OneTimes(a);
    MulCommutes(a, 2);
  }

  /** Squaring sixteen times is the identity. */
  lemma {:induction false} FrobeniusReturns(a: Word, n: nat)
    requires Fits(a, n)
    ensures Frobenius(a, 16) == a
    decreases n
  {
    if n == 0 {
      assert Bit(0) == 0;
      hide Mul, Frobenius, Bit;
      FrobeniusOfBit(0, 16);
    } else {
      var h := Half(a);
      assert Fits(h, n - 1);
      hide *;
      FrobeniusReturns(h, n - 1);
      TimesOne(a);
      XTimeIsMul(h);
      FrobeniusIsAutomorphism(Bit(a), XTime(h), 16);
      FrobeniusIsAutomorphism(h, 2, 16);
      FrobeniusOfX();
      FrobeniusOfBit(a, 16);
    }
  }

  /** The product of the first `n` iterated squares. */
  function Norm(a: Word, n: nat): Word {
    if n == 0 then 1 else Mul(Norm(a, n - 1), Frobenius(a, n - 1))
  }

  lemma {:induction false} NormTimes(a: Word, n: nat)
    ensures Mul(a, Norm(a, n)) == Frobenius(a, n)
  {
    hide Mul;
    if n == 0 {
      OneTimes(a);
      MulCommutes(a, 1);
    } else {
      NormTimes(a, n - 1);
      MulAssoc(a, Norm(a, n - 1), Frobenius(a, n - 1));
    }
  }

  lemma {:induction false} NormShifts(a: Word, n: nat)
    ensures Norm(a, n + 1) == Mul(a, Norm(Mul(a, a), n))
  {
    hide Mul, Frobenius;
    if n == 0 {
      FrobeniusStart(a);
      OneTimes(a);
      MulCommutes(a, 1);
    } else {
      NormShifts(a, n - 1);
      FrobeniusShifts(a, n - 1);
      MulAssoc(a, Norm(Mul(a, a), n - 1), Frobenius(a, n));
    }
  }

  lemma {:induction false} NormSquared(a: Word, n: nat)
    ensures Mul(Norm(a, n), Norm(a, n)) == Norm(Mul(a, a), n)
  {
    hide Mul;
    if n == 0 {
      OneTimes(1);
    } else {
      NormSquared(a, n - 1);
      SquareOfProduct(Norm(a, n - 1), Frobenius(a, n - 1));
      FrobeniusShifts(a, n - 1);
    }
  }

  function Inverse(a: Word): Word {
    Norm(Mul(a, a), 15)
  }

  /** The norm over the two-element field is its own square, and it is not zero. */
  lemma InverseIsInverse(a: Word)
    requires a != 0
    ensures Mul(a, Inverse(a)) == 1
  {
    hide MulBits, Mul, Norm, Frobenius, Fits, Square;
    var n := Norm(a, 16);
    AllFit(a);
    FrobeniusReturns(a, WIDTH);
    NormShifts(a, 15);
    NormSquared(a, 16);
    NormUnfolds(Mul(a, a), 16);
    FrobeniusShifts(a, 15);
    MulCommutes(a, Norm(Mul(a, a), 15));
    SquareIsMul(n);
    SquareFixes(n);
    NormTimes(a, 16);
    MulOfZeroRight(a);
  }

  lemma NormUnfolds(a: Word, n: nat)
    requires 0 < n
    ensures Norm(a, n) == Mul(Norm(a, n - 1), Frobenius(a, n - 1))
  {
  }

  lemma MulOfZeroRight(a: Word)
    ensures Mul(a, 0) == 0
  {
    hide MulBits;
    MulOfZero(a, WIDTH);
    MulCommutes(a, 0);
  }

  /** The field the level 3 code computes in. */
  function Gf(): Field {
    Field((a, b) => Xor(a, b), (a, b) => Mul(a, b), a => Inverse(a))
  }

  lemma GfIsField()
    ensures Gf().IsField()
  {
    hide Xor, Mul, Inverse;
    var f := Gf();
    forall a, b ensures f.AddCommutesAt(a, b) {
      XorLaws(a, b, a);
    }
    forall a, b, c ensures f.AddAssociatesAt(a, b, c) {
      XorLaws(a, b, c);
    }
    forall a ensures f.CharacteristicTwoAt(a) {
      XorLaws(a, a, a);
    }
    forall a, b ensures f.CommutesAt(a, b) {
      MulCommutes(a, b);
    }
    forall a, b, c ensures f.AssociatesAt(a, b, c) {
      MulAssoc(a, b, c);
    }
    forall a, b, c ensures f.DistributesAt(a, b, c) {
      MulLaws(b, b, a);
      MulLaws(a, b, c);
    }
    forall a ensures f.UnitAt(a) {
      OneTimes(a);
    }
    forall a ensures f.InverseAt(a) {
      if a != 0 {
        InverseIsInverse(a);
      }
    }
  }
}
