/** Words bit by bit; the operators are named, so that proofs can hide them. */
module WordBits {
  import opened Md5Functions
  import opened Md5Rounds

  function Half(w: Word): Word {
    w >> 1
  }

  function Twice(w: Word): Word {
    w << 1
  }

  function LowBit(w: Word): Word {
    w & 1
  }

  function And(x: Word, y: Word): Word {
    x & y
  }

  function Or(x: Word, y: Word): Word {
    x | y
  }

  function Xor(x: Word, y: Word): Word {
    x ^ y
  }

  lemma HalfAnd(x: Word, y: Word)
    ensures Half(And(x, y)) == And(Half(x), Half(y))
    ensures LowBit(And(x, y)) == if LowBit(x) == 1 && LowBit(y) == 1 then 1 else 0
  {
  }

  lemma HalfOr(x: Word, y: Word)
    ensures Half(Or(x, y)) == Or(Half(x), Half(y))
    ensures LowBit(Or(x, y)) == if LowBit(x) == 1 || LowBit(y) == 1 then 1 else 0
  {
  }

  lemma HalfXor(x: Word, y: Word)
    ensures Half(Xor(x, y)) == Xor(Half(x), Half(y))
    ensures LowBit(Xor(x, y)) == if (LowBit(x) == 1) != (LowBit(y) == 1) then 1 else 0
  {
  }

  lemma HalfTwice(w: Word)
    ensures And(Half(Twice(w)), 0x7fff_ffff) == And(w, 0x7fff_ffff) && LowBit(Twice(w)) == 0
    ensures Half(Twice(w)) == And(w, 0x7fff_ffff)
  {
  }

  lemma HalfFits(w: Word)
    ensures And(Half(w), !0x7fff_ffff) == 0
  {
  }

  lemma FitsHalf(w: Word, k: Word)
    requires And(w, !k) == 0
    ensures And(Half(w), !Half(k)) == 0
  {
  }

  lemma Shorter(w: Word, k: Word)
    ensures LowBit(w) == 0 && And(Half(w), Half(k)) == 0 ==> And(w, k) == 0
  {
  }

  lemma AndTwice(x: Word, y: Word, k: Word)
    ensures And(And(x, y), k) == And(And(x, k), y)
  {
  }

  lemma OnlyZero(w: Word)
    requires And(w, 0xffff_ffff) == 0
    ensures w == 0
  {
  }

  // ----- Sums, bit by bit

  function AndNot(x: Word, y: Word): Word {
    x & !y
  }

  lemma AddIs(x: Word, y: Word)
    ensures Add(x, y) == x + y
  {
  }

  lemma AddZero(x: Word)
    ensures Add(x, 0) == x
  {
  }

  lemma Regrouped(p: Word, q: Word, r: Word)
    ensures Add(p + q, r + q) == Add(p + r, q + q)
  {
  }

  lemma Regroup(p: Word, q: Word, r: Word)
    ensures Add(Add(p, q), Add(r, q)) == Add(Add(p, r), Add(q, q))
  {
    hide Add;
    AddIs(p, q);
    AddIs(r, q);
    AddIs(p, r);
    AddIs(q, q);
    Regrouped(p, q, r);
  }

  lemma Parts(x: Word, y: Word)
    ensures x == Add(AndNot(x, y), And(x, y)) && And(x, y) == And(y, x)
  {
  }

  lemma XorParts(x: Word, y: Word)
    ensures Xor(x, y) == Add(AndNot(x, y), AndNot(y, x))
  {
  }

  lemma TwiceIsSum(x: Word)
    ensures Twice(x) == Add(x, x)
  {
  }

  /** A sum is the bits without carries and the carries. */
  lemma AddCarries(x: Word, y: Word)
    ensures Add(x, y) == Add(Xor(x, y), Twice(And(x, y)))
  {
    hide Add, And, AndNot, Xor, Twice;
    Parts(x, y);
    Parts(y, x);
    XorParts(x, y);
    TwiceIsSum(And(x, y));
    Regroup(AndNot(x, y), And(x, y), AndNot(y, x));
  }

  // ----- Shifts by each number of bits from 1 to 31

  function Shl(w: Word, s: nat): Word
    requires s < 32
  {
    w << s
  }

  function Shr(w: Word, s: nat): Word
    requires s < 32
  {
    w >> s
  }

  lemma ShlIs(w: Word)
    ensures Shl(w, 0) == w << 0 && Shl(w, 1) == w << 1 && Shl(w, 2) == w << 2 && Shl(w, 3) == w << 3
    ensures Shl(w, 4) == w << 4 && Shl(w, 5) == w << 5 && Shl(w, 6) == w << 6 && Shl(w, 7) == w << 7
    ensures Shl(w, 8) == w << 8 && Shl(w, 9) == w << 9 && Shl(w, 10) == w << 10 && Shl(w, 11) == w << 11
    ensures Shl(w, 12) == w << 12 && Shl(w, 13) == w << 13 && Shl(w, 14) == w << 14 && Shl(w, 15) == w << 15
    ensures Shl(w, 16) == w << 16 && Shl(w, 17) == w << 17 && Shl(w, 18) == w << 18 && Shl(w, 19) == w << 19
    ensures Shl(w, 20) == w << 20 && Shl(w, 21) == w << 21 && Shl(w, 22) == w << 22 && Shl(w, 23) == w << 23
    ensures Shl(w, 24) == w << 24 && Shl(w, 25) == w << 25 && Shl(w, 26) == w << 26 && Shl(w, 27) == w << 27
    ensures Shl(w, 28) == w << 28 && Shl(w, 29) == w << 29 && Shl(w, 30) == w << 30 && Shl(w, 31) == w << 31
  {
  }

  lemma ShrIs(w: Word)
    ensures Shr(w, 0) == w >> 0 && Shr(w, 1) == w >> 1 && Shr(w, 2) == w >> 2 && Shr(w, 3) == w >> 3
    ensures Shr(w, 4) == w >> 4 && Shr(w, 5) == w >> 5 && Shr(w, 6) == w >> 6 && Shr(w, 7) == w >> 7
    ensures Shr(w, 8) == w >> 8 && Shr(w, 9) == w >> 9 && Shr(w, 10) == w >> 10 && Shr(w, 11) == w >> 11
    ensures Shr(w, 12) == w >> 12 && Shr(w, 13) == w >> 13 && Shr(w, 14) == w >> 14 && Shr(w, 15) == w >> 15
    ensures Shr(w, 16) == w >> 16 && Shr(w, 17) == w >> 17 && Shr(w, 18) == w >> 18 && Shr(w, 19) == w >> 19
    ensures Shr(w, 20) == w >> 20 && Shr(w, 21) == w >> 21 && Shr(w, 22) == w >> 22 && Shr(w, 23) == w >> 23
    ensures Shr(w, 24) == w >> 24 && Shr(w, 25) == w >> 25 && Shr(w, 26) == w >> 26 && Shr(w, 27) == w >> 27
    ensures Shr(w, 28) == w >> 28 && Shr(w, 29) == w >> 29 && Shr(w, 30) == w >> 30 && Shr(w, 31) == w >> 31
  {
  }

  lemma Doubles(w: Word)
    ensures Twice(w << 0) == w << 1 && Twice(w << 1) == w << 2 && Twice(w << 2) == w << 3
    ensures Twice(w << 3) == w << 4 && Twice(w << 4) == w << 5 && Twice(w << 5) == w << 6
    ensures Twice(w << 6) == w << 7 && Twice(w << 7) == w << 8 && Twice(w << 8) == w << 9
    ensures Twice(w << 9) == w << 10 && Twice(w << 10) == w << 11 && Twice(w << 11) == w << 12
    ensures Twice(w << 12) == w << 13 && Twice(w << 13) == w << 14 && Twice(w << 14) == w << 15
    ensures Twice(w << 15) == w << 16 && Twice(w << 16) == w << 17 && Twice(w << 17) == w << 18
    ensures Twice(w << 18) == w << 19 && Twice(w << 19) == w << 20 && Twice(w << 20) == w << 21
    ensures Twice(w << 21) == w << 22 && Twice(w << 22) == w << 23 && Twice(w << 23) == w << 24
    ensures Twice(w << 24) == w << 25 && Twice(w << 25) == w << 26 && Twice(w << 26) == w << 27
    ensures Twice(w << 27) == w << 28 && Twice(w << 28) == w << 29 && Twice(w << 29) == w << 30
    ensures Twice(w << 30) == w << 31
  {
  }

  lemma Halves(w: Word)
    ensures Half(w >> 0) == w >> 1 && Half(w >> 1) == w >> 2 && Half(w >> 2) == w >> 3
    ensures Half(w >> 3) == w >> 4 && Half(w >> 4) == w >> 5 && Half(w >> 5) == w >> 6
    ensures Half(w >> 6) == w >> 7 && Half(w >> 7) == w >> 8 && Half(w >> 8) == w >> 9
    ensures Half(w >> 9) == w >> 10 && Half(w >> 10) == w >> 11 && Half(w >> 11) == w >> 12
    ensures Half(w >> 12) == w >> 13 && Half(w >> 13) == w >> 14 && Half(w >> 14) == w >> 15
    ensures Half(w >> 15) == w >> 16 && Half(w >> 16) == w >> 17 && Half(w >> 17) == w >> 18
    ensures Half(w >> 18) == w >> 19 && Half(w >> 19) == w >> 20 && Half(w >> 20) == w >> 21
    ensures Half(w >> 21) == w >> 22 && Half(w >> 22) == w >> 23 && Half(w >> 23) == w >> 24
    ensures Half(w >> 24) == w >> 25 && Half(w >> 25) == w >> 26 && Half(w >> 26) == w >> 27
    ensures Half(w >> 27) == w >> 28 && Half(w >> 28) == w >> 29 && Half(w >> 29) == w >> 30
    ensures Half(w >> 30) == w >> 31
  {
  }

  lemma AllApart(w: Word)
    ensures And(w << 1, w >> 31) == 0 && And(w << 2, w >> 30) == 0 && And(w << 3, w >> 29) == 0
    ensures And(w << 4, w >> 28) == 0 && And(w << 5, w >> 27) == 0 && And(w << 6, w >> 26) == 0
    ensures And(w << 7, w >> 25) == 0 && And(w << 8, w >> 24) == 0 && And(w << 9, w >> 23) == 0
    ensures And(w << 10, w >> 22) == 0 && And(w << 11, w >> 21) == 0 && And(w << 12, w >> 20) == 0
    ensures And(w << 13, w >> 19) == 0 && And(w << 14, w >> 18) == 0 && And(w << 15, w >> 17) == 0
    ensures And(w << 16, w >> 16) == 0 && And(w << 17, w >> 15) == 0 && And(w << 18, w >> 14) == 0
    ensures And(w << 19, w >> 13) == 0 && And(w << 20, w >> 12) == 0 && And(w << 21, w >> 11) == 0
    ensures And(w << 22, w >> 10) == 0 && And(w << 23, w >> 9) == 0 && And(w << 24, w >> 8) == 0
    ensures And(w << 25, w >> 7) == 0 && And(w << 26, w >> 6) == 0 && And(w << 27, w >> 5) == 0
    ensures And(w << 28, w >> 4) == 0 && And(w << 29, w >> 3) == 0 && And(w << 30, w >> 2) == 0
    ensures And(w << 31, w >> 1) == 0
  {
  }

  lemma ShlOnceAt(w: Word)
    ensures Shl(w, 1) == Twice(Shl(w, 0)) && Shl(w, 2) == Twice(Shl(w, 1))
    ensures Shl(w, 3) == Twice(Shl(w, 2)) && Shl(w, 4) == Twice(Shl(w, 3))
    ensures Shl(w, 5) == Twice(Shl(w, 4)) && Shl(w, 6) == Twice(Shl(w, 5))
    ensures Shl(w, 7) == Twice(Shl(w, 6)) && Shl(w, 8) == Twice(Shl(w, 7))
    ensures Shl(w, 9) == Twice(Shl(w, 8)) && Shl(w, 10) == Twice(Shl(w, 9))
    ensures Shl(w, 11) == Twice(Shl(w, 10)) && Shl(w, 12) == Twice(Shl(w, 11))
    ensures Shl(w, 13) == Twice(Shl(w, 12)) && Shl(w, 14) == Twice(Shl(w, 13))
    ensures Shl(w, 15) == Twice(Shl(w, 14)) && Shl(w, 16) == Twice(Shl(w, 15))
    ensures Shl(w, 17) == Twice(Shl(w, 16)) && Shl(w, 18) == Twice(Shl(w, 17))
    ensures Shl(w, 19) == Twice(Shl(w, 18)) && Shl(w, 20) == Twice(Shl(w, 19))
    ensures Shl(w, 21) == Twice(Shl(w, 20)) && Shl(w, 22) == Twice(Shl(w, 21))
    ensures Shl(w, 23) == Twice(Shl(w, 22)) && Shl(w, 24) == Twice(Shl(w, 23))
    ensures Shl(w, 25) == Twice(Shl(w, 24)) && Shl(w, 26) == Twice(Shl(w, 25))
    ensures Shl(w, 27) == Twice(Shl(w, 26)) && Shl(w, 28) == Twice(Shl(w, 27))
    ensures Shl(w, 29) == Twice(Shl(w, 28)) && Shl(w, 30) == Twice(Shl(w, 29))
    ensures Shl(w, 31) == Twice(Shl(w, 30))
  {
    ShlIs(w);
    Doubles(w);
    hide Shl, Twice;
  }

  lemma ShrOnceAt(w: Word)
    ensures Shr(w, 1) == Half(Shr(w, 0)) && Shr(w, 2) == Half(Shr(w, 1))
    ensures Shr(w, 3) == Half(Shr(w, 2)) && Shr(w, 4) == Half(Shr(w, 3))
    ensures Shr(w, 5) == Half(Shr(w, 4)) && Shr(w, 6) == Half(Shr(w, 5))
    ensures Shr(w, 7) == Half(Shr(w, 6)) && Shr(w, 8) == Half(Shr(w, 7))
    ensures Shr(w, 9) == Half(Shr(w, 8)) && Shr(w, 10) == Half(Shr(w, 9))
    ensures Shr(w, 11) == Half(Shr(w, 10)) && Shr(w, 12) == Half(Shr(w, 11))
    ensures Shr(w, 13) == Half(Shr(w, 12)) && Shr(w, 14) == Half(Shr(w, 13))
    ensures Shr(w, 15) == Half(Shr(w, 14)) && Shr(w, 16) == Half(Shr(w, 15))
    ensures Shr(w, 17) == Half(Shr(w, 16)) && Shr(w, 18) == Half(Shr(w, 17))
    ensures Shr(w, 19) == Half(Shr(w, 18)) && Shr(w, 20) == Half(Shr(w, 19))
    ensures Shr(w, 21) == Half(Shr(w, 20)) && Shr(w, 22) == Half(Shr(w, 21))
    ensures Shr(w, 23) == Half(Shr(w, 22)) && Shr(w, 24) == Half(Shr(w, 23))
    ensures Shr(w, 25) == Half(Shr(w, 24)) && Shr(w, 26) == Half(Shr(w, 25))
    ensures Shr(w, 27) == Half(Shr(w, 26)) && Shr(w, 28) == Half(Shr(w, 27))
    ensures Shr(w, 29) == Half(Shr(w, 28)) && Shr(w, 30) == Half(Shr(w, 29))
    ensures Shr(w, 31) == Half(Shr(w, 30))
  {
    ShrIs(w);
    Halves(w);
    hide Shr, Half;
  }

  lemma ApartAt(w: Word)
    ensures And(Shl(w, 1), Shr(w, 31)) == 0 && And(Shl(w, 2), Shr(w, 30)) == 0
    ensures And(Shl(w, 3), Shr(w, 29)) == 0 && And(Shl(w, 4), Shr(w, 28)) == 0
    ensures And(Shl(w, 5), Shr(w, 27)) == 0 && And(Shl(w, 6), Shr(w, 26)) == 0
    ensures And(Shl(w, 7), Shr(w, 25)) == 0 && And(Shl(w, 8), Shr(w, 24)) == 0
    ensures And(Shl(w, 9), Shr(w, 23)) == 0 && And(Shl(w, 10), Shr(w, 22)) == 0
    ensures And(Shl(w, 11), Shr(w, 21)) == 0 && And(Shl(w, 12), Shr(w, 20)) == 0
    ensures And(Shl(w, 13), Shr(w, 19)) == 0 && And(Shl(w, 14), Shr(w, 18)) == 0
    ensures And(Shl(w, 15), Shr(w, 17)) == 0 && And(Shl(w, 16), Shr(w, 16)) == 0
    ensures And(Shl(w, 17), Shr(w, 15)) == 0 && And(Shl(w, 18), Shr(w, 14)) == 0
    ensures And(Shl(w, 19), Shr(w, 13)) == 0 && And(Shl(w, 20), Shr(w, 12)) == 0
    ensures And(Shl(w, 21), Shr(w, 11)) == 0 && And(Shl(w, 22), Shr(w, 10)) == 0
    ensures And(Shl(w, 23), Shr(w, 9)) == 0 && And(Shl(w, 24), Shr(w, 8)) == 0
    ensures And(Shl(w, 25), Shr(w, 7)) == 0 && And(Shl(w, 26), Shr(w, 6)) == 0
    ensures And(Shl(w, 27), Shr(w, 5)) == 0 && And(Shl(w, 28), Shr(w, 4)) == 0
    ensures And(Shl(w, 29), Shr(w, 3)) == 0 && And(Shl(w, 30), Shr(w, 2)) == 0
    ensures And(Shl(w, 31), Shr(w, 1)) == 0
  {
    ShlIs(w);
    ShrIs(w);
    AllApart(w);
    hide Shl, Shr, And;
  }

  lemma ShlOnce(w: Word, s: nat)
    requires 0 < s < 32
    ensures Shl(w, s) == Twice(Shl(w, s - 1))
  {
    hide Shl, Twice;
    match s
    case 1 => ShlOnceAt(w); case 2 => ShlOnceAt(w); case 3 => ShlOnceAt(w); case 4 => ShlOnceAt(w);
    case 5 => ShlOnceAt(w); case 6 => ShlOnceAt(w); case 7 => ShlOnceAt(w); case 8 => ShlOnceAt(w);
    case 9 => ShlOnceAt(w); case 10 => ShlOnceAt(w); case 11 => ShlOnceAt(w); case 12 => ShlOnceAt(w);
    case 13 => ShlOnceAt(w); case 14 => ShlOnceAt(w); case 15 => ShlOnceAt(w); case 16 => ShlOnceAt(w);
    case 17 => ShlOnceAt(w); case 18 => ShlOnceAt(w); case 19 => ShlOnceAt(w); case 20 => ShlOnceAt(w);
    case 21 => ShlOnceAt(w); case 22 => ShlOnceAt(w); case 23 => ShlOnceAt(w); case 24 => ShlOnceAt(w);
    case 25 => ShlOnceAt(w); case 26 => ShlOnceAt(w); case 27 => ShlOnceAt(w); case 28 => ShlOnceAt(w);
    case 29 => ShlOnceAt(w); case 30 => ShlOnceAt(w); case _ => ShlOnceAt(w);
  }

  lemma ShrOnce(w: Word, s: nat)
    requires 0 < s < 32
    ensures Shr(w, s) == Half(Shr(w, s - 1))
  {
    hide Shr, Half;
    match s
    case 1 => ShrOnceAt(w); case 2 => ShrOnceAt(w); case 3 => ShrOnceAt(w); case 4 => ShrOnceAt(w);
    case 5 => ShrOnceAt(w); case 6 => ShrOnceAt(w); case 7 => ShrOnceAt(w); case 8 => ShrOnceAt(w);
    case 9 => ShrOnceAt(w); case 10 => ShrOnceAt(w); case 11 => ShrOnceAt(w); case 12 => ShrOnceAt(w);
    case 13 => ShrOnceAt(w); case 14 => ShrOnceAt(w); case 15 => ShrOnceAt(w); case 16 => ShrOnceAt(w);
    case 17 => ShrOnceAt(w); case 18 => ShrOnceAt(w); case 19 => ShrOnceAt(w); case 20 => ShrOnceAt(w);
    case 21 => ShrOnceAt(w); case 22 => ShrOnceAt(w); case 23 => ShrOnceAt(w); case 24 => ShrOnceAt(w);
    case 25 => ShrOnceAt(w); case 26 => ShrOnceAt(w); case 27 => ShrOnceAt(w); case 28 => ShrOnceAt(w);
    case 29 => ShrOnceAt(w); case 30 => ShrOnceAt(w); case _ => ShrOnceAt(w);
  }

  lemma Apart(w: Word, s: nat)
    requires 0 < s < 32
    ensures And(Shl(w, s), Shr(w, 32 - s)) == 0
  {
    hide Shl, Shr, And;
    match s
    case 1 => ApartAt(w); case 2 => ApartAt(w); case 3 => ApartAt(w); case 4 => ApartAt(w);
    case 5 => ApartAt(w); case 6 => ApartAt(w); case 7 => ApartAt(w); case 8 => ApartAt(w);
    case 9 => ApartAt(w); case 10 => ApartAt(w); case 11 => ApartAt(w); case 12 => ApartAt(w);
    case 13 => ApartAt(w); case 14 => ApartAt(w); case 15 => ApartAt(w); case 16 => ApartAt(w);
    case 17 => ApartAt(w); case 18 => ApartAt(w); case 19 => ApartAt(w); case 20 => ApartAt(w);
    case 21 => ApartAt(w); case 22 => ApartAt(w); case 23 => ApartAt(w); case 24 => ApartAt(w);
    case 25 => ApartAt(w); case 26 => ApartAt(w); case 27 => ApartAt(w); case 28 => ApartAt(w);
    case 29 => ApartAt(w); case 30 => ApartAt(w); case _ => ApartAt(w);
  }

  lemma NoShift(w: Word)
    ensures Shl(w, 0) == w && Shr(w, 0) == w
  {
  }

  lemma RotatedIsOr(w: Word, s: nat)
    requires 0 < s < 32
    ensures Rotated(w, s) == Or(Shl(w, s), Shr(w, 32 - s))
  {
  }
}
