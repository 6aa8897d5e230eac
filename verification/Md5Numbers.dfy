/** The arithmetic of MD5 on numbers, as section 2 of RFC 1321 has it: sums modulo 2^32 and circular shifts. */
module Md5Numbers {
  import opened Arithmetic
  import opened FileBytes
  import opened Md5Functions
  import opened Md5Rounds
  import opened WordBits

  // ----- The number that a word stands for

  function Bit(w: Word): nat {
    if LowBit(w) == 1 then 1 else 0
  }

  /** The number in the low `n` bits. */
  function Low(w: Word, n: nat): nat
    decreases n
  {
    if n == 0 then 0 else Bit(w) + 2 * Low(Half(w), n - 1)
  }

  function Value(w: Word): nat {
    Low(w, 32)
  }

  function Power2(n: nat): (r: nat)
    ensures 0 < r
  {
    if n == 0 then 1 else 2 * Power2(n - 1)
  }

  const WORD: nat := 0x1_0000_0000

  lemma PowerOfWord()
    ensures Power2(31) == 0x8000_0000 && Power2(32) == WORD
  {
    assert Power2(8) == 0x100;
    assert Power2(16) == 0x1_0000;
    assert Power2(24) == 0x100_0000;
    assert Power2(28) == 0x1000_0000;
  }

  /** The mask of the low `n` bits. */
  predicate Ones(k: Word, n: nat)
    decreases n
  {
    if n == 0 then k == 0 else LowBit(k) == 1 && Ones(Half(k), n - 1)
  }

  lemma AllOnes()
    ensures Ones(0x7fff_ffff, 31) && Ones(0xffff_ffff, 32)
  {
    assert Ones(0x1, 1) && Ones(0x3, 2) && Ones(0x7, 3) && Ones(0xf, 4);
    assert Ones(0x1f, 5) && Ones(0x3f, 6) && Ones(0x7f, 7) && Ones(0xff, 8);
    assert Ones(0x1ff, 9) && Ones(0x3ff, 10) && Ones(0x7ff, 11) && Ones(0xfff, 12);
    assert Ones(0x1fff, 13) && Ones(0x3fff, 14) && Ones(0x7fff, 15) && Ones(0xffff, 16);
    assert Ones(0x1_ffff, 17) && Ones(0x3_ffff, 18) && Ones(0x7_ffff, 19) && Ones(0xf_ffff, 20);
    assert Ones(0x1f_ffff, 21) && Ones(0x3f_ffff, 22) && Ones(0x7f_ffff, 23) && Ones(0xff_ffff, 24);
    assert Ones(0x1ff_ffff, 25) && Ones(0x3ff_ffff, 26) && Ones(0x7ff_ffff, 27) && Ones(0xfff_ffff, 28);
    assert Ones(0x1fff_ffff, 29) && Ones(0x3fff_ffff, 30) && Ones(0x7fff_ffff, 31);
  }

  lemma {:induction false} LowBound(w: Word, n: nat)
    ensures Low(w, n) < Power2(n)
    decreases n
  {
    if n > 0 {
      LowBound(Half(w), n - 1);
    }
  }

  lemma {:induction false} ValueBound(w: Word)
    ensures Value(w) < WORD
  {
    hide Low, Power2;
    PowerOfWord();
    LowBound(w, 32);
  }

  lemma {:induction false} LowZero(n: nat)
    ensures Low(0, n) == 0
    decreases n
  {
    if n > 0 {
      assert Half(0) == 0 && LowBit(0) == 0;
      LowZero(n - 1);
    }
  }

  /** A mask leaves its low bits. */
  lemma {:induction false} LowMasked(w: Word, n: nat, k: Word)
    requires Ones(k, n)
    ensures Low(And(w, k), n) == Low(w, n)
    decreases n
  {
    hide Half, LowBit, And;
    if n > 0 {
      HalfAnd(w, k);
      LowMasked(Half(w), n - 1, Half(k));
    }
  }

  /** One more bit adds its power of two. */
  lemma {:induction false} LowExtends(w: Word, n: nat) returns (bit: bool)
    ensures Low(w, n + 1) == Low(w, n) + if bit then Power2(n) else 0
    decreases n
  {
    if n == 0 {
      bit := Bit(w) == 1;
      assert Low(w, 1) == Bit(w) + 2 * Low(Half(w), 0);
    } else {
      bit := LowExtends(Half(w), n - 1);
    }
  }

  /** A word that fits `n` bits has no further one. */
  lemma {:induction false} LowFits(w: Word, n: nat, k: Word)
    requires Ones(k, n) && And(w, !k) == 0
    ensures Low(w, n + 1) == Low(w, n)
    decreases n
  {
    if n == 0 {
      OnlyBit(w, k);
    } else {
      FitsHalf(w, k);
      hide Half, LowBit, And;
      LowFits(Half(w), n - 1, Half(k));
    }
  }

  lemma {:induction false} OnlyBit(w: Word, k: Word)
    requires k == 0 && And(w, !k) == 0
    ensures Low(w, 1) == 0
  {
    assert Bit(w) == 0;
    assert Low(Half(w), 0) == 0;
  }

  // ----- Halves and doubles

  lemma Unfold(w: Word, n: nat)
    requires 0 < n
    ensures Low(w, n) == Bit(w) + 2 * Low(Half(w), n - 1)
  {
  }

  lemma {:induction false} HalfValue(w: Word)
    ensures Value(w) == Bit(w) + 2 * Value(Half(w)) && Bit(w) <= 1
  {
    AllOnes();
    HalfFits(w);
    Unfold(w, 32);
    hide Low, Half, And;
    LowFits(Half(w), 31, 0x7fff_ffff);
  }

  lemma {:induction false} TwiceValue(w: Word)
    ensures Value(Twice(w)) == 2 * Value(w) % WORD
  {
    TwiceLow(w);
    PowerOfWord();
    hide Low, Twice, Power2;
    var bit := LowExtends(w, 31);
    LowBound(w, 31);
    TopBitLost(Low(w, 31), bit);
    hide WORD;
  }

  lemma {:induction false} TwiceLow(w: Word)
    ensures Low(Twice(w), 32) == 2 * Low(w, 31)
  {
    AllOnes();
    HalfTwice(w);
    Unfold(Twice(w), 32);
    assert Bit(Twice(w)) == 0;
    hide Low, Half, Twice, And, Ones, LowBit;
    LowMasked(w, 31, 0x7fff_ffff);
  }

  lemma {:induction false} TopBitLost(low: nat, bit: bool)
    requires low < 0x8000_0000
    ensures 2 * (low + if bit then 0x8000_0000 else 0) % WORD == 2 * low
  {
  }

  // ----- Bits of two words

  lemma {:induction false} LowOrAnd(x: Word, y: Word, n: nat)
    ensures Low(Or(x, y), n) + Low(And(x, y), n) == Low(x, n) + Low(y, n)
    decreases n
  {
    hide Half, LowBit, And, Or;
    if n > 0 {
      HalfAnd(x, y);
      HalfOr(x, y);
      LowOrAnd(Half(x), Half(y), n - 1);
    }
  }

  lemma {:induction false} LowXorAnd(x: Word, y: Word, n: nat)
    ensures Low(Xor(x, y), n) + 2 * Low(And(x, y), n) == Low(x, n) + Low(y, n)
    decreases n
  {
    hide Half, LowBit, And, Xor;
    if n > 0 {
      HalfAnd(x, y);
      HalfXor(x, y);
      LowXorAnd(Half(x), Half(y), n - 1);
    }
  }

  // ----- Sums

  /** The low `n` bits are 0. */
  predicate Clear(w: Word, n: nat)
    decreases n
  {
    n == 0 || (LowBit(w) == 0 && Clear(Half(w), n - 1))
  }

  lemma {:induction false} ClearMasked(w: Word, n: nat, k: Word)
    requires Ones(k, n) && Clear(w, n)
    ensures And(w, k) == 0
    decreases n
  {
    hide Half, LowBit;
    if n == 0 {
      AndZero(w, k);
    } else {
      hide And;
      ClearMasked(Half(w), n - 1, Half(k));
      Shorter(w, k);
    }
  }

  lemma AndZero(w: Word, k: Word)
    requires k == 0
    ensures And(w, k) == 0
  {
  }

  lemma {:induction false} ClearAnd(x: Word, y: Word, n: nat)
    requires Clear(y, n)
    ensures Clear(And(x, y), n)
    decreases n
  {
    hide Half, LowBit, And;
    if n > 0 {
      HalfAnd(x, y);
      ClearAnd(Half(x), Half(y), n - 1);
    }
  }

  /** Carries have one more low bit clear. */
  lemma {:induction false} CarriesClear(x: Word, y: Word, n: nat)
    requires Clear(y, n)
    ensures Clear(Twice(And(x, y)), n + 1)
  {
    HalfTwice(And(x, y));
    AndTwice(x, y, 0x7fff_ffff);
    ClearAnd(And(x, 0x7fff_ffff), y, n);
    hide And, Twice;
  }

  lemma {:induction false} XorAndValue(x: Word, y: Word)
    ensures Value(Xor(x, y)) + 2 * Value(And(x, y)) == Value(x) + Value(y)
  {
    hide Low, Xor, And;
    LowXorAnd(x, y, 32);
  }

  lemma {:induction false} NoCarries(x: Word, y: Word)
    requires Clear(y, 32)
    ensures Value(Add(x, y)) == (Value(x) + Value(y)) % WORD
  {
    hide *;
    AllOnes();
    ClearMasked(y, 32, 0xffff_ffff);
    OnlyZero(y);
    AddZero(x);
    ValueZero();
    ValueBound(x);
    InRange(Value(x));
  }

  lemma {:induction false} ValueZero()
    ensures Value(0) == 0
  {
    LowZero(32);
  }

  lemma InRange(n: nat)
    requires n < WORD
    ensures (n + 0) % WORD == n
  {
  }

  /** The sum of two words is their sum modulo 2^32: after at most 32 rounds there is no carry left. */
  lemma {:induction false} AddValue(x: Word, y: Word, n: nat)
    requires n <= 32 && Clear(y, n)
    ensures Value(Add(x, y)) == (Value(x) + Value(y)) % WORD
    decreases 32 - n
  {
    hide *;
    if n == 32 {
      NoCarries(x, y);
    } else {
      var u, carries := Xor(x, y), Twice(And(x, y));
      AddCarries(x, y);
      CarriesClear(x, y, n);
      AddValue(u, carries, n + 1);
      XorAndValue(x, y);
      TwiceValue(And(x, y));
      SameSum(Value(u), Value(And(x, y)), Value(x) + Value(y));
    }
  }

  lemma {:induction false} SameSum(u: nat, a: nat, sum: nat)
    requires u + 2 * a == sum
    ensures (u + 2 * a % WORD) % WORD == sum % WORD
  {
    ModuloInSum(2 * a, u);
  }

  lemma {:induction false} SumValue(x: Word, y: Word)
    ensures Value(Add(x, y)) == (Value(x) + Value(y)) % WORD
  {
    hide Value, Add;
    AddValue(x, y, 0);
  }

  // ----- Shifts

  /** A shift to the left multiplies modulo 2^32. */
  lemma {:induction false} ShlValue(w: Word, s: nat)
    requires s < 32
    ensures Value(Shl(w, s)) == Value(w) * Power2(s) % WORD
  {
    if s == 0 {
      NoShift(w);
      ValueBound(w);
      hide Value, Shl;
    } else {
      hide *;
      ShlOnce(w, s);
      ShlValue(w, s - 1);
      TwiceValue(Shl(w, s - 1));
      TwicePower(Value(w), s);
      ThenTwice(Value(w) * Power2(s - 1));
    }
  }

  lemma {:induction false} ThenTwice(n: nat)
    ensures 2 * (n % WORD) % WORD == 2 * n % WORD
  {
  }

  lemma {:induction false} TwicePower(a: nat, s: nat)
    requires 0 < s
    ensures a * Power2(s) == 2 * (a * Power2(s - 1))
  {
  }

  /** A shift to the right divides. */
  lemma {:induction false} ShrValue(w: Word, s: nat) returns (rest: nat)
    requires s < 32
    ensures rest < Power2(s) && Value(w) == Value(Shr(w, s)) * Power2(s) + rest
    ensures Value(Shr(w, s)) == Value(w) / Power2(s)
  {
    hide Value, Shr, Half, Bit;
    if s == 0 {
      NoShift(w);
      rest := 0;
    } else {
      var before := ShrValue(w, s - 1);
      ShrOnce(w, s);
      HalfValue(Shr(w, s - 1));
      var q, b, p := Value(Shr(w, s)), Bit(Shr(w, s - 1)), Power2(s - 1);
      rest := b * p + before;
      MoreRest(q, b, p, before);
    }
    QuotientIs(Value(w), Power2(s), Value(Shr(w, s)), rest);
  }

  lemma {:induction false} MoreRest(q: nat, b: nat, p: nat, r: nat)
    requires b <= 1 && r < p
    ensures (b + 2 * q) * p + r == q * (2 * p) + (b * p + r) && b * p + r < 2 * p
  {
  }

  function Quotient(n: nat, d: nat): nat
    requires 0 < d
  {
    n / d
  }

  /** A circular shift by `s` bits. */
  function Rotation(n: nat, s: nat): nat
    requires s < 32
  {
    n * Power2(s) % WORD + Quotient(n, Power2(32 - s))
  }

  lemma RotationIs(n: nat, s: nat)
    requires s < 32
    ensures Rotation(n, s) == n * Power2(s) % WORD + n / Power2(32 - s)
  {
    hide Power2, WORD;
  }

  lemma {:induction false} OrValue(x: Word, y: Word)
    requires And(x, y) == 0
    ensures Value(Or(x, y)) == Value(x) + Value(y)
  {
    hide Low, Or, And;
    LowOrAnd(x, y, 32);
    LowZero(32);
  }

  lemma {:induction false} RotatedValue(w: Word, s: nat)
    requires 0 < s < 32
    ensures Value(Rotated(w, s)) == Rotation(Value(w), s)
  {
    hide *;
    RotatedIsOr(w, s);
    Apart(w, s);
    OrValue(Shl(w, s), Shr(w, 32 - s));
    ShlValue(w, s);
    var rest := ShrValue(w, 32 - s);
    RotationIs(Value(w), s);
  }

  // ----- One step

  /**
   * One step by section 3.4 of RFC 1321: a becomes b + ((a + f + x + t) <<< s), where f is the value of the round's
   * function; the other registers only change places.
   */
  lemma {:induction false} StepOnNumbers(v: Chain, mixed: Word, x: Word, t: Word, s: nat)
    requires 0 < s < 32
    ensures var r, sum := Stepped(v, mixed, x, t, s), Value(v.a) + Value(mixed) + Value(x) + Value(t);
      && r.a == v.d && r.c == v.b && r.d == v.c
      && Value(r.b) == (Value(v.b) + Rotation(sum % WORD, s)) % WORD
  {
    hide Value, Add, Rotated, Rotation;
    var w := Add(Add(Add(v.a, mixed), x), t);
    SumValue(v.a, mixed);
    SumValue(Add(v.a, mixed), x);
    SumValue(Add(Add(v.a, mixed), x), t);
    FourModulo(Value(v.a), Value(mixed), Value(x), Value(t));
    RotatedValue(w, s);
    SumValue(v.b, Rotated(w, s));
  }

  lemma {:induction false} FourModulo(a: nat, b: nat, c: nat, d: nat)
    ensures (((a + b) % WORD + c) % WORD + d) % WORD == (a + b + c + d) % WORD
  {
    ModuloInSum(a + b, c);
    ModuloInSum(a + b + c, d);
  }

  lemma {:induction false} ModuloInSum(a: nat, b: nat)
    ensures (a % WORD + b) % WORD == (a + b) % WORD
  {
  }

  /** Step `i` of the rounds. */
  lemma {:induction false} RoundsOnNumbers(v: Chain, block: seq<Byte>, i: nat)
    requires |block| == 64 && i < 64
    ensures var w, r, args := RfcSteps(v, block, i), RfcSteps(v, block, i + 1), ArgsOf(i);
      && r.a == w.d && r.c == w.b && r.d == w.c
      && Value(r.b) == (Value(w.b) + Rotation(
           (Value(w.a) + Value(RfcMix(i, w.b, w.c, w.d)) + Value(Load(block, args.word)) + Value(args.sine)) % WORD,
           args.shift)) % WORD
  {
    hide Value, Rotation, RfcSteps, RfcMix, Load, Stepped, ArgsOf;
    RfcStepsUnfold(v, block, i);
    var w, args := RfcSteps(v, block, i), ArgsOf(i);
    StepOnNumbers(w, RfcMix(i, w.b, w.c, w.d), Load(block, args.word), args.sine, args.shift);
  }

  /** After a block each register is added to its saved value. */
  lemma {:induction false} BlockOnNumbers(v: Chain, w: Chain)
    ensures Value(Plus(v, w).a) == (Value(v.a) + Value(w.a)) % WORD
    ensures Value(Plus(v, w).b) == (Value(v.b) + Value(w.b)) % WORD
    ensures Value(Plus(v, w).c) == (Value(v.c) + Value(w.c)) % WORD
    ensures Value(Plus(v, w).d) == (Value(v.d) + Value(w.d)) % WORD
  {
    hide Value, Add, WORD;
    SumValue(v.a, w.a);
    SumValue(v.b, w.b);
    SumValue(v.c, w.c);
    SumValue(v.d, w.d);
  }
}
