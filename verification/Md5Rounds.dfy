/** The MD5 transformation of one block: the four rounds of section 3.4 of RFC 1321. */
module Md5Rounds {
  import opened FileBytes
  import opened Md5Functions

  // ------------------------------------------------------------------ the steps

  datatype Chain = Chain(a: Word, b: Word, c: Word, d: Word)

  const INITIAL: Chain := Chain(0x67452301, 0xefcdab89, 0x98badcfe, 0x10325476)

  /** What a step takes besides the registers: a word of the block, a constant and a shift. */
  datatype Args = Args(word: nat, sine: Word, shift: nat)

  // The steps of the four rounds as the code lists them.

  function FirstArgs(i: nat): (r: Args)
    requires i < 16
    ensures r.word < 16 && 0 < r.shift < 32
  {
    match i
    case 0 => Args(0, 0xd76aa478, 7)
    case 1 => Args(1, 0xe8c7b756, 12)
    case 2 => Args(2, 0x242070db, 17)
    case 3 => Args(3, 0xc1bdceee, 22)
    case 4 => Args(4, 0xf57c0faf, 7)
    case 5 => Args(5, 0x4787c62a, 12)
    case 6 => Args(6, 0xa8304613, 17)
    case 7 => Args(7, 0xfd469501, 22)
    case 8 => Args(8, 0x698098d8, 7)
    case 9 => Args(9, 0x8b44f7af, 12)
    case 10 => Args(10, 0xffff5bb1, 17)
    case 11 => Args(11, 0x895cd7be, 22)
    case 12 => Args(12, 0x6b901122, 7)
    case 13 => Args(13, 0xfd987193, 12)
    case 14 => Args(14, 0xa679438e, 17)
    case _ => Args(15, 0x49b40821, 22)
  }

  function SecondArgs(i: nat): (r: Args)
    requires i < 16
    ensures r.word < 16 && 0 < r.shift < 32
  {
    match i
    case 0 => Args(1, 0xf61e2562, 5)
    case 1 => Args(6, 0xc040b340, 9)
    case 2 => Args(11, 0x265e5a51, 14)
    case 3 => Args(0, 0xe9b6c7aa, 20)
    case 4 => Args(5, 0xd62f105d, 5)
    case 5 => Args(10, 0x02441453, 9)
    case 6 => Args(15, 0xd8a1e681, 14)
    case 7 => Args(4, 0xe7d3fbc8, 20)
    case 8 => Args(9, 0x21e1cde6, 5)
    case 9 => Args(14, 0xc33707d6, 9)
    case 10 => Args(3, 0xf4d50d87, 14)
    case 11 => Args(8, 0x455a14ed, 20)
    case 12 => Args(13, 0xa9e3e905, 5)
    case 13 => Args(2, 0xfcefa3f8, 9)
    case 14 => Args(7, 0x676f02d9, 14)
    case _ => Args(12, 0x8d2a4c8a, 20)
  }

  function ThirdArgs(i: nat): (r: Args)
    requires i < 16
    ensures r.word < 16 && 0 < r.shift < 32
  {
    match i
    case 0 => Args(5, 0xfffa3942, 4)
    case 1 => Args(8, 0x8771f681, 11)
    case 2 => Args(11, 0x6d9d6122, 16)
    case 3 => Args(14, 0xfde5380c, 23)
    case 4 => Args(1, 0xa4beea44, 4)
    case 5 => Args(4, 0x4bdecfa9, 11)
    case 6 => Args(7, 0xf6bb4b60, 16)
    case 7 => Args(10, 0xbebfbc70, 23)
    case 8 => Args(13, 0x289b7ec6, 4)
    case 9 => Args(0, 0xeaa127fa, 11)
    case 10 => Args(3, 0xd4ef3085, 16)
    case 11 => Args(6, 0x04881d05, 23)
    case 12 => Args(9, 0xd9d4d039, 4)
    case 13 => Args(12, 0xe6db99e5, 11)
    case 14 => Args(15, 0x1fa27cf8, 16)
    case _ => Args(2, 0xc4ac5665, 23)
  }

  function FourthArgs(i: nat): (r: Args)
    requires i < 16
    ensures r.word < 16 && 0 < r.shift < 32
  {
    match i
    case 0 => Args(0, 0xf4292244, 6)
    case 1 => Args(7, 0x432aff97, 10)
    case 2 => Args(14, 0xab9423a7, 15)
    case 3 => Args(5, 0xfc93a039, 21)
    case 4 => Args(12, 0x655b59c3, 6)
    case 5 => Args(3, 0x8f0ccc92, 10)
    case 6 => Args(10, 0xffeff47d, 15)
    case 7 => Args(1, 0x85845dd1, 21)
    case 8 => Args(8, 0x6fa87e4f, 6)
    case 9 => Args(15, 0xfe2ce6e0, 10)
    case 10 => Args(6, 0xa3014314, 15)
    case 11 => Args(13, 0x4e0811a1, 21)
    case 12 => Args(4, 0xf7537e82, 6)
    case 13 => Args(11, 0xbd3af235, 10)
    case 14 => Args(2, 0x2ad7d2bb, 15)
    case _ => Args(9, 0xeb86d391, 21)
  }

  function ArgsOf(i: nat): (r: Args)
    requires i < 64
    ensures r.word < 16 && 0 < r.shift < 32
  {
    if i < 16 then FirstArgs(i)
    else if i < 32 then SecondArgs(i - 16)
    else if i < 48 then ThirdArgs(i - 32)
    else FourthArgs(i - 48)
  }

  /** The listed words follow the rules of the rounds. */
  lemma WordsFollowRules(i: nat)
    requires i < 16
    ensures FirstArgs(i).word == i && SecondArgs(i).word == (5 * i + 1) % 16
    ensures ThirdArgs(i).word == (3 * i + 5) % 16 && FourthArgs(i).word == 7 * i % 16
  {
  }

  /** Words of a block in little-endian order. */
  function Load(block: seq<Byte>, n: nat): Word
    requires |block| == 64 && n < 16
  {
    var at := 4 * n;
    FourOctets(block[at], block[at + 1], block[at + 2], block[at + 3])
  }

  function FourOctets(b0: Byte, b1: Byte, b2: Byte, b3: Byte): Word {
    Octet(b0) | (Octet(b1) << 8) | (Octet(b2) << 16) | (Octet(b3) << 24)
  }

  function Octet(b: Byte): Word {
    b as int as bv32
  }

  function Rotated(x: Word, s: nat): Word
    requires s < 32
  {
    (x << s) | (x >> (32 - s))
  }

  /** One step; the registers change places so that the next one to be replaced comes first. */
  function Stepped(v: Chain, mixed: Word, x: Word, t: Word, s: nat): Chain
    requires s < 32
  {
    Chain(v.d, Add(v.b, Rotated(Add(Add(Add(v.a, mixed), x), t), s)), v.b, v.c)
  }

  /** Step `i` with its word, constant and shift. */
  function OneStep(i: nat, v: Chain, mixed: Word, block: seq<Byte>): Chain
    requires |block| == 64 && i < 64
  {
    var x := ArgsOf(i);
    Stepped(v, mixed, Load(block, x.word), x.sine, x.shift)
  }

  /** The registers after the first `n` steps on a block, by section 3.4 of RFC 1321. */
  function RfcSteps(v: Chain, block: seq<Byte>, n: nat): Chain
    requires |block| == 64 && n <= 64
    decreases n
  {
    if n == 0 then v
    else
      var w := RfcSteps(v, block, n - 1);
      OneStep(n - 1, w, RfcMix(n - 1, w.b, w.c, w.d), block)
  }

  lemma RfcStepsUnfold(v: Chain, block: seq<Byte>, n: nat)
    requires |block| == 64 && n < 64
    ensures RfcSteps(v, block, 0) == v
    ensures var w := RfcSteps(v, block, n);
            RfcSteps(v, block, n + 1) == OneStep(n, w, RfcMix(n, w.b, w.c, w.d), block)
  {
    hide OneStep, RfcMix;
  }

  /** The registers added to the saved ones. */
  function Plus(v: Chain, w: Chain): Chain {
    Chain(Add(v.a, w.a), Add(v.b, w.b), Add(v.c, w.c), Add(v.d, w.d))
  }

  /** The registers after a whole block. */
  function Compress(v: Chain, block: seq<Byte>): Chain
    requires |block| == 64
  {
    Plus(v, RfcSteps(v, block, 64))
  }

  /** The four rounds of one block, with the rewritten functions and the listed words. */
  method Transform(v: Chain, block: seq<Byte>) returns (r: Chain)
    requires |block| == 64
    ensures r == Compress(v, block)
  {
    hide Mix, RfcMix, OneStep, RfcSteps, Plus;
    var w := v;
    RfcStepsUnfold(v, block, 0);
    for i := 0 to 64
      invariant w == RfcSteps(v, block, i)
    {
      MixIsRfc(i, w.b, w.c, w.d);
      RfcStepsUnfold(v, block, i);
      w := OneStep(i, w, Mix(i, w.b, w.c, w.d), block);
    }
    r := Plus(v, w);
  }
}
