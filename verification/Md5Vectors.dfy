/** Digests of section A.5 of RFC 1321, through the registers after every step. */
module Md5Vectors {
  import opened FileBytes
  import opened Md5Functions
  import opened Md5Rounds
  import opened Md5
  import opened Metadata

  /** The registers after `n` steps on the first block of a message. */
  ghost predicate At(block: seq<Byte>, n: nat, v: Chain) {
    |block| == 64 && n <= 64 && RfcSteps(INITIAL, block, n) == v
  }

  // ----- One step of each round on known registers, with its word, its constant and its shift

  lemma {:induction false} NextFirst(block: seq<Byte>, j: nat, v: Chain, w: nat, x: Word, t: Word, s: nat,
                                     r: Word)
    requires j < 16 && At(block, j, v) && FirstArgs(j) == Args(w, t, s)
    requires |block| == 64 && Load(block, w) == x
    requires s < 32 && Stepped(v, RfcF(v.b, v.c, v.d), x, t, s) == Chain(v.d, r, v.b, v.c)
    ensures At(block, j + 1, Chain(v.d, r, v.b, v.c))
  {
    hide RfcF, Load, Stepped, FirstArgs;
    RfcStepsUnfold(INITIAL, block, j);
  }

  lemma {:induction false} NextSecond(block: seq<Byte>, j: nat, v: Chain, w: nat, x: Word, t: Word, s: nat,
                                     r: Word)
    requires j < 16 && At(block, 16 + j, v) && SecondArgs(j) == Args(w, t, s)
    requires |block| == 64 && Load(block, w) == x
    requires s < 32 && Stepped(v, RfcG(v.b, v.c, v.d), x, t, s) == Chain(v.d, r, v.b, v.c)
    ensures At(block, 16 + j + 1, Chain(v.d, r, v.b, v.c))
  {
    hide RfcG, Load, Stepped, SecondArgs;
    RfcStepsUnfold(INITIAL, block, 16 + j);
  }

  lemma {:induction false} NextThird(block: seq<Byte>, j: nat, v: Chain, w: nat, x: Word, t: Word, s: nat,
                                     r: Word)
    requires j < 16 && At(block, 32 + j, v) && ThirdArgs(j) == Args(w, t, s)
    requires |block| == 64 && Load(block, w) == x
    requires s < 32 && Stepped(v, RfcH(v.b, v.c, v.d), x, t, s) == Chain(v.d, r, v.b, v.c)
    ensures At(block, 32 + j + 1, Chain(v.d, r, v.b, v.c))
  {
    hide RfcH, Load, Stepped, ThirdArgs;
    RfcStepsUnfold(INITIAL, block, 32 + j);
  }

  lemma {:induction false} NextFourth(block: seq<Byte>, j: nat, v: Chain, w: nat, x: Word, t: Word, s: nat,
                                     r: Word)
    requires j < 16 && At(block, 48 + j, v) && FourthArgs(j) == Args(w, t, s)
    requires |block| == 64 && Load(block, w) == x
    requires s < 32 && Stepped(v, RfcI(v.b, v.c, v.d), x, t, s) == Chain(v.d, r, v.b, v.c)
    ensures At(block, 48 + j + 1, Chain(v.d, r, v.b, v.c))
  {
    hide RfcI, Load, Stepped, FourthArgs;
    RfcStepsUnfold(INITIAL, block, 48 + j);
  }

  /** The words of a block. */
  ghost predicate Words(block: seq<Byte>, words: nat -> Word) {
    |block| == 64 && forall n: nat :: n < 16 ==> Load(block, n) == words(n)
  }

  lemma {:induction false} LengthBytes(n: nat)
    requires n < 32
    ensures ToBytes(8 * n, 8) == [(8 * n) as Byte, 0, 0, 0, 0, 0, 0, 0]
  {
    assert ToBytes(0, 7) == [0, 0, 0, 0, 0, 0, 0];
  }

  lemma {:induction false} Start(block: seq<Byte>)
    requires |block| == 64
    ensures At(block, 0, INITIAL)
  {
  }

  lemma {:induction false} OneBlock(message: seq<Byte>, n: nat, v: Chain)
    requires n == 64 && At(Padded(message), n, v)
    ensures Digest(message) == Out(Plus(INITIAL, v))
  {
    hide RfcSteps, Padded;
    var block := Padded(message);
    assert block[..64] == block;
    ShortFold(Compress(INITIAL, block), block[64..]);
  }

  function PaddedByte(message: seq<Byte>, k: nat): Byte
    requires |message| < 32
  {
    if k < |message| then message[k] else if k == |message| then 0x80
    else if k == 56 then (8 * |message|) as Byte else 0
  }

  /** A short message, the byte 0x80, zeros, and the length in bits. */
  lemma {:induction false} PaddedBytes(message: seq<Byte>)
    requires |message| < 32
    ensures |Padded(message)| == 64
    ensures forall k :: 0 <= k < 64 ==> Padded(message)[k] == PaddedByte(message, k)
  {
    LengthBytes(|message|);
  }

  /** The words that occur. */
  lemma KnownWords()
    ensures FourOctets(0, 0, 0, 0) == 0 && FourOctets(0x80, 0, 0, 0) == 0x80
    ensures FourOctets(0x18, 0, 0, 0) == 0x18 && FourOctets(0x61, 0x62, 0x63, 0x80) == 0x80636261
  {
  }

  /** Registers as bytes, the lowest first. */
  lemma {:induction false} OutBytes(v: Chain, a: nat, b: nat, c: nat, d: nat)
    requires v.a as nat == a && v.b as nat == b && v.c as nat == c && v.d as nat == d
    ensures Out(v) == Four(a) + Four(b) + Four(c) + Four(d)
  {
    FourBytes(a);
    FourBytes(b);
    FourBytes(c);
    FourBytes(d);
  }

  function Four(n: nat): seq<Byte> {
    [(n % 256) as Byte, (n / 256 % 256) as Byte, (n / 256 / 256 % 256) as Byte, (n / 256 / 256 / 256 % 256) as Byte]
  }


  // ----- the empty message

  function EmptyWord(n: nat): Word {
    if n == 0 then 0x80 else 0
  }

  lemma {:induction false} EmptyFirst(block: seq<Byte>, i: nat)
    requires i == 0 && Words(block, EmptyWord) && At(block, i, Chain(0x67452301, 0xefcdab89, 0x98badcfe, 0x10325476))
    ensures At(block, i + 16, Chain(0xf56c7cf1, 0xd6819c6a, 0x5aa53f75, 0x374943a7))
  {
    hide At, Load;
    NextFirst(block, 0, Chain(0x67452301, 0xefcdab89, 0x98badcfe, 0x10325476), 0, 0x80, 0xd76aa478, 7, 0xa5202774);
    NextFirst(block, 1, Chain(0x10325476, 0xa5202774, 0xefcdab89, 0x98badcfe), 1, 0, 0xe8c7b756, 12, 0xf59592dd);
    NextFirst(block, 2, Chain(0x98badcfe, 0xf59592dd, 0xa5202774, 0xefcdab89), 2, 0, 0x242070db, 17, 0xe7f06b23);
    NextFirst(block, 3, Chain(0xefcdab89, 0xe7f06b23, 0xf59592dd, 0xa5202774), 3, 0, 0xc1bdceee, 22, 0x1b163203);
    NextFirst(block, 4, Chain(0xa5202774, 0x1b163203, 0xe7f06b23, 0xf59592dd), 4, 0, 0xf57c0faf, 7, 0x32033344);
    NextFirst(block, 5, Chain(0xf59592dd, 0x32033344, 0x1b163203, 0xe7f06b23), 5, 0, 0x4787c62a, 12, 0x2f35d494);
    NextFirst(block, 6, Chain(0xe7f06b23, 0x2f35d494, 0x32033344, 0x1b163203), 6, 0, 0xa8304613, 17, 0xf5b158db);
    NextFirst(block, 7, Chain(0x1b163203, 0xf5b158db, 0x2f35d494, 0x32033344), 7, 0, 0xfd469501, 22, 0x9bc13ce9);
    NextFirst(block, 8, Chain(0x32033344, 0x9bc13ce9, 0xf5b158db, 0x2f35d494), 8, 0, 0x698098d8, 7, 0x3893b991);
    NextFirst(block, 9, Chain(0x2f35d494, 0x3893b991, 0x9bc13ce9, 0xf5b158db), 9, 0, 0x8b44f7af, 12, 0xfce4a312);
    NextFirst(block, 10, Chain(0xf5b158db, 0xfce4a312, 0x3893b991, 0x9bc13ce9), 10, 0, 0xffff5bb1, 17, 0xe1ef0576);
    NextFirst(block, 11, Chain(0x9bc13ce9, 0xe1ef0576, 0xfce4a312, 0x3893b991), 11, 0, 0x895cd7be, 22, 0x70768a29);
    NextFirst(block, 12, Chain(0x3893b991, 0x70768a29, 0xe1ef0576, 0xfce4a312), 12, 0, 0x6b901122, 7, 0xf56c7cf1);
    NextFirst(block, 13, Chain(0xfce4a312, 0xf56c7cf1, 0x70768a29, 0xe1ef0576), 13, 0, 0xfd987193, 12, 0x374943a7);
    NextFirst(block, 14, Chain(0xe1ef0576, 0x374943a7, 0xf56c7cf1, 0x70768a29), 14, 0, 0xa679438e, 17, 0x5aa53f75);
    NextFirst(block, 15, Chain(0x70768a29, 0x5aa53f75, 0x374943a7, 0xf56c7cf1), 15, 0, 0x49b40821, 22, 0xd6819c6a);
  }

  lemma {:induction false} EmptySecond(block: seq<Byte>, i: nat)
    requires i == 16 && Words(block, EmptyWord) && At(block, i, Chain(0xf56c7cf1, 0xd6819c6a, 0x5aa53f75, 0x374943a7))
    ensures At(block, i + 16, Chain(0x13707036, 0xa2205f1f, 0x1c31c384, 0xae7813db))
  {
    hide At, Load;
    NextSecond(block, 0, Chain(0xf56c7cf1, 0xd6819c6a, 0x5aa53f75, 0x374943a7), 1, 0, 0xf61e2562, 5, 0x1c7d7513);
    NextSecond(block, 1, Chain(0x374943a7, 0x1c7d7513, 0xd6819c6a, 0x5aa53f75), 6, 0, 0xc040b340, 9, 0x7bd57a3a);
    NextSecond(block, 2, Chain(0x5aa53f75, 0x7bd57a3a, 0x1c7d7513, 0xd6819c6a), 11, 0, 0x265e5a51, 14, 0xc095f13a);
    NextSecond(block, 3, Chain(0xd6819c6a, 0xc095f13a, 0x7bd57a3a, 0x1c7d7513), 0, 0x80, 0xe9b6c7aa, 20, 0xbd782e17);
    NextSecond(block, 4, Chain(0x1c7d7513, 0xbd782e17, 0xc095f13a, 0x7bd57a3a), 5, 0, 0xd62f105d, 5, 0x3d1e3e6c);
    NextSecond(block, 5, Chain(0x7bd57a3a, 0x3d1e3e6c, 0xbd782e17, 0xc095f13a), 10, 0, 0x02441453, 9, 0x68b7b3e3);
    NextSecond(block, 6, Chain(0xc095f13a, 0x68b7b3e3, 0x3d1e3e6c, 0xbd782e17), 15, 0, 0xd8a1e681, 14, 0xeb41643e);
    NextSecond(block, 7, Chain(0xbd782e17, 0xeb41643e, 0x68b7b3e3, 0x3d1e3e6c), 4, 0, 0xe7d3fbc8, 20, 0xe422531a);
    NextSecond(block, 8, Chain(0x3d1e3e6c, 0xe422531a, 0xeb41643e, 0x68b7b3e3), 9, 0, 0x21e1cde6, 5, 0x306ec122);
    NextSecond(block, 9, Chain(0x68b7b3e3, 0x306ec122, 0xe422531a, 0xeb41643e), 14, 0, 0xc33707d6, 9, 0xd28c77c2);
    NextSecond(block, 10, Chain(0xeb41643e, 0xd28c77c2, 0x306ec122, 0xe422531a), 3, 0, 0xf4d50d87, 14, 0xa3c663da);
    NextSecond(block, 11, Chain(0xe422531a, 0xa3c663da, 0xd28c77c2, 0x306ec122), 8, 0, 0x455a14ed, 20, 0xa0572807);
    NextSecond(block, 12, Chain(0x306ec122, 0xa0572807, 0xa3c663da, 0xd28c77c2), 13, 0, 0xa9e3e905, 5, 0x13707036);
    NextSecond(block, 13, Chain(0xd28c77c2, 0x13707036, 0xa0572807, 0xa3c663da), 2, 0, 0xfcefa3f8, 9, 0xae7813db);
    NextSecond(block, 14, Chain(0xa3c663da, 0xae7813db, 0x13707036, 0xa0572807), 7, 0, 0x676f02d9, 14, 0x1c31c384);
    NextSecond(block, 15, Chain(0xa0572807, 0x1c31c384, 0xae7813db, 0x13707036), 12, 0, 0x8d2a4c8a, 20, 0xa2205f1f);
  }

  lemma {:induction false} EmptyThird(block: seq<Byte>, i: nat)
    requires i == 32 && Words(block, EmptyWord) && At(block, i, Chain(0x13707036, 0xa2205f1f, 0x1c31c384, 0xae7813db))
    ensures At(block, i + 16, Chain(0x3f55edfd, 0xca7d2dbd, 0x68d84ea2, 0x22a31f54))
  {
    hide At, Load;
    NextThird(block, 0, Chain(0x13707036, 0xa2205f1f, 0x1c31c384, 0xae7813db), 5, 0, 0xfffa3942, 4, 0xdf63eaa1);
    NextThird(block, 1, Chain(0xae7813db, 0xdf63eaa1, 0xa2205f1f, 0x1c31c384), 8, 0, 0x8771f681, 11, 0xc3689f5b);
    NextThird(block, 2, Chain(0x1c31c384, 0xc3689f5b, 0xdf63eaa1, 0xa2205f1f), 11, 0, 0x6d9d6122, 16, 0x12f3e755);
    NextThird(block, 3, Chain(0xa2205f1f, 0x12f3e755, 0xc3689f5b, 0xdf63eaa1), 14, 0, 0xfde5380c, 23, 0x004b6669);
    NextThird(block, 4, Chain(0xdf63eaa1, 0x004b6669, 0x12f3e755, 0xc3689f5b), 1, 0, 0xa4beea44, 4, 0x5f7a9b2e);
    NextThird(block, 5, Chain(0xc3689f5b, 0x5f7a9b2e, 0x004b6669, 0x12f3e755), 4, 0, 0x4bdecfa9, 11, 0xabc34e16);
    NextThird(block, 6, Chain(0x12f3e755, 0xabc34e16, 0x5f7a9b2e, 0x004b6669), 7, 0, 0xf6bb4b60, 16, 0x91ca4cb7);
    NextThird(block, 7, Chain(0x004b6669, 0x91ca4cb7, 0xabc34e16, 0x5f7a9b2e), 10, 0, 0xbebfbc70, 23, 0xc5dc8c15);
    NextThird(block, 8, Chain(0x5f7a9b2e, 0xc5dc8c15, 0x91ca4cb7, 0xabc34e16), 13, 0, 0x289b7ec6, 4, 0x4497169d);
    NextThird(block, 9, Chain(0xabc34e16, 0x4497169d, 0xc5dc8c15, 0x91ca4cb7), 0, 0x80, 0xeaa127fa, 11, 0x76fd93d4);
    NextThird(block, 10, Chain(0x91ca4cb7, 0x76fd93d4, 0x4497169d, 0xc5dc8c15), 3, 0, 0xd4ef3085, 16, 0xfd95f243);
    NextThird(block, 11, Chain(0xc5dc8c15, 0xfd95f243, 0x76fd93d4, 0x4497169d), 6, 0, 0x04881d05, 23, 0x0fe32453);
    NextThird(block, 12, Chain(0x4497169d, 0x0fe32453, 0xfd95f243, 0x76fd93d4), 9, 0, 0xd9d4d039, 4, 0x3f55edfd);
    NextThird(block, 13, Chain(0x76fd93d4, 0x3f55edfd, 0x0fe32453, 0xfd95f243), 12, 0, 0xe6db99e5, 11, 0x22a31f54);
    NextThird(block, 14, Chain(0xfd95f243, 0x22a31f54, 0x3f55edfd, 0x0fe32453), 15, 0, 0x1fa27cf8, 16, 0x68d84ea2);
    NextThird(block, 15, Chain(0x0fe32453, 0x68d84ea2, 0x22a31f54, 0x3f55edfd), 2, 0, 0xc4ac5665, 23, 0xca7d2dbd);
  }

  lemma {:induction false} EmptyFourth(block: seq<Byte>, i: nat)
    requires i == 48 && Words(block, EmptyWord) && At(block, i, Chain(0x3f55edfd, 0xca7d2dbd, 0x68d84ea2, 0x22a31f54))
    ensures At(block, i + 16, Chain(0x7246fad3, 0x14e45506, 0xff4ea3eb, 0x6e10a476))
  {
    hide At, Load;
    NextFourth(block, 0, Chain(0x3f55edfd, 0xca7d2dbd, 0x68d84ea2, 0x22a31f54), 0, 0x80, 0xf4292244, 6, 0x93aa2577);
    NextFourth(block, 1, Chain(0x22a31f54, 0x93aa2577, 0xca7d2dbd, 0x68d84ea2), 7, 0, 0x432aff97, 10, 0x1688dc85);
    NextFourth(block, 2, Chain(0x68d84ea2, 0x1688dc85, 0x93aa2577, 0xca7d2dbd), 14, 0, 0xab9423a7, 15, 0xcd85b8cb);
    NextFourth(block, 3, Chain(0xca7d2dbd, 0xcd85b8cb, 0x1688dc85, 0x93aa2577), 5, 0, 0xfc93a039, 21, 0x561e0689);
    NextFourth(block, 4, Chain(0x93aa2577, 0x561e0689, 0xcd85b8cb, 0x1688dc85), 12, 0, 0x655b59c3, 6, 0x5625a114);
    NextFourth(block, 5, Chain(0x1688dc85, 0x5625a114, 0x561e0689, 0xcd85b8cb), 3, 0, 0x8f0ccc92, 10, 0x3450f42b);
    NextFourth(block, 6, Chain(0xcd85b8cb, 0x3450f42b, 0x5625a114, 0x561e0689), 10, 0, 0xffeff47d, 15, 0x392ad0d0);
    NextFourth(block, 7, Chain(0x561e0689, 0x392ad0d0, 0x3450f42b, 0x5625a114), 1, 0, 0x85845dd1, 21, 0x1e77fa61);
    NextFourth(block, 8, Chain(0x5625a114, 0x1e77fa61, 0x392ad0d0, 0x3450f42b), 8, 0, 0x6fa87e4f, 6, 0x474a9c8c);
    NextFourth(block, 9, Chain(0x3450f42b, 0x474a9c8c, 0x1e77fa61, 0x392ad0d0), 15, 0, 0xfe2ce6e0, 10, 0xdfce00bc);
    NextFourth(block, 10, Chain(0x392ad0d0, 0xdfce00bc, 0x474a9c8c, 0x1e77fa61), 6, 0, 0xa3014314, 15, 0x36594b14);
    NextFourth(block, 11, Chain(0x1e77fa61, 0x36594b14, 0xdfce00bc, 0x474a9c8c), 13, 0, 0x4e0811a1, 21, 0x30130182);
    NextFourth(block, 12, Chain(0x474a9c8c, 0x30130182, 0x36594b14, 0xdfce00bc), 4, 0, 0xf7537e82, 6, 0x7246fad3);
    NextFourth(block, 13, Chain(0xdfce00bc, 0x7246fad3, 0x30130182, 0x36594b14), 11, 0, 0xbd3af235, 10, 0x6e10a476);
    NextFourth(block, 14, Chain(0x36594b14, 0x6e10a476, 0x7246fad3, 0x30130182), 2, 0, 0x2ad7d2bb, 15, 0xff4ea3eb);
    NextFourth(block, 15, Chain(0x30130182, 0xff4ea3eb, 0x6e10a476, 0x7246fad3), 9, 0, 0xeb86d391, 21, 0x14e45506);
  }

  lemma {:induction false} EmptyBlock()
    ensures |Padded([])| == 64 && Words(Padded([]), EmptyWord)
  {
    PaddedBytes([]);
    KnownWords();
    hide Padded, FourOctets;
  }

  lemma EmptySum()
    ensures Plus(INITIAL, Chain(0x7246fad3, 0x14e45506, 0xff4ea3eb, 0x6e10a476)) ==
            Chain(0xd98c1dd4, 0x04b2008f, 0x980980e9, 0x7e42f8ec)
  {
  }

  /** The digest of the empty message. */
  lemma {:induction false} EmptyDigest()
    ensures Digest([]) ==
            [0xd4, 0x1d, 0x8c, 0xd9, 0x8f, 0x00, 0xb2, 0x04, 0xe9, 0x80, 0x09, 0x98, 0xec, 0xf8, 0x42, 0x7e]
  {
    hide At, Words, Digest, Padded, Out, Plus;
    var block := Padded([]);
    EmptyBlock();
    Start(block);
    EmptyFirst(block, 0);
    EmptySecond(block, 16);
    EmptyThird(block, 32);
    EmptyFourth(block, 48);
    OneBlock([], 64, Chain(0x7246fad3, 0x14e45506, 0xff4ea3eb, 0x6e10a476));
    EmptySum();
    OutBytes(Chain(0xd98c1dd4, 0x04b2008f, 0x980980e9, 0x7e42f8ec), 0xd98c1dd4, 0x04b2008f, 0x980980e9, 0x7e42f8ec);
  }

  // ----- "abc"

  function AbcWord(n: nat): Word {
    if n == 0 then 0x80636261 else if n == 14 then 0x18 else 0
  }

  lemma {:induction false} AbcFirst(block: seq<Byte>, i: nat)
    requires i == 0 && Words(block, AbcWord) && At(block, i, Chain(0x67452301, 0xefcdab89, 0x98badcfe, 0x10325476))
    ensures At(block, i + 16, Chain(0xdda9b9a6, 0x72aff2e0, 0xe396856b, 0xa1051895))
  {
    hide At, Load;
    NextFirst(block, 0, Chain(0x67452301, 0xefcdab89, 0x98badcfe, 0x10325476), 0, 0x80636261, 0xd76aa478, 7,
      0xd6d117b4);
    NextFirst(block, 1, Chain(0x10325476, 0xd6d117b4, 0xefcdab89, 0x98badcfe), 1, 0, 0xe8c7b756, 12, 0x344a8432);
    NextFirst(block, 2, Chain(0x98badcfe, 0x344a8432, 0xd6d117b4, 0xefcdab89), 2, 0, 0x242070db, 17, 0x2f6fbd72);
    NextFirst(block, 3, Chain(0xefcdab89, 0x2f6fbd72, 0x344a8432, 0xd6d117b4), 3, 0, 0xc1bdceee, 22, 0x7ad956f2);
    NextFirst(block, 4, Chain(0xd6d117b4, 0x7ad956f2, 0x2f6fbd72, 0x344a8432), 4, 0, 0xf57c0faf, 7, 0xc73741ef);
    NextFirst(block, 5, Chain(0x344a8432, 0xc73741ef, 0x7ad956f2, 0x2f6fbd72), 5, 0, 0x4787c62a, 12, 0x8bac3051);
    NextFirst(block, 6, Chain(0x2f6fbd72, 0x8bac3051, 0xc73741ef, 0x7ad956f2), 6, 0, 0xa8304613, 17, 0x207dc67b);
    NextFirst(block, 7, Chain(0x7ad956f2, 0x207dc67b, 0x8bac3051, 0xc73741ef), 7, 0, 0xfd469501, 22, 0x928d99f6);
    NextFirst(block, 8, Chain(0xc73741ef, 0x928d99f6, 0x207dc67b, 0x8bac3051), 8, 0, 0x698098d8, 7, 0x854b3712);
    NextFirst(block, 9, Chain(0x8bac3051, 0x854b3712, 0x928d99f6, 0x207dc67b), 9, 0, 0x8b44f7af, 12, 0x74e2f284);
    NextFirst(block, 10, Chain(0x207dc67b, 0x74e2f284, 0x854b3712, 0x928d99f6), 10, 0, 0xffff5bb1, 17, 0x3020401c);
    NextFirst(block, 11, Chain(0x928d99f6, 0x3020401c, 0x74e2f284, 0x854b3712), 11, 0, 0x895cd7be, 22, 0x5ed49596);
    NextFirst(block, 12, Chain(0x854b3712, 0x5ed49596, 0x3020401c, 0x74e2f284), 12, 0, 0x6b901122, 7, 0xdda9b9a6);
    NextFirst(block, 13, Chain(0x74e2f284, 0xdda9b9a6, 0x5ed49596, 0x3020401c), 13, 0, 0xfd987193, 12, 0xa1051895);
    NextFirst(block, 14, Chain(0x3020401c, 0xa1051895, 0xdda9b9a6, 0x5ed49596), 14, 0x18, 0xa679438e, 17, 0xe396856b);
    NextFirst(block, 15, Chain(0x5ed49596, 0xe396856b, 0xa1051895, 0xdda9b9a6), 15, 0, 0x49b40821, 22, 0x72aff2e0);
  }

  lemma {:induction false} AbcSecond(block: seq<Byte>, i: nat)
    requires i == 16 && Words(block, AbcWord) && At(block, i, Chain(0xdda9b9a6, 0x72aff2e0, 0xe396856b, 0xa1051895))
    ensures At(block, i + 16, Chain(0x790a77fb, 0x726342d3, 0xa62884aa, 0x9f47e4f8))
  {
    hide At, Load;
    NextSecond(block, 0, Chain(0xdda9b9a6, 0x72aff2e0, 0xe396856b, 0xa1051895), 1, 0, 0xf61e2562, 5, 0x3e9e9126);
    NextSecond(block, 1, Chain(0xa1051895, 0x3e9e9126, 0x72aff2e0, 0xe396856b), 6, 0, 0xc040b340, 9, 0x4a1d804e);
    NextSecond(block, 2, Chain(0xe396856b, 0x4a1d804e, 0x3e9e9126, 0x72aff2e0), 11, 0, 0x265e5a51, 14, 0xe25e1652);
    NextSecond(block, 3, Chain(0x72aff2e0, 0xe25e1652, 0x4a1d804e, 0x3e9e9126), 0, 0x80636261, 0xe9b6c7aa, 20,
      0xb5b204e4);
    NextSecond(block, 4, Chain(0x3e9e9126, 0xb5b204e4, 0xe25e1652, 0x4a1d804e), 5, 0, 0xd62f105d, 5, 0x59a8ffda);
    NextSecond(block, 5, Chain(0x4a1d804e, 0x59a8ffda, 0xb5b204e4, 0xe25e1652), 10, 0, 0x02441453, 9, 0x6d002f1e);
    NextSecond(block, 6, Chain(0xe25e1652, 0x6d002f1e, 0x59a8ffda, 0xb5b204e4), 15, 0, 0xd8a1e681, 14, 0xabfc7920);
    NextSecond(block, 7, Chain(0xb5b204e4, 0xabfc7920, 0x6d002f1e, 0x59a8ffda), 4, 0, 0xe7d3fbc8, 20, 0x47092c07);
    NextSecond(block, 8, Chain(0x59a8ffda, 0x47092c07, 0xabfc7920, 0x6d002f1e), 9, 0, 0x21e1cde6, 5, 0xb7f268cf);
    NextSecond(block, 9, Chain(0x6d002f1e, 0xb7f268cf, 0x47092c07, 0xabfc7920), 14, 0x18, 0xc33707d6, 9, 0x09388eff);
    NextSecond(block, 10, Chain(0xabfc7920, 0x09388eff, 0xb7f268cf, 0x47092c07), 3, 0, 0xf4d50d87, 14, 0xfe1623b1);
    NextSecond(block, 11, Chain(0x47092c07, 0xfe1623b1, 0x09388eff, 0xb7f268cf), 8, 0, 0x455a14ed, 20, 0x786acb8f);
    NextSecond(block, 12, Chain(0xb7f268cf, 0x786acb8f, 0xfe1623b1, 0x09388eff), 13, 0, 0xa9e3e905, 5, 0x790a77fb);
    NextSecond(block, 13, Chain(0x09388eff, 0x790a77fb, 0x786acb8f, 0xfe1623b1), 2, 0, 0xfcefa3f8, 9, 0x9f47e4f8);
    NextSecond(block, 14, Chain(0xfe1623b1, 0x9f47e4f8, 0x790a77fb, 0x786acb8f), 7, 0, 0x676f02d9, 14, 0xa62884aa);
    NextSecond(block, 15, Chain(0x786acb8f, 0xa62884aa, 0x9f47e4f8, 0x790a77fb), 12, 0, 0x8d2a4c8a, 20, 0x726342d3);
  }

  lemma {:induction false} AbcThird(block: seq<Byte>, i: nat)
    requires i == 32 && Words(block, AbcWord) && At(block, i, Chain(0x790a77fb, 0x726342d3, 0xa62884aa, 0x9f47e4f8))
    ensures At(block, i + 16, Chain(0x7f2e507b, 0x7beb9700, 0x8fae6399, 0x99d9679d))
  {
    hide At, Load;
    NextThird(block, 0, Chain(0x790a77fb, 0x726342d3, 0xa62884aa, 0x9f47e4f8), 5, 0, 0xfffa3942, 4, 0xb3707ebf);
    NextThird(block, 1, Chain(0x9f47e4f8, 0xb3707ebf, 0x726342d3, 0xa62884aa), 8, 0, 0x8771f681, 11, 0x60127b2e);
    NextThird(block, 2, Chain(0xa62884aa, 0x60127b2e, 0xb3707ebf, 0x726342d3), 11, 0, 0x6d9d6122, 16, 0x8d212ff5);
    NextThird(block, 3, Chain(0x726342d3, 0x8d212ff5, 0x60127b2e, 0xb3707ebf), 14, 0x18, 0xfde5380c, 23, 0x3b0875c7);
    NextThird(block, 4, Chain(0xb3707ebf, 0x3b0875c7, 0x8d212ff5, 0x60127b2e), 1, 0, 0xa4beea44, 4, 0x21b117b9);
    NextThird(block, 5, Chain(0x60127b2e, 0x21b117b9, 0x3b0875c7, 0x8d212ff5), 4, 0, 0x4bdecfa9, 11, 0x6e7429d5);
    NextThird(block, 6, Chain(0x8d212ff5, 0x6e7429d5, 0x21b117b9, 0x3b0875c7), 7, 0, 0xf6bb4b60, 16, 0x3575227e);
    NextThird(block, 7, Chain(0x3b0875c7, 0x3575227e, 0x6e7429d5, 0x21b117b9), 10, 0, 0xbebfbc70, 23, 0x5a2f5ea5);
    NextThird(block, 8, Chain(0x21b117b9, 0x5a2f5ea5, 0x3575227e, 0x6e7429d5), 13, 0, 0x289b7ec6, 4, 0x11de1779);
    NextThird(block, 9, Chain(0x6e7429d5, 0x11de1779, 0x5a2f5ea5, 0x3575227e), 0, 0x80636261, 0xeaa127fa, 11,
      0xfadcaa38);
    NextThird(block, 10, Chain(0x3575227e, 0xfadcaa38, 0x11de1779, 0x5a2f5ea5), 3, 0, 0xd4ef3085, 16, 0x31c465ca);
    NextThird(block, 11, Chain(0x5a2f5ea5, 0x31c465ca, 0xfadcaa38, 0x11de1779), 6, 0, 0x04881d05, 23, 0x4c6124f4);
    NextThird(block, 12, Chain(0x11de1779, 0x4c6124f4, 0x31c465ca, 0xfadcaa38), 9, 0, 0xd9d4d039, 4, 0x7f2e507b);
    NextThird(block, 13, Chain(0xfadcaa38, 0x7f2e507b, 0x4c6124f4, 0x31c465ca), 12, 0, 0xe6db99e5, 11, 0x99d9679d);
    NextThird(block, 14, Chain(0x31c465ca, 0x99d9679d, 0x7f2e507b, 0x4c6124f4), 15, 0, 0x1fa27cf8, 16, 0x8fae6399);
    NextThird(block, 15, Chain(0x4c6124f4, 0x8fae6399, 0x99d9679d, 0x7f2e507b), 2, 0, 0xc4ac5665, 23, 0x7beb9700);
  }

  lemma {:induction false} AbcFourth(block: seq<Byte>, i: nat)
    requires i == 48 && Words(block, AbcWord) && At(block, i, Chain(0x7f2e507b, 0x7beb9700, 0x8fae6399, 0x99d9679d))
    ensures At(block, i + 16, Chain(0x310ade8f, 0xc08226b3, 0xe484b9d8, 0x624d8cb2))
  {
    hide At, Load;
    NextFourth(block, 0, Chain(0x7f2e507b, 0x7beb9700, 0x8fae6399, 0x99d9679d), 0, 0x80636261, 0xf4292244, 6,
      0x7b201df8);
    NextFourth(block, 1, Chain(0x99d9679d, 0x7b201df8, 0x7beb9700, 0x8fae6399), 7, 0, 0x432aff97, 10, 0xf4e8e96e);
    NextFourth(block, 2, Chain(0x8fae6399, 0xf4e8e96e, 0x7b201df8, 0x7beb9700), 14, 0x18, 0xab9423a7, 15, 0xb298cefd);
    NextFourth(block, 3, Chain(0x7beb9700, 0xb298cefd, 0xf4e8e96e, 0x7b201df8), 5, 0, 0xfc93a039, 21, 0x8bf025c4);
    NextFourth(block, 4, Chain(0x7b201df8, 0x8bf025c4, 0xb298cefd, 0xf4e8e96e), 12, 0, 0x655b59c3, 6, 0x06cc5e8a);
    NextFourth(block, 5, Chain(0xf4e8e96e, 0x06cc5e8a, 0x8bf025c4, 0xb298cefd), 3, 0, 0x8f0ccc92, 10, 0x5b0d97aa);
    NextFourth(block, 6, Chain(0xb298cefd, 0x5b0d97aa, 0x06cc5e8a, 0x8bf025c4), 10, 0, 0xffeff47d, 15, 0x7d632dd0);
    NextFourth(block, 7, Chain(0x8bf025c4, 0x7d632dd0, 0x5b0d97aa, 0x06cc5e8a), 1, 0, 0x85845dd1, 21, 0x3bfa2c27);
    NextFourth(block, 8, Chain(0x06cc5e8a, 0x3bfa2c27, 0x7d632dd0, 0x5b0d97aa), 8, 0, 0x6fa87e4f, 6, 0x7f81cc35);
    NextFourth(block, 9, Chain(0x5b0d97aa, 0x7f81cc35, 0x3bfa2c27, 0x7d632dd0), 15, 0, 0xfe2ce6e0, 10, 0x094454ab);
    NextFourth(block, 10, Chain(0x7d632dd0, 0x094454ab, 0x7f81cc35, 0x3bfa2c27), 6, 0, 0xa3014314, 15, 0x4f9dbe3f);
    NextFourth(block, 11, Chain(0x3bfa2c27, 0x4f9dbe3f, 0x094454ab, 0x7f81cc35), 13, 0, 0x4e0811a1, 21, 0x7327d604);
    NextFourth(block, 12, Chain(0x7f81cc35, 0x7327d604, 0x4f9dbe3f, 0x094454ab), 4, 0, 0xf7537e82, 6, 0x310ade8f);
    NextFourth(block, 13, Chain(0x094454ab, 0x310ade8f, 0x7327d604, 0x4f9dbe3f), 11, 0, 0xbd3af235, 10, 0x624d8cb2);
    NextFourth(block, 14, Chain(0x4f9dbe3f, 0x624d8cb2, 0x310ade8f, 0x7327d604), 2, 0, 0x2ad7d2bb, 15, 0xe484b9d8);
    NextFourth(block, 15, Chain(0x7327d604, 0xe484b9d8, 0x624d8cb2, 0x310ade8f), 9, 0, 0xeb86d391, 21, 0xc08226b3);
  }

  lemma {:induction false} AbcBlock()
    ensures |Padded([0x61, 0x62, 0x63])| == 64 && Words(Padded([0x61, 0x62, 0x63]), AbcWord)
  {
    PaddedBytes([0x61, 0x62, 0x63]);
    KnownWords();
    hide Padded, FourOctets;
  }

  lemma AbcSum()
    ensures Plus(INITIAL, Chain(0x310ade8f, 0xc08226b3, 0xe484b9d8, 0x624d8cb2)) ==
            Chain(0x98500190, 0xb04fd23c, 0x7d3f96d6, 0x727fe128)
  {
  }

  /** The digest of "abc". */
  lemma {:induction false} AbcDigest()
    ensures Digest([0x61, 0x62, 0x63]) ==
            [0x90, 0x01, 0x50, 0x98, 0x3c, 0xd2, 0x4f, 0xb0, 0xd6, 0x96, 0x3f, 0x7d, 0x28, 0xe1, 0x7f, 0x72]
  {
    hide At, Words, Digest, Padded, Out, Plus;
    var block := Padded([0x61, 0x62, 0x63]);
    AbcBlock();
    Start(block);
    AbcFirst(block, 0);
    AbcSecond(block, 16);
    AbcThird(block, 32);
    AbcFourth(block, 48);
    OneBlock([0x61, 0x62, 0x63], 64, Chain(0x310ade8f, 0xc08226b3, 0xe484b9d8, 0x624d8cb2));
    AbcSum();
    OutBytes(Chain(0x98500190, 0xb04fd23c, 0x7d3f96d6, 0x727fe128), 0x98500190, 0xb04fd23c, 0x7d3f96d6, 0x727fe128);
  }

}
