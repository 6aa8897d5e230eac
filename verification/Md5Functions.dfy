/** The basic functions of MD5, as the code computes them and as section 3.4 of RFC 1321 defines them. */
module BitIdentities {
  lemma Choose(x: bv32, y: bv32, z: bv32)
    ensures z ^ (x & (y ^ z)) == (x & y) | (!x & z)
  {
  }

  lemma SwappedChoose(x: bv32, y: bv32, z: bv32)
    ensures y ^ (z & (x ^ y)) == (x & z) | (y & !z)
  {
  }

  lemma XorRegroups(x: bv32, y: bv32, z: bv32)
    ensures x ^ (y ^ z) == (x ^ y) ^ z
  {
  }
}

module Md5Functions {
  import opened BitIdentities

  type Word = bv32

  /** Addition wraps around. */
  function Add(x: Word, y: Word): Word {
    x + y
  }

  function F(x: Word, y: Word, z: Word): Word {
    z ^ (x & (y ^ z))
  }

  function G(x: Word, y: Word, z: Word): Word {
    y ^ (z & (x ^ y))
  }

  function H(x: Word, y: Word, z: Word): Word {
    (x ^ y) ^ z
  }

  function H2(x: Word, y: Word, z: Word): Word {
    x ^ (y ^ z)
  }

  function I(x: Word, y: Word, z: Word): Word {
    y ^ (x | !z)
  }

  /** The definitions of section 3.4 of RFC 1321. */
  function RfcF(x: Word, y: Word, z: Word): Word {
    (x & y) | (!x & z)
  }

  function RfcG(x: Word, y: Word, z: Word): Word {
    (x & z) | (y & !z)
  }

  function RfcH(x: Word, y: Word, z: Word): Word {
    x ^ y ^ z
  }

  function RfcI(x: Word, y: Word, z: Word): Word {
    y ^ (x | !z)
  }

  /** The rewritten functions are those that the standard defines. */
  lemma ChooseIsRfc(x: Word, y: Word, z: Word)
    ensures F(x, y, z) == RfcF(x, y, z)
  {
    Choose(x, y, z);
    var r := z ^ (x & (y ^ z));
    hide F, RfcF;
    UnfoldF(x, y, z, r);
    UnfoldRfcF(x, y, z, r);
  }

  lemma UnfoldF(x: Word, y: Word, z: Word, r: Word)
    requires r == z ^ (x & (y ^ z))
    ensures F(x, y, z) == r
  {
  }

  lemma UnfoldRfcF(x: Word, y: Word, z: Word, r: Word)
    requires r == (x & y) | (!x & z)
    ensures RfcF(x, y, z) == r
  {
  }

  lemma SwappedChooseIsRfc(x: Word, y: Word, z: Word)
    ensures G(x, y, z) == RfcG(x, y, z)
  {
    SwappedChoose(x, y, z);
    var r := y ^ (z & (x ^ y));
    hide G, RfcG;
    UnfoldG(x, y, z, r);
    UnfoldRfcG(x, y, z, r);
  }

  lemma UnfoldG(x: Word, y: Word, z: Word, r: Word)
    requires r == y ^ (z & (x ^ y))
    ensures G(x, y, z) == r
  {
  }

  lemma UnfoldRfcG(x: Word, y: Word, z: Word, r: Word)
    requires r == (x & z) | (y & !z)
    ensures RfcG(x, y, z) == r
  {
  }

  lemma XorsAreRfc(x: Word, y: Word, z: Word)
    ensures H(x, y, z) == RfcH(x, y, z) && H2(x, y, z) == RfcH(x, y, z) && I(x, y, z) == RfcI(x, y, z)
  {
    XorRegroups(x, y, z);
  }

  /** The function of step `i` in the code. */
  function Mix(i: nat, x: Word, y: Word, z: Word): Word {
    if i < 16 then F(x, y, z) else if i < 32 then G(x, y, z)
    else if i < 48 then (if i % 2 == 0 then H(x, y, z) else H2(x, y, z)) else I(x, y, z)
  }

  /** The function of step `i` in the standard. */
  function RfcMix(i: nat, x: Word, y: Word, z: Word): Word {
    if i < 16 then RfcF(x, y, z) else if i < 32 then RfcG(x, y, z) else if i < 48 then RfcH(x, y, z) else RfcI(x, y, z)
  }

  /** In every step the code's function, in its rewritten form, is the one that the standard prescribes. */
  lemma MixIsRfc(i: nat, x: Word, y: Word, z: Word)
    ensures Mix(i, x, y, z) == RfcMix(i, x, y, z)
  {
    hide F, G, H, H2, I, RfcF, RfcG, RfcH, RfcI;
    ChooseIsRfc(x, y, z);
    SwappedChooseIsRfc(x, y, z);
    XorsAreRfc(x, y, z);
  }
}
