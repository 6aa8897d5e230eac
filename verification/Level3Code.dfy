/** What the level 3 code is in terms of bits: the field, the matrix and the words of a file. */
module Level3Code {
  import opened FileBytes
  import opened Words
  import opened Fields
  import opened LinearAlgebra
  import opened Survivors
  import opened Level3
  import Gf16

  /** Sums are bitwise, 1 is the unit, and doubling reduces by 0x1100b; with the field laws this fixes all products. */
  lemma FieldIsStandard(a: Word, b: Word)
    ensures Gf16.Gf().add(a, b) == a ^ b && Gf16.Gf().mul(1, a) == a
    ensures Gf16.Gf().mul(a, 2) == (a << 1) ^ (if a & 0x8000 == 0 then 0 else 0x100b)
  {
    Gf16.XTimeIsMul(a);
    Gf16.OneTimes(a);
    Doubled(a);
    hide Gf16.Mul, Gf16.XTime;
  }

  lemma TopBit(a: Word)
    ensures a >> 15 == if a & 0x8000 == 0 then 0 else 1
  {
  }

  lemma Reduction(s: Word, carry: Word)
    requires carry == 0 || carry == 1
    ensures s ^ carry ^ (carry << 1) ^ (carry << 3) ^ (carry << 12) == s ^ (if carry == 0 then 0 else 0x100b)
  {
  }

  lemma Doubled(a: Word)
    ensures Gf16.XTime(a) == (a << 1) ^ (if a & 0x8000 == 0 then 0 else 0x100b)
  {
    TopBit(a);
    Reduction(a << 1, a >> 15);
  }

  /** Entry (i, j) of the encoding matrix is the inverse of `i xor (k + j)`. */
  lemma {:induction false} EntryIsInverse(f: Field, k: nat, i: nat, j: nat)
    requires f.IsField() && GroupSize(k) && i < k && j < k
    ensures f.add(Point(i), Point(k + j)) != ZERO
    ensures f.mul(f.add(Point(i), Point(k + j)), EncodingMatrix(f, k)[i][j]) == ONE
  {
    PointsDiffer(i, k + j);
    AddCancels(f, Point(i), Point(k + j));
    hide f.IsField, Point;
    PivotInverse(f, f.add(Point(i), Point(k + j)));
  }

  /** The words that stand for numbers have their binary digits. */
  lemma {:induction false} PointOfBits(i: nat, bit: Word)
    requires bit == 0 || bit == 1
    ensures Point(0) == 0 && Point(2 * i + if bit == 1 then 1 else 0) == (Point(i) << 1) | bit
  {
    PointSplit(2 * i + if bit == 1 then 1 else 0);
    hide Point;
    PointZero();
  }

  /** A word of a file has its first byte as the low one. */
  lemma WordOfBytes(file: seq<Byte>, x: nat)
    requires |file| % 2 == 0 && x < |file| / 2
    ensures Number(ToWords(file)[x]) == file[2 * x] as nat + 256 * file[2 * x + 1] as nat
  {
    NumbersAreWords(0, file[2 * x] as nat + 256 * file[2 * x + 1] as nat);
    hide Point, Number;
  }
}
