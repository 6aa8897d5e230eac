/** Facts about division and remainder that the block loops and the rings share. */
module Arithmetic {
  lemma WrapsOnce(x: nat, k: nat)
    requires x < 2 * k
    ensures x % k == if x < k then x else x - k
  {
    if x < k {
      assert x / k == 0;
    } else {
      assert x == k + (x - k);
      assert x / k == 1;
    }
  }

  lemma BlocksLengthStep(m: nat, bs: nat)
    ensures BlocksLength(m + 1, bs) == BlocksLength(m, bs) + bs
    ensures BlocksLength(0, bs) == 0
  {
  }

  /** The code multiplies where the blocks are counted here. */
  lemma {:induction false} BlocksLengthIsProduct(m: nat, bs: nat)
    ensures BlocksLength(m, bs) == m * bs
    decreases m
  {
    if m != 0 {
      BlocksLengthIsProduct(m - 1, bs);
    }
  }

  lemma {:induction false} BlocksLengthMonotone(m: nat, n: nat, bs: nat)
    requires m <= n
    ensures BlocksLength(m, bs) <= BlocksLength(n, bs)
    ensures m < n ==> BlocksLength(m, bs) + bs <= BlocksLength(n, bs)
    decreases n - m
  {
    if m < n {
      BlocksLengthMonotone(m + 1, n, bs);
      BlocksLengthStep(m, bs);
    }
  }

  /** Division splits off the whole blocks. */
  lemma {:induction false} WholeBlocks(size: nat, bs: nat)
    requires 0 < bs
    ensures BlocksLength(size / bs, bs) + size % bs == size
  {
    hide BlocksLength;
    BlocksLengthIsProduct(size / bs, bs);
  }

  /** Whole blocks lead from `pos` to `end`. */
  ghost predicate Reaches(pos: nat, end: nat, bs: nat) {
    exists m: nat :: end == pos + BlocksLength(m, bs)
  }

  /** The length of `m` blocks of `bs` bytes. */
  function BlocksLength(m: nat, bs: nat): nat {
    if m == 0 then 0 else BlocksLength(m - 1, bs) + bs
  }

  /** Before the end there is room for one more block. */
  lemma NextBlock(pos: nat, end: nat, bs: nat)
    requires Reaches(pos, end, bs) && pos < end
    ensures pos + bs <= end && Reaches(pos + bs, end, bs)
  {
    var m: nat :| end == pos + BlocksLength(m, bs);
    assert m != 0;
    assert BlocksLength(m, bs) == BlocksLength(m - 1, bs) + bs;
  }

  /** The smallest multiple of `bs` that covers `size`. */
  function PaddedSize(size: nat, bs: nat): (ps: nat)
    requires 0 < bs
    ensures size <= ps < size + bs && Reaches(0, ps, bs)
  {
    var ps := (size / bs) * bs;
    BlocksLengthIsProduct(size / bs, bs);
    WholeBlocks(size, bs);
    assert ps == BlocksLength(size / bs, bs) <= size < ps + bs;
    if ps < size then
      assert ps + bs == BlocksLength(size / bs + 1, bs);
      ps + bs
    else
      ps
  }

  /** A division with a proper remainder is the only one. */
  lemma {:induction false} QuotientIs(n: nat, d: nat, q: nat, r: nat)
    requires r < d && n == q * d + r
    ensures n / d == q && n % d == r
  {
    var q', r' := n / d, n % d;
    assert n == q' * d + r';
    if q < q' {
      AtLeast(d, q' - q);
      Difference(d, q', q);
    } else if q' < q {
      AtLeast(d, q - q');
      Difference(d, q, q');
    }
  }

  lemma {:induction false} Difference(n: nat, a: int, b: int)
    ensures n * (a - b) == n * a - n * b
  {
  }

  lemma {:induction false} AtLeast(n: nat, a: nat)
    requires 0 < a
    ensures n * a >= n
  {
    if a > 1 {
      AtLeast(n, a - 1);
      Difference(n, a, 1);
    }
  }
}
