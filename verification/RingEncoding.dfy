/** Level 3 post-processing: every rank computes its encoded file while the data blocks travel around the group. */
module RingEncoding {
  import opened Arithmetic
  import opened Words
  import opened Fields
  import opened LinearAlgebra

  /** Word `x` of every rank's block. */
  function Column(blocks: seq<seq<Word>>, x: nat): (c: Row)
    requires forall i :: 0 <= i < |blocks| ==> x < |blocks[i]|
    ensures |c| == |blocks| && forall i :: 0 <= i < |blocks| ==> c[i] == blocks[i][x]
  {
    seq(|blocks|, i requires 0 <= i < |blocks| => blocks[i][x])
  }

  ghost predicate Rectangular(blocks: seq<seq<Word>>, k: nat, n: nat) {
    |blocks| == k && forall i :: 0 <= i < k ==> |blocks[i]| == n
  }

  /** The rank a message sent in step `cnt` goes to: one further to the left in every step. */
  function Destination(k: nat, rank: nat, cnt: nat): (d: nat)
    requires rank < k
    ensures d < k
  {
    if cnt == 0 then (rank + k - 1) % k else (Destination(k, rank, cnt - 1) + k - 1) % k
  }

  /** The rank whose block is multiplied in step `cnt`. */
  function SourceOf(k: nat, rank: nat, cnt: nat): (i: nat)
    requires rank < k
    ensures i < k
  {
    if cnt == 0 then rank else (SourceOf(k, rank, cnt - 1) + 1) % k
  }

  lemma {:induction false} DestinationIs(k: nat, rank: nat, cnt: nat)
    requires rank < k && cnt < k
    ensures Destination(k, rank, cnt) == if cnt + 1 <= rank then rank - cnt - 1 else rank + k - cnt - 1
  {
    if cnt == 0 {
      WrapsOnce(rank + k - 1, k);
    } else {
      DestinationIs(k, rank, cnt - 1);
      WrapsOnce(Destination(k, rank, cnt - 1) + k - 1, k);
    }
  }

  lemma {:induction false} SourceIs(k: nat, rank: nat, cnt: nat)
    requires rank < k && cnt <= k
    ensures SourceOf(k, rank, cnt) == if rank + cnt < k then rank + cnt else rank + cnt - k
  {
    if cnt > 0 {
      SourceIs(k, rank, cnt - 1);
      WrapsOnce(SourceOf(k, rank, cnt - 1) + 1, k);
    }
  }

  /** In every step the sends and receives of the group pair up: `s` sends to `r` exactly when `r` receives from `s`. */
  lemma ExchangePairsUp(k: nat, r: nat, s: nat, cnt: nat)
    requires r < k && s < k && cnt + 1 < k
    ensures Destination(k, s, cnt) == r <==> SourceOf(k, r, cnt + 1) == s
  {
    DestinationIs(k, s, cnt);
    SourceIs(k, r, cnt + 1);
  }

  /** Over the k - 1 exchange steps every rank hears from every other rank, and once. */
  lemma EveryBlockArrivesOnce(k: nat, r: nat, s: nat)
    requires r < k && s < k
    ensures exists cnt :: 0 <= cnt < k && SourceOf(k, r, cnt) == s
    ensures forall cnt, cnt' :: 0 <= cnt < cnt' < k ==> SourceOf(k, r, cnt) != SourceOf(k, r, cnt')
  {
    var cnt := if r <= s then s - r else s + k - r;
    SourceIs(k, r, cnt);
    forall c, c' | 0 <= c < c' < k ensures SourceOf(k, r, c) != SourceOf(k, r, c') {
      SourceIs(k, r, c);
      SourceIs(k, r, c');
    }
  }

  /** The sum of the first `cnt` products in the order in which the blocks arrive. */
  function RingSum(f: Field, u: Row, v: Row, rank: nat, cnt: nat): Word
    requires rank < |u| == |v|
  {
    if cnt == 0 then ZERO
    else
      var i := SourceOf(|u|, rank, cnt - 1);
      f.add(RingSum(f, u, v, rank, cnt - 1), f.mul(u[i], v[i]))
  }

  /** Halfway round the ring the sum is a difference of two dot products, and differences are sums here. */
  lemma {:induction false} RingSumIs(f: Field, u: Row, v: Row, rank: nat, cnt: nat)
    requires f.IsField() && rank < |u| == |v| && cnt <= |u|
    ensures var k := |u|;
            RingSum(f, u, v, rank, cnt) ==
            if rank + cnt <= k then f.add(Dot(f, u, v, rank + cnt), Dot(f, u, v, rank))
            else f.add(f.add(Dot(f, u, v, k), Dot(f, u, v, rank)), Dot(f, u, v, rank + cnt - k))
  {
    var k := |u|;
    if cnt == 0 {
      AddZero(f, Dot(f, u, v, rank));
    } else {
      RingSumIs(f, u, v, rank, cnt - 1);
      SourceIs(k, rank, cnt - 1);
      var i := SourceOf(k, rank, cnt - 1);
      RingSumNext(f, f.mul(u[i], v[i]), Dot(f, u, v, i), Dot(f, u, v, rank),
                  f.add(Dot(f, u, v, k), Dot(f, u, v, rank)));
      assert Dot(f, u, v, i + 1) == f.add(Dot(f, u, v, i), f.mul(u[i], v[i]));
      if rank + cnt - 1 == k {
        assert Dot(f, u, v, 0) == ZERO;
      }
    }
  }

  lemma RingSumNext(f: Field, term: Word, sum: Word, base: Word, turn: Word)
    requires f.IsField()
    ensures f.add(f.add(sum, base), term) == f.add(f.add(sum, term), base)
    ensures f.add(f.add(turn, sum), term) == f.add(turn, f.add(sum, term))
    ensures f.add(turn, ZERO) == turn
  {
    AddZero(f, turn);
    assert f.AddAssociatesAt(turn, sum, term);
    assert f.AddAssociatesAt(sum, base, term) && f.AddAssociatesAt(sum, term, base) && f.AddCommutesAt(base, term);
  }

  /** Once round the ring, the sum is the whole row product, on every rank. */
  lemma {:induction false} RingSumIsDot(f: Field, u: Row, v: Row, rank: nat)
    requires f.IsField() && rank < |u| == |v|
    ensures RingSum(f, u, v, rank, |u|) == Dot(f, u, v, |u|)
  {
    RingSumIs(f, u, v, rank, |u|);
    if rank == 0 {
      AddZero(f, Dot(f, u, v, |u|));
    } else {
      AddCancels(f, Dot(f, u, v, |u|), Dot(f, u, v, rank));
    }
  }

  /**
   * Adds `c` times the received words to the coding words; the first contribution is copied over whatever the coding
   * buffer holds.
   */
  method Contribute(f: Field, c: Word, block: seq<Word>, coding: array<Word>, init: bool)
    requires f.IsField() && c != ZERO && |block| <= coding.Length
    modifies coding
    ensures forall x :: 0 <= x < |block| ==>
              coding[x] == f.add(if init then old(coding[x]) else ZERO, f.mul(c, block[x]))
  {
    for x := 0 to |block|
      invariant forall y :: 0 <= y < x ==>
                  coding[y] == f.add(if init then old(coding[y]) else ZERO, f.mul(c, block[y]))
      invariant forall y :: x <= y < coding.Length ==> coding[y] == old(coding[y])
    {
      MulOne(f, block[x]);
      AddZero(f, f.mul(c, block[x]));
      var product := if c == ONE then block[x] else f.mul(c, block[x]);
      coding[x] := if init then f.add(coding[x], product) else product;
    }
  }

  /** What rank `row` of the code makes of the padded files. */
  function Encoded(f: Field, row: Row, files: seq<seq<Word>>, n: nat): (e: seq<Word>)
    requires Rectangular(files, |row|, n)
    ensures |e| == n && forall x :: 0 <= x < n ==> e[x] == Dot(f, row, Column(files, x), |row|)
  {
    seq(n, x requires 0 <= x < n => Dot(f, row, Column(files, x), |row|))
  }

  function Slices(files: seq<seq<Word>>, lo: nat, hi: nat): (b: seq<seq<Word>>)
    requires lo <= hi && forall i :: 0 <= i < |files| ==> hi <= |files[i]|
    ensures |b| == |files| && forall i :: 0 <= i < |files| ==> b[i] == files[i][lo..hi]
  {
    seq(|files|, i requires 0 <= i < |files| => files[i][lo..hi])
  }

  /** Encoding works word by word, so a slice of the encoded file is the encoded slice. */
  lemma EncodedSlice(f: Field, row: Row, files: seq<seq<Word>>, n: nat, lo: nat, hi: nat)
    requires Rectangular(files, |row|, n) && lo <= hi <= n
    ensures Rectangular(Slices(files, lo, hi), |row|, hi - lo)
    ensures Encoded(f, row, Slices(files, lo, hi), hi - lo) == Encoded(f, row, files, n)[lo..hi]
  {
    forall x | 0 <= x < hi - lo
      ensures Column(Slices(files, lo, hi), x) == Column(files, lo + x)
    {
    }
  }
}
