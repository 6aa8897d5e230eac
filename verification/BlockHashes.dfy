/** The hash array of a data chunk: one entry per block, resized with the chunk. */
module BlockHashes {
  import opened Arithmetic

  type Digest = nat

  /** Whether and with which block size differential checkpointing keeps hashes. */
  datatype DcpConf = NoDcp | Dcp(blockSize: nat)

  /** What differential checkpointing knows about one block. */
  datatype DiffHash = DiffHash(digest: Digest, blockSize: nat, dirty: bool, isValid: bool)

  /** The number of blocks of a chunk, the last of which may be short. */
  function NumHashes(chunk: nat, bs: nat): nat
    requires 0 < bs
    decreases chunk
  {
    if chunk == 0 then 0 else if chunk <= bs then 1 else 1 + NumHashes(chunk - bs, bs)
  }

  /** The blocks cover the chunk, and each of them holds at least one byte of it. */
  lemma {:induction false} NumHashesCovers(chunk: nat, bs: nat)
    requires 0 < bs
    ensures var n := NumHashes(chunk, bs);
            chunk <= BlocksLength(n, bs) && (0 < n ==> BlocksLength(n - 1, bs) < chunk) && (n == 0 <==> chunk == 0)
    decreases chunk
  {
    if bs < chunk {
      NumHashesCovers(chunk - bs, bs);
      var n := NumHashes(chunk - bs, bs);
      BlocksLengthStep(n, bs);
      BlocksLengthStep(n - 1, bs);
    } else {
      BlocksLengthStep(0, bs);
    }
  }

  /** The number of blocks is the only one that covers the chunk so. */
  lemma NumHashesUnique(chunk: nat, bs: nat, n: nat)
    requires 0 < bs && chunk <= BlocksLength(n, bs) && (0 < n ==> BlocksLength(n - 1, bs) < chunk)
    ensures n == NumHashes(chunk, bs)
  {
    NumHashesCovers(chunk, bs);
    var m := NumHashes(chunk, bs);
    if n < m {
      BlocksLengthMonotone(n, m - 1, bs);
    } else if m < n {
      BlocksLengthMonotone(m, n - 1, bs);
    }
  }

  /** Computes the number of blocks by one division. */
  method CalcNumHashes(chunk: nat, bs: nat) returns (n: nat)
    requires 0 < bs
    ensures n == NumHashes(chunk, bs)
  {
    var q, r := chunk / bs, chunk % bs;
    WholeBlocks(chunk, bs);
    hide *;
    n := if r == 0 then q else q + 1;
    BlocksLengthStep(q, bs);
    if 0 < q {
      BlocksLengthStep(q - 1, bs);
    }
    NumHashesUnique(chunk, bs, n);
  }

  lemma {:induction false} NumHashesMonotone(small: nat, large: nat, bs: nat)
    requires 0 < bs && small <= large
    ensures NumHashes(small, bs) <= NumHashes(large, bs)
    decreases small
  {
    if bs < small {
      NumHashesMonotone(small - bs, large - bs, bs);
    }
  }

  /** The size of block `i`: the block size, except for a short last block. */
  function BlockSize(chunk: nat, bs: nat, i: nat): nat {
    var pos := BlocksLength(i, bs);
    if pos + bs < chunk then bs else if pos < chunk then chunk - pos else 0
  }

  lemma {:induction false} BlockSizes(chunk: nat, bs: nat, i: nat)
    requires 0 < bs && i < NumHashes(chunk, bs)
    ensures BlocksLength(i, bs) + BlockSize(chunk, bs, i) <= chunk && 0 < BlockSize(chunk, bs, i) <= bs
    ensures i + 1 < NumHashes(chunk, bs) ==> BlockSize(chunk, bs, i) == bs
    ensures i + 1 == NumHashes(chunk, bs) ==> BlocksLength(i, bs) + BlockSize(chunk, bs, i) == chunk
  {
    NumHashesCovers(chunk, bs);
    BlocksLengthStep(i, bs);
    BlocksLengthMonotone(i, NumHashes(chunk, bs) - 1, bs);
  }

  /** The entries describe the blocks of a chunk of this size; only valid ones are marked dirty. */
  ghost predicate Tiles(hashes: seq<DiffHash>, chunk: nat, bs: nat)
    requires 0 < bs
  {
    && |hashes| == NumHashes(chunk, bs)
    && forall i :: 0 <= i < |hashes| ==>
         hashes[i].blockSize == BlockSize(chunk, bs, i) && (hashes[i].dirty ==> hashes[i].isValid)
  }

  function Invalid(digest: Digest, size: nat): DiffHash {
    DiffHash(digest, size, false, false)
  }

  /** The old array with the entries from `keep` on resized and invalid. */
  function Rehashed(prev: seq<DiffHash>, keep: nat, chunk: nat, bs: nat): (r: seq<DiffHash>)
    requires 0 < bs && keep <= |prev|
    ensures |r| == NumHashes(chunk, bs)
    ensures forall i :: 0 <= i < |r| ==>
              r[i] == if i < keep then prev[i]
                else Invalid(if i < |prev| then prev[i].digest else 0, BlockSize(chunk, bs, i))
  {
    seq(NumHashes(chunk, bs), i requires 0 <= i =>
      if i < keep then prev[i] else Invalid(if i < |prev| then prev[i].digest else 0, BlockSize(chunk, bs, i)))
  }

  function Fresh(chunk: nat, bs: nat): seq<DiffHash>
    requires 0 < bs
  {
    Rehashed([], 0, chunk, bs)
  }

  function Collapsed(prev: seq<DiffHash>, chunk: nat, bs: nat): seq<DiffHash>
    requires 0 < bs && 0 < NumHashes(chunk, bs) <= |prev|
  {
    var n := NumHashes(chunk, bs);
    Rehashed(prev, if n != |prev| && BlockSize(chunk, bs, n - 1) == bs then n else n - 1, chunk, bs)
  }

  function Expanded(prev: seq<DiffHash>, chunk: nat, bs: nat): seq<DiffHash>
    requires 0 < bs && 0 < |prev|
  {
    Rehashed(prev, |prev| - 1, chunk, bs)
  }

  /**
   * Shrinking: an entry stays valid exactly when its block keeps its size, and a valid entry is the old one.
   */
  lemma {:induction false} CollapseIsExact(prev: seq<DiffHash>, was: nat, chunk: nat, bs: nat)
    requires 0 < bs && 0 < chunk < was && Tiles(prev, was, bs)
    ensures 0 < NumHashes(chunk, bs) <= |prev|
    ensures Tiles(Collapsed(prev, chunk, bs), chunk, bs)
    ensures forall i :: 0 <= i < NumHashes(chunk, bs) ==>
              (Collapsed(prev, chunk, bs)[i].isValid <==>
               prev[i].isValid && BlockSize(chunk, bs, i) == BlockSize(was, bs, i))
    ensures forall i :: 0 <= i < NumHashes(chunk, bs) && Collapsed(prev, chunk, bs)[i].isValid ==>
              Collapsed(prev, chunk, bs)[i] == prev[i]
  {
    NumHashesMonotone(chunk, was, bs);
    NumHashesCovers(chunk, bs);
    forall i | 0 <= i < NumHashes(chunk, bs)
      ensures i + 1 < NumHashes(chunk, bs) ==> BlockSize(chunk, bs, i) == BlockSize(was, bs, i) == bs
      ensures i + 1 == NumHashes(chunk, bs) < |prev| ==> BlockSize(was, bs, i) == bs
      ensures i + 1 == NumHashes(chunk, bs) == |prev| ==> BlockSize(chunk, bs, i) < BlockSize(was, bs, i)
    {
      BlockSizes(chunk, bs, i);
      BlockSizes(was, bs, i);
    }
  }

  /**
   * Growing: the entries before the last one stay as they are, all others are invalid.  At most one block is
   * invalidated although it keeps its size, the old last one when it was full.
   */
  lemma {:induction false} ExpandIsConservative(prev: seq<DiffHash>, was: nat, chunk: nat, bs: nat)
    requires 0 < bs && 0 < was < chunk && Tiles(prev, was, bs)
    ensures 0 < |prev| <= NumHashes(chunk, bs)
    ensures Tiles(Expanded(prev, chunk, bs), chunk, bs)
    ensures forall i :: 0 <= i < NumHashes(chunk, bs) ==>
              (Expanded(prev, chunk, bs)[i].isValid <==> i < |prev| - 1 && prev[i].isValid)
    ensures forall i :: 0 <= i < NumHashes(chunk, bs) && Expanded(prev, chunk, bs)[i].isValid ==>
              Expanded(prev, chunk, bs)[i] == prev[i]
    ensures forall i :: 0 <= i < |prev| - 1 ==> BlockSize(chunk, bs, i) == BlockSize(was, bs, i)
  {
    NumHashesMonotone(was, chunk, bs);
    NumHashesCovers(was, bs);
    forall i | 0 <= i < |prev| - 1
      ensures BlockSize(chunk, bs, i) == BlockSize(was, bs, i) == bs
    {
      BlockSizes(was, bs, i);
      BlockSizes(chunk, bs, i);
    }
  }

  lemma FreshTiles(chunk: nat, bs: nat)
    requires 0 < bs
    ensures Tiles(Fresh(chunk, bs), chunk, bs)
            && forall i :: 0 <= i < |Fresh(chunk, bs)| ==> !Fresh(chunk, bs)[i].isValid
  {
  }

  /** The size the loops compute for the next block, and where the block after it starts. */
  lemma LoopBlock(chunk: nat, bs: nat, i: nat)
    requires 0 < bs && i < NumHashes(chunk, bs)
    ensures var pos := BlocksLength(i, bs);
            pos < chunk && BlockSize(chunk, bs, i) == if chunk - pos > bs then bs else chunk - pos
    ensures i + 1 < NumHashes(chunk, bs) ==> BlocksLength(i, bs) + BlockSize(chunk, bs, i) == BlocksLength(i + 1, bs)
  {
    BlockSizes(chunk, bs, i);
    BlocksLengthStep(i, bs);
  }

  method InitBlockHashArray(chunk: nat, bs: nat) returns (hashes: seq<DiffHash>)
    requires 0 < bs
    ensures hashes == Fresh(chunk, bs)
  {
    hide NumHashes, BlockSize;
    var nbHashes := CalcNumHashes(chunk, bs);
    var pos := 0;
    hashes := [];
    BlocksLengthStep(0, bs);
    for hashIdx := 0 to nbHashes
      invariant hashIdx < nbHashes ==> pos == BlocksLength(hashIdx, bs)
      invariant hashes == Fresh(chunk, bs)[..hashIdx]
    {
      LoopBlock(chunk, bs, hashIdx);
      var hashBlockSize := if chunk - pos > bs then bs else chunk - pos;
      hashes := hashes + [DiffHash(0, hashBlockSize, false, false)];
      pos := pos + hashBlockSize;
    }
  }

  method CollapseBlockHashArray(prev: seq<DiffHash>, ghost was: nat, chunk: nat, bs: nat)
    returns (hashes: seq<DiffHash>)
    requires 0 < bs && 0 < chunk < was && Tiles(prev, was, bs)
    ensures 0 < NumHashes(chunk, bs) <= |prev| && hashes == Collapsed(prev, chunk, bs)
  {
    hide NumHashes, BlockSize;
    NumHashesMonotone(chunk, was, bs);
    NumHashesCovers(chunk, bs);
    BlockSizes(was, bs, NumHashes(chunk, bs) - 1);
    var nbHashes := CalcNumHashes(chunk, bs);
    var pos := 0;
    var changeSize, lastIdx := nbHashes != |prev|, nbHashes - 1;
    hashes := prev[..nbHashes];
    BlocksLengthStep(0, bs);
    for hashIdx := 0 to nbHashes
      invariant |hashes| == nbHashes
      invariant hashIdx < nbHashes ==> pos == BlocksLength(hashIdx, bs)
      invariant forall i :: 0 <= i < hashIdx ==> hashes[i] == Collapsed(prev, chunk, bs)[i]
      invariant forall i :: hashIdx <= i < nbHashes ==> hashes[i] == prev[i]
    {
      LoopBlock(chunk, bs, hashIdx);
      var hashBlockSize := if chunk - pos > bs then bs else chunk - pos;
      if hashIdx == lastIdx {
        var h := hashes[hashIdx].(blockSize := hashBlockSize);
        if h.blockSize < bs && changeSize {
          h := h.(isValid := false, dirty := false);
        } else if !changeSize {
          h := h.(isValid := false, dirty := false);
        }
        hashes := hashes[hashIdx := h];
      }
      pos := pos + hashBlockSize;
    }
  }

  method ExpandBlockHashArray(prev: seq<DiffHash>, chunk: nat, bs: nat) returns (hashes: seq<DiffHash>)
    requires 0 < bs && 0 < |prev| <= NumHashes(chunk, bs)
    ensures hashes == Expanded(prev, chunk, bs)
  {
    hide NumHashes, BlockSize;
    var nbHashesOld := |prev|;
    var nbHashes := CalcNumHashes(chunk, bs);
    var pos := 0;
    hashes := prev + seq(nbHashes - nbHashesOld, i => Invalid(0, 0));
    BlocksLengthStep(0, bs);
    for hashIdx := 0 to nbHashes
      invariant |hashes| == nbHashes
      invariant hashIdx < nbHashes ==> pos == BlocksLength(hashIdx, bs)
      invariant forall i :: 0 <= i < hashIdx ==> hashes[i] == Expanded(prev, chunk, bs)[i]
      invariant forall i :: hashIdx <= i < nbHashes ==> hashes[i] == if i < nbHashesOld then prev[i] else Invalid(0, 0)
    {
      LoopBlock(chunk, bs, hashIdx);
      var hashBlockSize := if chunk - pos > bs then bs else chunk - pos;
      if hashIdx >= nbHashesOld - 1 {
        hashes := hashes[hashIdx := hashes[hashIdx].(isValid := false, dirty := false, blockSize := hashBlockSize)];
      }
      pos := pos + hashBlockSize;
    }
  }
}
