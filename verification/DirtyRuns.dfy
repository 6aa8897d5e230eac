/** Which parts of a data chunk a differential checkpoint writes: the iterator over dirty runs, and the hash update. */
module DirtyRuns {
  import opened Arithmetic
  import opened BlockHashes
  import opened FileBytes

  /** A hash function for the content of a block. */
  type Hash = seq<Byte> -> Digest

  /** The bytes of block `i` of a chunk. */
  function Block(data: seq<Byte>, bs: nat, i: nat): seq<Byte>
    requires 0 < bs && i < NumHashes(|data|, bs)
  {
    BlockSizes(|data|, bs, i);
    var at := BlocksLength(i, bs);
    data[at..at + BlockSize(|data|, bs, i)]
  }

  /** Block `i` has to be written: its hash is not valid, or is not the hash of the present bytes. */
  predicate Changed(h: Hash, hashes: seq<DiffHash>, data: seq<Byte>, bs: nat, i: nat)
    requires 0 < bs && i < |hashes| == NumHashes(|data|, bs)
  {
    !hashes[i].isValid || hashes[i].digest != h(Block(data, bs, i))
  }

  /** Which blocks of a chunk have to be written. */
  function Flags(h: Hash, hashes: seq<DiffHash>, data: seq<Byte>, bs: nat): (r: seq<bool>)
    requires 0 < bs && |hashes| == NumHashes(|data|, bs)
    ensures |r| == |hashes| && forall i :: 0 <= i < |r| ==> r[i] == Changed(h, hashes, data, bs, i)
  {
    seq(|hashes|, i requires 0 <= i < |hashes| => Changed(h, hashes, data, bs, i))
  }

  /** A maximal stretch of blocks to write, from `first` up to `last`. */
  datatype Run = Run(first: nat, last: nat)

  /** The first index from `from` on whose flag is `flag`. */
  function Next(flags: seq<bool>, from: nat, flag: bool): (r: nat)
    requires from <= |flags|
    ensures from <= r <= |flags|
    ensures forall i :: from <= i < r ==> flags[i] != flag
    ensures r < |flags| ==> flags[r] == flag
    decreases |flags| - from
  {
    if from == |flags| || flags[from] == flag then from else Next(flags, from + 1, flag)
  }

  /** The runs from block `from` on. */
  function Runs(flags: seq<bool>, from: nat): seq<Run>
    requires from <= |flags|
    decreases |flags| - from
  {
    var first := Next(flags, from, true);
    if first == |flags| then []
    else
      var last := Next(flags, first, false);
      [Run(first, last)] + Runs(flags, last)
  }

  lemma {:induction false} RunsUnfold(flags: seq<bool>, from: nat)
    requires from <= |flags|
    ensures var first := Next(flags, from, true);
      if first == |flags| then Runs(flags, from) == []
      else (var last := Next(flags, first, false);
            first < last && Runs(flags, from) == [Run(first, last)] + Runs(flags, last))
  {
  }

  /** The runs lie in order, with a clean block between any two of them. */
  lemma {:induction false} RunsInOrder(flags: seq<bool>, from: nat)
    requires from <= |flags|
    ensures forall a :: 0 <= a < |Runs(flags, from)| ==>
      (var r := Runs(flags, from)[a]; from <= r.first < r.last <= |flags| && flags[r.first])
    ensures forall a, b :: 0 <= a < b < |Runs(flags, from)| ==> Runs(flags, from)[a].last < Runs(flags, from)[b].first
    decreases |flags| - from
  {
    var first := Next(flags, from, true);
    RunsUnfold(flags, from);
    if first < |flags| {
      var last := Next(flags, first, false);
      RunsInOrder(flags, last);
      hide Runs;
      var rest := Runs(flags, last);
      forall b | 0 <= b < |rest| ensures last < rest[b].first {
        assert flags[rest[b].first];
      }
    }
  }

  /** The runs cover exactly the flagged blocks. */
  lemma {:induction false} RunsCover(flags: seq<bool>, from: nat)
    requires from <= |flags|
    ensures forall a, i: nat :: 0 <= a < |Runs(flags, from)| && Within(Runs(flags, from)[a], i) && i < |flags| ==>
            flags[i]
    ensures forall i :: from <= i < |flags| && flags[i] ==> Covered(Runs(flags, from), i)
    decreases |flags| - from
  {
    var runs := Runs(flags, from);
    var first := Next(flags, from, true);
    RunsUnfold(flags, from);
    if first < |flags| {
      var last := Next(flags, first, false);
      RunsCover(flags, last);
      hide Runs;
      forall i | from <= i < |flags| && flags[i] ensures Covered(runs, i) {
        if i < last {
          assert Within(runs[0], i);
        } else {
          CoveredByRest(runs[0], Runs(flags, last), i);
        }
      }
    }
  }

  lemma {:induction false} CoveredByRest(r: Run, rest: seq<Run>, i: nat)
    requires Covered(rest, i)
    ensures Covered([r] + rest, i)
  {
    var m :| 0 <= m < |rest| && Within(rest[m], i);
    assert Within(([r] + rest)[m + 1], i);
  }

  /** The runs are in order with a clean block between any two of them, and cover exactly the flagged blocks. */
  lemma {:induction false} RunsAreExact(flags: seq<bool>, from: nat)
    requires from <= |flags|
    ensures forall r :: r in Runs(flags, from) ==> from <= r.first < r.last <= |flags|
    ensures forall r, i :: r in Runs(flags, from) && r.first <= i < r.last ==> flags[i]
    ensures forall i :: from <= i < |flags| && flags[i] ==> Covered(Runs(flags, from), i)
    ensures forall a, b :: 0 <= a < b < |Runs(flags, from)| ==> Runs(flags, from)[a].last < Runs(flags, from)[b].first
  {
    RunsInOrder(flags, from);
    RunsCover(flags, from);
    hide Runs, Covered;
    forall r, i | r in Runs(flags, from) && r.first <= i < r.last ensures flags[i] {
      assert Within(r, i);
    }
  }

  predicate Within(r: Run, i: nat) {
    r.first <= i < r.last
  }

  predicate Covered(runs: seq<Run>, i: nat) {
    exists m :: 0 <= m < |runs| && Within(runs[m], i)
  }

  // ------------------------------------------------------------------ checking one block

  /** The entries agree except perhaps in the dirty mark. */
  ghost predicate SameButDirty(hashes: seq<DiffHash>, marked: seq<DiffHash>) {
    |marked| == |hashes| && forall i :: 0 <= i < |hashes| ==> marked[i] == hashes[i].(dirty := marked[i].dirty)
  }

  /** A block is marked dirty exactly if its hash is valid but not that of the present bytes. */
  ghost predicate CheckedAt(h: Hash, hashes: seq<DiffHash>, data: seq<Byte>, bs: nat, i: nat)
    requires 0 < bs && i < |hashes| == NumHashes(|data|, bs)
  {
    hashes[i].dirty <==> hashes[i].isValid && Changed(h, hashes, data, bs, i)
  }

  ghost predicate CheckedUpTo(h: Hash, hashes: seq<DiffHash>, data: seq<Byte>, bs: nat, n: nat)
    requires 0 < bs && n <= |hashes| == NumHashes(|data|, bs)
  {
    forall i :: 0 <= i < n ==> CheckedAt(h, hashes, data, bs, i)
  }

  lemma {:induction false} SameFlags(h: Hash, hashes: seq<DiffHash>, marked: seq<DiffHash>, data: seq<Byte>, bs: nat)
    requires 0 < bs && |hashes| == NumHashes(|data|, bs) && SameButDirty(hashes, marked)
    ensures Flags(h, marked, data, bs) == Flags(h, hashes, data, bs)
  {
    hide Block, NumHashes, BlockSize;
  }

  /** 0 for a clean block, 1 for one to write, -1 past the last block; marks the block as it finds it. */
  method HashCmp(h: Hash, hashes: seq<DiffHash>, data: seq<Byte>, bs: nat, i: nat)
    returns (res: int, marked: seq<DiffHash>)
    requires 0 < bs && Tiles(hashes, |data|, bs) && i <= |hashes|
    ensures SameButDirty(hashes, marked) && Tiles(marked, |data|, bs)
    ensures forall m :: 0 <= m < |hashes| && m != i ==> marked[m] == hashes[m]
    ensures i == |hashes| ==> res == -1
    ensures i < |hashes| ==> res == (if Changed(h, hashes, data, bs, i) then 1 else 0)
    ensures i < |hashes| ==> CheckedAt(h, marked, data, bs, i)
  {
    hide Block, NumHashes;
    marked := hashes;
    if i == |hashes| {
      res := -1;
    } else if !hashes[i].isValid {
      res := 1;
    } else {
      var clean := h(Block(data, bs, i)) == hashes[i].digest;
      if clean {
        marked := hashes[i := hashes[i].(dirty := false)];
        res := 0;
      } else {
        marked := hashes[i := hashes[i].(dirty := true)];
        res := 1;
      }
    }
  }

  lemma {:induction false} StillChecked(h: Hash, hashes: seq<DiffHash>, marked: seq<DiffHash>, data: seq<Byte>, bs: nat,
                                        n: nat)
    requires 0 < bs && n <= |hashes| == NumHashes(|data|, bs) && SameButDirty(hashes, marked)
    requires CheckedUpTo(h, hashes, data, bs, n) && forall m :: 0 <= m < n ==> marked[m] == hashes[m]
    ensures CheckedUpTo(h, marked, data, bs, n)
  {
    hide Block, NumHashes, Changed;
    forall i | 0 <= i < n
      ensures CheckedAt(h, marked, data, bs, i)
    {
      assert CheckedAt(h, hashes, data, bs, i);
      SameFlags(h, hashes, marked, data, bs);
      assert Flags(h, hashes, data, bs)[i] == Flags(h, marked, data, bs)[i];
    }
  }

  // ------------------------------------------------------------------ the iterator

  /** A stretch of a chunk to write. */
  datatype Part = Part(offset: nat, size: nat)

  /** Where block `i` starts; the end of the chunk past the last block. */
  function StartOf(chunk: nat, bs: nat, i: nat): nat {
    if BlocksLength(i, bs) < chunk then BlocksLength(i, bs) else chunk
  }

  /** The blocks of a run without a gap. */
  lemma BlockStarts(chunk: nat, bs: nat, i: nat)
    requires 0 < bs && i < NumHashes(chunk, bs)
    ensures StartOf(chunk, bs, i) == BlocksLength(i, bs)
    ensures StartOf(chunk, bs, i + 1) == StartOf(chunk, bs, i) + BlockSize(chunk, bs, i)
  {
    hide NumHashes;
    BlockSizes(chunk, bs, i);
    BlocksLengthStep(i, bs);
    NumHashesCovers(chunk, bs);
  }

  function PartOf(r: Run, chunk: nat, bs: nat): Part
    requires r.first <= r.last
  {
    StartsInOrder(chunk, bs, r.first, r.last);
    Part(StartOf(chunk, bs, r.first), StartOf(chunk, bs, r.last) - StartOf(chunk, bs, r.first))
  }

  lemma StartsInOrder(chunk: nat, bs: nat, i: nat, j: nat)
    requires i <= j
    ensures StartOf(chunk, bs, i) <= StartOf(chunk, bs, j)
  {
    BlocksLengthMonotone(i, j, bs);
  }

  /** The parts of the chunk for the runs from block `from` on. */
  function Parts(flags: seq<bool>, from: nat, chunk: nat, bs: nat): seq<Part>
    requires from <= |flags|
    decreases |flags| - from
  {
    var first := Next(flags, from, true);
    if first == |flags| then []
    else
      var last := Next(flags, first, false);
      [PartOf(Run(first, last), chunk, bs)] + Parts(flags, last, chunk, bs)
  }

  /** Differential checkpointing has a hash array that fits the chunk. */
  ghost predicate Fits(conf: DcpConf, hashes: seq<DiffHash>, data: seq<Byte>) {
    conf.Dcp? ==> 0 < conf.blockSize && Tiles(hashes, |data|, conf.blockSize)
  }

  lemma {:induction false} PartsUnfold(flags: seq<bool>, from: nat, chunk: nat, bs: nat)
    requires from <= |flags|
    ensures var first := Next(flags, from, true);
            Parts(flags, from, chunk, bs) ==
            if first == |flags| then []
            else ([PartOf(Run(first, Next(flags, first, false)), chunk, bs)]
                  + Parts(flags, Next(flags, first, false), chunk, bs))
  {
  }

  lemma {:induction false} NoMoreParts(flags: seq<bool>, chunk: nat, bs: nat)
    ensures Parts(flags, |flags|, chunk, bs) == []
  {
  }

  lemma {:induction false} NextIs(flags: seq<bool>, from: nat, flag: bool, to: nat)
    requires from <= to <= |flags| && (to < |flags| ==> flags[to] == flag)
             && forall i :: from <= i < to ==> flags[i] != flag
    ensures Next(flags, from, flag) == to
  {
  }

  /** Moves to the next block to write, checking every block on the way. */
  method SkipClean(h: Hash, hashes: seq<DiffHash>, data: seq<Byte>, bs: nat, from: nat)
    returns (marked: seq<DiffHash>, to: nat)
    requires 0 < bs && Tiles(hashes, |data|, bs) && from <= |hashes| && CheckedUpTo(h, hashes, data, bs, from)
    ensures SameButDirty(hashes, marked) && Tiles(marked, |data|, bs)
            && to == Next(Flags(h, hashes, data, bs), from, true)
    ensures CheckedUpTo(h, marked, data, bs, to)
  {
    hide NumHashes, Changed, CheckedAt, CheckedUpTo, Next;
    ghost var flags := Flags(h, hashes, data, bs);
    to := from;
    var res;
    res, marked := HashCmp(h, hashes, data, bs, to);
    StillChecked(h, hashes, marked, data, bs, to);
    while res == 0
      invariant from <= to <= |hashes| && SameButDirty(hashes, marked) && Tiles(marked, |data|, bs)
      invariant CheckedUpTo(h, marked, data, bs, to)
      invariant res == if to == |hashes| then -1 else if flags[to] then 1 else 0
      invariant to < |hashes| ==> CheckedAt(h, marked, data, bs, to)
      invariant forall i :: from <= i < to ==> !flags[i]
      decreases |hashes| - to
    {
      OneMoreChecked(h, marked, data, bs, to);
      to := to + 1;
      ghost var before := marked;
      SameFlags(h, hashes, marked, data, bs);
      assert to < |hashes| ==> flags[to] == Flags(h, marked, data, bs)[to];
      res, marked := HashCmp(h, marked, data, bs, to);
      StillChecked(h, before, marked, data, bs, to);
    }
    NextIs(flags, from, true, to);
  }

  lemma {:induction false} OneMoreChecked(h: Hash, hashes: seq<DiffHash>, data: seq<Byte>, bs: nat, n: nat)
    requires 0 < bs && n < |hashes| == NumHashes(|data|, bs)
    requires CheckedUpTo(h, hashes, data, bs, n) && CheckedAt(h, hashes, data, bs, n)
    ensures CheckedUpTo(h, hashes, data, bs, n + 1)
  {
    hide CheckedAt;
  }

  /** Collects the blocks up to the next clean one. */
  method TakeDirty(h: Hash, hashes: seq<DiffHash>, data: seq<Byte>, bs: nat, from: nat)
    returns (marked: seq<DiffHash>, to: nat, size: nat)
    requires 0 < bs && Tiles(hashes, |data|, bs) && from < |hashes| && CheckedUpTo(h, hashes, data, bs, from)
    requires Changed(h, hashes, data, bs, from)
    ensures SameButDirty(hashes, marked) && Tiles(marked, |data|, bs)
            && to == Next(Flags(h, hashes, data, bs), from, false)
    ensures StartOf(|data|, bs, from) + size == StartOf(|data|, bs, to) && 0 < size
    ensures CheckedUpTo(h, marked, data, bs, to)
  {
    hide NumHashes, Changed, CheckedAt, CheckedUpTo, Next, BlockSize, StartOf;
    ghost var flags := Flags(h, hashes, data, bs);
    to, size := from, 0;
    var res;
    res, marked := HashCmp(h, hashes, data, bs, to);
    StillChecked(h, hashes, marked, data, bs, to);
    while res == 1
      invariant from <= to <= |hashes| && SameButDirty(hashes, marked) && Tiles(marked, |data|, bs)
      invariant CheckedUpTo(h, marked, data, bs, to)
      invariant res == if to == |hashes| then -1 else if flags[to] then 1 else 0
      invariant to < |hashes| ==> CheckedAt(h, marked, data, bs, to)
      invariant forall i :: from <= i < to ==> flags[i]
      invariant StartOf(|data|, bs, from) + size == StartOf(|data|, bs, to) && (from < to ==> 0 < size)
      decreases |hashes| - to
    {
      BlockStarts(|data|, bs, to);
      BlockSizes(|data|, bs, to);
      size := size + marked[to].blockSize;
      OneMoreChecked(h, marked, data, bs, to);
      to := to + 1;
      ghost var before := marked;
      SameFlags(h, hashes, marked, data, bs);
      assert to < |hashes| ==> flags[to] == Flags(h, marked, data, bs)[to];
      res, marked := HashCmp(h, marked, data, bs, to);
      StillChecked(h, before, marked, data, bs, to);
    }
    NextIs(flags, from, false, to);
  }

  /** The static variables of the iterator. */
  class DataChunkIterator {
    var init: bool
    var reset: bool
    var hashIdx: nat

    constructor ()
      ensures init
    {
      init, reset, hashIdx := true, false, 0;
    }

    /** The block the next call looks at first. */
    ghost function From(): nat
      reads this
    {
      if init then 0 else hashIdx
    }

    /** The iterator is at a block of this chunk, and past the last block when it has seen the end. */
    ghost predicate At(conf: DcpConf, hashes: seq<DiffHash>)
      reads this
    {
      conf.Dcp? ==> From() <= |hashes| && (!init && reset ==> hashIdx == |hashes|)
    }

    /** What the calls to come return before they report the end of the chunk. */
    ghost function Pending(h: Hash, conf: DcpConf, hashes: seq<DiffHash>, data: seq<Byte>): seq<Part>
      requires Fits(conf, hashes, data) && At(conf, hashes)
      reads this
    {
      if !init && reset then []
      else if conf.Dcp? then Parts(Flags(h, hashes, data, conf.blockSize), From(), |data|, conf.blockSize)
      else [Part(0, |data|)]
    }

    ghost predicate Checked(h: Hash, conf: DcpConf, hashes: seq<DiffHash>, data: seq<Byte>)
      requires Fits(conf, hashes, data) && At(conf, hashes)
      reads this
    {
      conf.Dcp? ==> CheckedUpTo(h, hashes, data, conf.blockSize, From())
    }

    /** The next part of the chunk to write, or the end of the chunk, after which the iterator is ready for another. */
    method ReceiveDataChunk(h: Hash, conf: DcpConf, hashes: seq<DiffHash>, data: seq<Byte>)
      returns (found: bool, part: Part, marked: seq<DiffHash>)
      requires Fits(conf, hashes, data) && At(conf, hashes) && Checked(h, conf, hashes, data)
      modifies this
      ensures SameButDirty(hashes, marked) && Fits(conf, marked, data) && At(conf, marked)
      ensures found <==> old(Pending(h, conf, hashes, data)) != []
      ensures found ==> [part] + Pending(h, conf, marked, data) == old(Pending(h, conf, hashes, data))
      ensures found ==> Checked(h, conf, marked, data)
      ensures !found ==> init && (conf.Dcp? ==> CheckedUpTo(h, marked, data, conf.blockSize, |marked|))
    {
      hide NumHashes, Changed, CheckedAt, CheckedUpTo, Flags, Parts, Next, StartOf, BlockSize;
      part, marked := Part(0, 0), hashes;
      if init {
        hashIdx, reset, init := 0, false, false;
      }
      if reset {
        init := true;
        return false, part, marked;
      }
      if conf.NoDcp? {
        reset := true;
        return true, Part(0, |data|), marked;
      }
      var bs := conf.blockSize;
      ghost var flags := Flags(h, hashes, data, bs);
      var from := hashIdx;
      marked, hashIdx := SkipClean(h, hashes, data, bs, hashIdx);
      PartsUnfold(flags, from, |data|, bs);
      SameFlags(h, hashes, marked, data, bs);
      if hashIdx == |hashes| {
        init := true;
        return false, part, marked;
      }
      assert flags[hashIdx] && Flags(h, marked, data, bs)[hashIdx];
      var first, size := hashIdx, 0;
      ghost var before := marked;
      BlockStarts(|data|, bs, first);
      marked, hashIdx, size := TakeDirty(h, marked, data, bs, hashIdx);
      SameFlags(h, before, marked, data, bs);
      part := Part(BlocksLength(first, bs), size);
      NoMoreParts(flags, |data|, bs);
      if hashIdx == |hashes| {
        reset := true;
      }
      found := true;
    }
  }

  // ------------------------------------------------------------------ after the checkpoint

  /** The hash array after the blocks were written: every hash is that of the present bytes. */
  function Refreshed(h: Hash, hashes: seq<DiffHash>, data: seq<Byte>, bs: nat): (r: seq<DiffHash>)
    requires 0 < bs && |hashes| == NumHashes(|data|, bs)
    ensures |r| == |hashes|
  {
    seq(|hashes|, i requires 0 <= i < |hashes| =>
      DiffHash(h(Block(data, bs, i)), hashes[i].blockSize, hashes[i].isValid && Changed(h, hashes, data, bs, i), true))
  }

  lemma RefreshedTiles(h: Hash, hashes: seq<DiffHash>, data: seq<Byte>, bs: nat)
    requires 0 < bs && Tiles(hashes, |data|, bs)
    ensures Tiles(Refreshed(h, hashes, data, bs), |data|, bs)
  {
    hide Block, NumHashes, BlockSize;
  }

  /** The hash array as the iterator leaves it: every block with a valid hash was checked. */
  function MarkedHashes(h: Hash, hashes: seq<DiffHash>, data: seq<Byte>, bs: nat): (r: seq<DiffHash>)
    requires 0 < bs && |hashes| == NumHashes(|data|, bs)
    ensures |r| == |hashes|
  {
    seq(|hashes|, i requires 0 <= i < |hashes| =>
      hashes[i].(dirty := hashes[i].isValid && Changed(h, hashes, data, bs, i)))
  }

  lemma {:induction false} CheckedIsMarked(h: Hash, hashes: seq<DiffHash>, marked: seq<DiffHash>, data: seq<Byte>,
                                           bs: nat)
    requires 0 < bs && |hashes| == NumHashes(|data|, bs) && SameButDirty(hashes, marked)
    requires CheckedUpTo(h, marked, data, bs, |marked|)
    ensures marked == MarkedHashes(h, hashes, data, bs)
  {
    hide Block, NumHashes;
    SameFlags(h, hashes, marked, data, bs);
    forall i | 0 <= i < |hashes|
      ensures marked[i] == MarkedHashes(h, hashes, data, bs)[i]
    {
      assert CheckedAt(h, marked, data, bs, i);
      assert Flags(h, hashes, data, bs)[i] == Flags(h, marked, data, bs)[i];
    }
  }

  /** Hashes the blocks that were dirty or had no valid hash.  Only chunks with content have blocks. */
  method UpdateDcpChanges(h: Hash, hashes: seq<DiffHash>, data: seq<Byte>, bs: nat, ghost before: seq<DiffHash>)
    returns (updated: seq<DiffHash>)
    requires 0 < bs && |before| == NumHashes(|data|, bs) && hashes == MarkedHashes(h, before, data, bs)
    ensures updated == Refreshed(h, before, data, bs)
  {
    hide Block, NumHashes, BlockSize;
    updated := hashes;
    for hashIdx := 0 to |hashes|
      invariant |updated| == |hashes|
      invariant forall i :: 0 <= i < hashIdx ==> updated[i] == Refreshed(h, before, data, bs)[i]
      invariant forall i :: hashIdx <= i < |hashes| ==> updated[i] == hashes[i]
    {
      if updated[hashIdx].dirty || !updated[hashIdx].isValid {
        updated := updated[hashIdx := updated[hashIdx].(digest := h(Block(data, bs, hashIdx)), isValid := true)];
      }
    }
  }
}
