/** Writing one data chunk into its container, whole or only where it changed. */
module ChunkWriter {
  import opened Arithmetic
  import opened BlockHashes
  import opened DirtyRuns
  import opened FileBytes

  /** The file after the parts of a chunk at `fptr` were written in order. */
  function WriteParts(file: File, fptr: nat, data: seq<Byte>, parts: seq<Part>): File
    requires PartsInside(parts, |data|)
    decreases |parts|
  {
    if parts == [] then file
    else
      assert PartInside(parts[0], |data|);
      RestInside(parts, |data|);
      WriteParts(WriteAt(file, fptr + parts[0].offset, Slice(data, parts[0])), fptr, data, parts[1..])
  }

  predicate PartInside(p: Part, size: nat) {
    p.offset + p.size <= size
  }

  ghost predicate PartsInside(parts: seq<Part>, size: nat) {
    forall m :: 0 <= m < |parts| ==> PartInside(parts[m], size)
  }

  lemma RestInside(parts: seq<Part>, size: nat)
    requires PartsInside(parts, size) && parts != []
    ensures PartsInside(parts[1..], size)
  {
    hide PartInside;
    forall m | 0 <= m < |parts| - 1
      ensures PartInside(parts[1..][m], size)
    {
      assert PartInside(parts[m + 1], size);
    }
  }

  function Slice(data: seq<Byte>, p: Part): (r: seq<Byte>)
    requires PartInside(p, |data|)
    ensures |r| == p.size
  {
    data[p.offset..p.offset + p.size]
  }

  /** The block that byte `x` of a chunk lies in. */
  function BlockOf(x: nat, bs: nat): nat
    requires 0 < bs
    decreases x
  {
    if x < bs then 0 else 1 + BlockOf(x - bs, bs)
  }

  lemma {:induction false} BlockOfLength(x: nat, bs: nat)
    requires 0 < bs
    ensures BlocksLength(BlockOf(x, bs), bs) <= x < BlocksLength(BlockOf(x, bs) + 1, bs)
    decreases x
  {
    if bs <= x {
      BlockOfLength(x - bs, bs);
    }
  }

  /** A byte lies between the starts of two blocks exactly if its block does. */
  lemma {:induction false} BlockBounds(x: nat, chunk: nat, bs: nat, i: nat)
    requires 0 < bs && x < chunk
    ensures BlockOf(x, bs) < NumHashes(chunk, bs)
    ensures StartOf(chunk, bs, i) <= x <==> i <= BlockOf(x, bs)
  {
    var q := BlockOf(x, bs);
    BlockOfLength(x, bs);
    NumHashesCovers(chunk, bs);
    if NumHashes(chunk, bs) <= q {
      BlocksLengthMonotone(NumHashes(chunk, bs), q, bs);
    }
    if i <= q {
      BlocksLengthMonotone(i, q, bs);
    } else {
      BlocksLengthStep(q, bs);
      BlocksLengthMonotone(q + 1, i, bs);
    }
  }

  /** Byte `x` of the chunk, from block `from` on, lies in a flagged block. */
  predicate InFlagged(flags: seq<bool>, from: nat, chunk: nat, bs: nat, x: nat)
    requires 0 < bs && |flags| == NumHashes(chunk, bs)
  {
    x < chunk && (
      BlockBounds(x, chunk, bs, 0);
      from <= BlockOf(x, bs) && flags[BlockOf(x, bs)]
    )
  }

  lemma {:induction false} PartsStayInside(flags: seq<bool>, from: nat, chunk: nat, bs: nat)
    requires from <= |flags|
    ensures PartsInside(Parts(flags, from, chunk, bs), chunk)
    decreases |flags| - from
  {
    hide StartOf, Parts;
    PartsUnfold(flags, from, chunk, bs);
    var first := Next(flags, from, true);
    if first < |flags| {
      var last := Next(flags, first, false);
      PartsStayInside(flags, last, chunk, bs);
      StartsBounded(chunk, bs, last);
      StartsInOrder(chunk, bs, first, last);
      var parts, rest := Parts(flags, from, chunk, bs), Parts(flags, last, chunk, bs);
      forall m | 0 <= m < |parts|
        ensures PartInside(parts[m], chunk)
      {
        if 0 < m {
          assert parts[m] == rest[m - 1];
          assert PartInside(rest[m - 1], chunk);
        }
      }
    }
  }

  lemma StartsBounded(chunk: nat, bs: nat, i: nat)
    ensures StartOf(chunk, bs, i) <= chunk
  {
  }

  lemma PartReplaces(file: File, fptr: nat, data: seq<Byte>, p: Part, at: nat)
    requires PartInside(p, |data|)
    ensures ByteAt(WriteAt(file, fptr + p.offset, Slice(data, p)), at) ==
            if fptr + p.offset <= at < fptr + p.offset + p.size then data[at - fptr] else ByteAt(file, at)
  {
    hide WriteAt, ByteAt;
  }

  lemma {:induction false} WritePartsStep(file: File, fptr: nat, data: seq<Byte>, p: Part, rest: seq<Part>)
    requires PartsInside([p] + rest, |data|)
    ensures PartInside(p, |data|) && PartsInside(rest, |data|)
    ensures WriteParts(file, fptr, data, [p] + rest) ==
            WriteParts(WriteAt(file, fptr + p.offset, Slice(data, p)), fptr, data, rest)
  {
    var parts := [p] + rest;
    assert PartInside(parts[0], |data|);
    RestInside(parts, |data|);
    assert parts[1..] == rest;
  }

  /** The flagged blocks from `from` on are those of the first run and those after it. */
  lemma {:induction false} FirstRunAndRest(flags: seq<bool>, from: nat, chunk: nat, bs: nat, x: nat)
    requires 0 < bs && from <= |flags| == NumHashes(chunk, bs)
    ensures var first := Next(flags, from, true);
            var last := Next(flags, first, false);
            InFlagged(flags, from, chunk, bs, x) <==>
            (x < chunk && StartOf(chunk, bs, first) <= x < StartOf(chunk, bs, last))
              || InFlagged(flags, last, chunk, bs, x)
  {
    hide StartOf, NumHashes, BlockOf, Next;
    var first := Next(flags, from, true);
    var last := Next(flags, first, false);
    if x < chunk {
      BlockBounds(x, chunk, bs, first);
      BlockBounds(x, chunk, bs, last);
    }
  }

  lemma {:induction false} NoFlagLeft(flags: seq<bool>, from: nat, chunk: nat, bs: nat, x: nat)
    requires 0 < bs && from <= |flags| == NumHashes(chunk, bs) && Next(flags, from, true) == |flags|
    ensures !InFlagged(flags, from, chunk, bs, x)
  {
    hide StartOf, NumHashes, BlockOf;
    if x < chunk {
      BlockBounds(x, chunk, bs, 0);
    }
  }

  /** Writing the parts replaces exactly the bytes of the flagged blocks. */
  lemma {:induction false} PartsReplaceFlagged(file: File, fptr: nat, data: seq<Byte>, flags: seq<bool>, from: nat,
                                               bs: nat, at: nat)
    requires 0 < bs && from <= |flags| == NumHashes(|data|, bs)
    ensures PartsInside(Parts(flags, from, |data|, bs), |data|)
    ensures ByteAt(WriteParts(file, fptr, data, Parts(flags, from, |data|, bs)), at) ==
            if fptr <= at < fptr + |data| && InFlagged(flags, from, |data|, bs, at - fptr) then data[at - fptr]
              else ByteAt(file, at)
    decreases |flags| - from
  {
    var chunk, first := |data|, Next(flags, from, true);
    PartsStayInside(flags, from, chunk, bs);
    PartsUnfold(flags, from, chunk, bs);
    var x := if fptr <= at then at - fptr else 0;
    if first < |flags| {
      var last := Next(flags, first, false);
      assert first < last;
      var p, rest := PartOf(Run(first, last), chunk, bs), Parts(flags, last, chunk, bs);
      StartsBounded(chunk, bs, last);
      assert p.offset == StartOf(chunk, bs, first) && p.offset + p.size == StartOf(chunk, bs, last) <= chunk;
      hide *;
      WritePartsStep(file, fptr, data, p, rest);
      var written := WriteAt(file, fptr + p.offset, Slice(data, p));
      PartReplaces(file, fptr, data, p, at);
      PartsReplaceFlagged(written, fptr, data, flags, last, bs, at);
      FirstRunAndRest(flags, from, chunk, bs, x);
    } else {
      NoFlagLeft(flags, from, chunk, bs, x);
    }
  }

  // ------------------------------------------------------------------ what the hashes say about the file

  /** The bytes of the container that block `i` of a chunk occupies. */
  function FileBlock(file: File, fptr: nat, chunk: nat, bs: nat, i: nat): seq<Byte> {
    Region(file, fptr + BlocksLength(i, bs), BlockSize(chunk, bs, i))
  }

  /** A valid hash is the hash of the block in the file, at the present block size. */
  ghost predicate CacheAt(h: Hash, file: File, fptr: nat, hashes: seq<DiffHash>, chunk: nat, bs: nat, i: nat)
    requires i < |hashes|
  {
    hashes[i].isValid ==> hashes[i].digest == h(FileBlock(file, fptr, chunk, bs, i))
  }

  ghost predicate CacheAgrees(h: Hash, file: File, fptr: nat, hashes: seq<DiffHash>, chunk: nat, bs: nat) {
    forall i :: 0 <= i < |hashes| ==> CacheAt(h, file, fptr, hashes, chunk, bs, i)
  }

  /** Two contents of a block with the same hash are the same. */
  predicate NoCollision(h: Hash, a: seq<Byte>, b: seq<Byte>) {
    h(a) == h(b) ==> a == b
  }

  /** No block to be skipped differs from its block in the file. */
  ghost predicate NoCollisions(h: Hash, file: File, fptr: nat, hashes: seq<DiffHash>, data: seq<Byte>, bs: nat)
    requires 0 < bs && |hashes| == NumHashes(|data|, bs)
  {
    forall i :: 0 <= i < |hashes| && hashes[i].isValid ==>
      NoCollision(h, FileBlock(file, fptr, |data|, bs, i), Block(data, bs, i))
  }

  /** The bytes of a block in the file and in the chunk. */
  lemma BlockBytes(file: File, fptr: nat, data: seq<Byte>, bs: nat, i: nat, x: nat)
    requires 0 < bs && i < NumHashes(|data|, bs) && x < |data| && BlockOf(x, bs) == i
    ensures var start := BlocksLength(i, bs);
            && start <= x < start + BlockSize(|data|, bs, i)
            && FileBlock(file, fptr, |data|, bs, i)[x - start] == ByteAt(file, fptr + x)
            && Block(data, bs, i)[x - start] == data[x]
  {
    BlockBounds(x, |data|, bs, i);
    BlockBounds(x, |data|, bs, i + 1);
    BlockStarts(|data|, bs, i);
    BlockSizes(|data|, bs, i);
  }

  /** The container holds the chunk after a differential write. */
  ghost predicate HoldsChunk(file: File, fptr: nat, data: seq<Byte>) {
    Region(file, fptr, |data|) == data
  }

  /** The file after the differential write of a chunk. */
  function DcpWritten(h: Hash, file: File, fptr: nat, hashes: seq<DiffHash>, data: seq<Byte>, bs: nat): File
    requires 0 < bs && |hashes| == NumHashes(|data|, bs)
  {
    var flags := Flags(h, hashes, data, bs);
    PartsStayInside(flags, 0, |data|, bs);
    WriteParts(file, fptr, data, Parts(flags, 0, |data|, bs))
  }

  /** A byte of the chunk is written exactly if its block changed. */
  lemma {:induction false} ChangedBytesWritten(h: Hash, file: File, fptr: nat, hashes: seq<DiffHash>, data: seq<Byte>,
                                               bs: nat, x: nat)
    requires 0 < bs && |hashes| == NumHashes(|data|, bs) && x < |data|
    ensures BlockOf(x, bs) < |hashes|
    ensures ByteAt(DcpWritten(h, file, fptr, hashes, data, bs), fptr + x) ==
            if Changed(h, hashes, data, bs, BlockOf(x, bs)) then data[x] else ByteAt(file, fptr + x)
  {
    hide NumHashes, BlockOf, StartOf, Changed, ByteAt, WriteParts, Parts;
    var flags := Flags(h, hashes, data, bs);
    BlockBounds(x, |data|, bs, 0);
    PartsReplaceFlagged(file, fptr, data, flags, 0, bs, fptr + x);
  }

  /** Nothing outside the chunk is written. */
  lemma {:induction false} OtherBytesKept(h: Hash, file: File, fptr: nat, hashes: seq<DiffHash>, data: seq<Byte>,
                                          bs: nat, at: nat)
    requires 0 < bs && |hashes| == NumHashes(|data|, bs) && (at < fptr || fptr + |data| <= at)
    ensures ByteAt(DcpWritten(h, file, fptr, hashes, data, bs), at) == ByteAt(file, at)
  {
    hide NumHashes, BlockOf, StartOf, Changed, ByteAt, WriteParts, Parts;
    PartsReplaceFlagged(file, fptr, data, Flags(h, hashes, data, bs), 0, bs, at);
  }

  /** Blocks that look unchanged are the same in the file. */
  ghost predicate SkippedBlocksMatch(h: Hash, file: File, fptr: nat, hashes: seq<DiffHash>, data: seq<Byte>, bs: nat)
    requires 0 < bs && |hashes| == NumHashes(|data|, bs)
  {
    forall i :: 0 <= i < |hashes| && !Changed(h, hashes, data, bs, i) ==>
      FileBlock(file, fptr, |data|, bs, i) == Block(data, bs, i)
  }

  lemma {:induction false} MatchingBlocksSuffice(h: Hash, file: File, fptr: nat, hashes: seq<DiffHash>, data: seq<Byte>,
                                                 bs: nat)
    requires 0 < bs && |hashes| == NumHashes(|data|, bs) && SkippedBlocksMatch(h, file, fptr, hashes, data, bs)
    ensures HoldsChunk(DcpWritten(h, file, fptr, hashes, data, bs), fptr, data)
  {
    hide NumHashes, BlockOf, Changed, ByteAt, DcpWritten, FileBlock, Block, BlockSize;
    var file' := DcpWritten(h, file, fptr, hashes, data, bs);
    forall x | 0 <= x < |data|
      ensures ByteAt(file', fptr + x) == data[x]
    {
      ChangedBytesWritten(h, file, fptr, hashes, data, bs, x);
      BlockBytes(file, fptr, data, bs, BlockOf(x, bs), x);
    }
  }

  lemma {:induction false} MatchingBlocksNeeded(h: Hash, file: File, fptr: nat, hashes: seq<DiffHash>, data: seq<Byte>,
                                                bs: nat, i: nat)
    requires 0 < bs && i < |hashes| == NumHashes(|data|, bs) && !Changed(h, hashes, data, bs, i)
    requires HoldsChunk(DcpWritten(h, file, fptr, hashes, data, bs), fptr, data)
    ensures FileBlock(file, fptr, |data|, bs, i) == Block(data, bs, i)
  {
    hide NumHashes, BlockOf, Changed, ByteAt, DcpWritten, BlockSize;
    var file' := DcpWritten(h, file, fptr, hashes, data, bs);
    var start, size := BlocksLength(i, bs), BlockSize(|data|, bs, i);
    BlockSizes(|data|, bs, i);
    var inFile, inChunk := FileBlock(file, fptr, |data|, bs, i), Block(data, bs, i);
    forall o | 0 <= o < size
      ensures inFile[o] == inChunk[o]
    {
      InBlock(|data|, bs, i, o);
      ChangedBytesWritten(h, file, fptr, hashes, data, bs, start + o);
      assert Region(file', fptr, |data|)[start + o] == data[start + o];
    }
  }

  lemma InBlock(chunk: nat, bs: nat, i: nat, o: nat)
    requires 0 < bs && i < NumHashes(chunk, bs) && o < BlockSize(chunk, bs, i)
    ensures BlocksLength(i, bs) + o < chunk && BlockOf(BlocksLength(i, bs) + o, bs) == i
  {
    hide NumHashes, BlockOf, BlockSize;
    BlockSizes(chunk, bs, i);
    BlockStarts(chunk, bs, i);
    BlockBounds(BlocksLength(i, bs) + o, chunk, bs, i);
    BlockBounds(BlocksLength(i, bs) + o, chunk, bs, i + 1);
  }

  /**
   * The differential write of a chunk is right exactly if no block collides with what the file holds: then, and only
   * then, the container holds the chunk.
   */
  lemma {:induction false} DirtyRunsSuffice(h: Hash, file: File, fptr: nat, hashes: seq<DiffHash>, data: seq<Byte>,
                                            bs: nat)
    requires 0 < bs && |hashes| == NumHashes(|data|, bs) && CacheAgrees(h, file, fptr, hashes, |data|, bs)
    ensures HoldsChunk(DcpWritten(h, file, fptr, hashes, data, bs), fptr, data) <==>
            NoCollisions(h, file, fptr, hashes, data, bs)
  {
    hide NumHashes, DcpWritten, FileBlock, Block, HoldsChunk;
    if NoCollisions(h, file, fptr, hashes, data, bs) {
      forall i | 0 <= i < |hashes| && !Changed(h, hashes, data, bs, i)
        ensures FileBlock(file, fptr, |data|, bs, i) == Block(data, bs, i)
      {
        assert CacheAt(h, file, fptr, hashes, |data|, bs, i);
      }
      MatchingBlocksSuffice(h, file, fptr, hashes, data, bs);
    }
    if HoldsChunk(DcpWritten(h, file, fptr, hashes, data, bs), fptr, data) {
      forall i | 0 <= i < |hashes| && hashes[i].isValid
        ensures NoCollision(h, FileBlock(file, fptr, |data|, bs, i), Block(data, bs, i))
      {
        assert CacheAt(h, file, fptr, hashes, |data|, bs, i);
        if !Changed(h, hashes, data, bs, i) {
          MatchingBlocksNeeded(h, file, fptr, hashes, data, bs, i);
        }
      }
    }
  }

  // ------------------------------------------------------------------ the write loop

  const MEMBS: nat := 1024 * 1024 * 16

  /** Writes a buffer in pieces of at most 16 MB. */
  method WriteBuffer(file: File, at: nat, buffer: seq<Byte>) returns (file': File)
    ensures file' == WriteAt(file, at, buffer)
  {
    file' := file;
    var cpycnt := 0;
    assert WriteAt(file, at, buffer[..0]) == file;
    while cpycnt < |buffer|
      invariant cpycnt <= |buffer| && file' == WriteAt(file, at, buffer[..cpycnt])
    {
      var cpybuf := |buffer| - cpycnt;
      var cpynow := if cpybuf > MEMBS then MEMBS else cpybuf;
      AppendPiece(file, at, buffer, cpycnt, cpycnt + cpynow);
      file' := WriteAt(file', at + cpycnt, buffer[cpycnt..cpycnt + cpynow]);
      cpycnt := cpycnt + cpynow;
    }
    assert buffer[..cpycnt] == buffer;
  }

  lemma AppendPiece(file: File, at: nat, buffer: seq<Byte>, i: nat, j: nat)
    requires i < j <= |buffer|
    ensures WriteAt(WriteAt(file, at, buffer[..i]), at + i, buffer[i..j]) == WriteAt(file, at, buffer[..j])
  {
    hide WriteAt, ByteAt;
    var a, b := WriteAt(WriteAt(file, at, buffer[..i]), at + i, buffer[i..j]), WriteAt(file, at, buffer[..j]);
    forall x | 0 <= x < |a|
      ensures ByteAt(a, x) == ByteAt(b, x)
    {
    }
    SameFile(a, b);
  }

  lemma SameFile(a: File, b: File)
    requires |a| == |b| && forall x :: 0 <= x < |a| ==> ByteAt(a, x) == ByteAt(b, x)
    ensures a == b
  {
    forall x | 0 <= x < |a|
      ensures a[x] == b[x]
    {
      assert ByteAt(a, x) == ByteAt(b, x);
    }
  }

  /** What a chunk's container gets: the dirty runs, or the whole chunk without differential checkpointing. */
  function ChunkWritten(h: Hash, conf: DcpConf, file: File, fptr: nat, hashes: seq<DiffHash>, data: seq<Byte>): File
    requires conf.Dcp? ==> 0 < conf.blockSize && |hashes| == NumHashes(|data|, conf.blockSize)
  {
    if conf.Dcp? then DcpWritten(h, file, fptr, hashes, data, conf.blockSize) else WriteAt(file, fptr, data)
  }

  /** Writes one chunk part by part, and leaves the iterator ready for the next chunk. */
  method WriteChunk(it: DataChunkIterator, h: Hash, conf: DcpConf, file: File, fptr: nat, hashes: seq<DiffHash>,
                    data: seq<Byte>)
    returns (file': File, marked: seq<DiffHash>)
    requires it.init && Fits(conf, hashes, data)
    modifies it
    ensures it.init && file' == ChunkWritten(h, conf, file, fptr, hashes, data)
    ensures SameButDirty(hashes, marked)
    ensures conf.Dcp? ==> Fits(conf, marked, data) && CheckedUpTo(h, marked, data, conf.blockSize, |marked|)
  {
    hide Flags, Parts, CheckedUpTo, WriteParts, WriteAt, NumHashes;
    file', marked := file, hashes;
    NothingChecked(h, conf, hashes, data);
    ghost var all := it.Pending(h, conf, hashes, data);
    AllInside(it, h, conf, hashes, data);
    WholeChunk(h, conf, file, fptr, hashes, data);
    NothingLeft(file, fptr, data);
    var found, part;
    found, part, marked := it.ReceiveDataChunk(h, conf, hashes, data);
    while found
      invariant SameButDirty(hashes, marked) && Fits(conf, marked, data) && it.At(conf, marked)
      invariant found ==> it.Checked(h, conf, marked, data)
      invariant !found ==> it.init && (conf.Dcp? ==> CheckedUpTo(h, marked, data, conf.blockSize, |marked|))
      invariant found ==> PartsInside([part] + it.Pending(h, conf, marked, data), |data|)
      invariant found ==>
          WriteParts(file', fptr, data, [part] + it.Pending(h, conf, marked, data)) == WriteParts(file, fptr, data, all)
      invariant !found ==> file' == WriteParts(file, fptr, data, all)
      decreases if found then |it.Pending(h, conf, marked, data)| + 1 else 0
    {
      ghost var rest := it.Pending(h, conf, marked, data);
      WritePartsStep(file', fptr, data, part, rest);
      file' := WriteBuffer(file', fptr + part.offset, Slice(data, part));
      NothingLeft(file', fptr, data);
      found, part, marked := it.ReceiveDataChunk(h, conf, marked, data);
    }
  }

  lemma {:induction false} NothingLeft(file: File, fptr: nat, data: seq<Byte>)
    ensures WriteParts(file, fptr, data, []) == file
  {
  }

  lemma NothingChecked(h: Hash, conf: DcpConf, hashes: seq<DiffHash>, data: seq<Byte>)
    requires Fits(conf, hashes, data)
    ensures conf.Dcp? ==> CheckedUpTo(h, hashes, data, conf.blockSize, 0)
  {
  }

  lemma AllInside(it: DataChunkIterator, h: Hash, conf: DcpConf, hashes: seq<DiffHash>, data: seq<Byte>)
    requires it.init && Fits(conf, hashes, data)
    ensures PartsInside(it.Pending(h, conf, hashes, data), |data|)
  {
    hide Parts, Flags;
    if conf.Dcp? {
      PartsStayInside(Flags(h, hashes, data, conf.blockSize), 0, |data|, conf.blockSize);
    }
  }

  lemma {:induction false} WholeChunk(h: Hash, conf: DcpConf, file: File, fptr: nat, hashes: seq<DiffHash>,
                                      data: seq<Byte>)
    requires Fits(conf, hashes, data)
    ensures conf.NoDcp? ==> WriteParts(file, fptr, data, [Part(0, |data|)]) == WriteAt(file, fptr, data)
  {
    assert data[0..|data|] == data;
    assert [Part(0, |data|)][1..] == [];
  }
}
