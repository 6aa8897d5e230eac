/** The second pass of a checkpoint: the chunks of all containers, one after the other. */
module DataPass {
  import opened Arithmetic
  import opened BlockHashes
  import opened CheckpointFile
  import opened ChunkWriter
  import opened DirtyRuns
  import opened FileBytes
  import opened Layout
  import opened LayoutTheorems

  /** The hash array fits the chunk that is to be written. */
  predicate Writable(conf: DcpConf, vars: seq<Variable>, e: DbVar) {
    conf.Dcp? ==> 0 < conf.blockSize && |e.hashes| == NumHashes(|ChunkData(vars, e)|, conf.blockSize)
  }

  function OneChunk(h: Hashing, conf: DcpConf, vars: seq<Variable>, e: DbVar, file: File): File {
    if Writable(conf, vars, e) then ChunkWritten(h.block, conf, file, e.fptr, e.hashes, ChunkData(vars, e)) else file
  }

  /** The file after the chunks of `es` were written in order. */
  function DataWritten(h: Hashing, conf: DcpConf, vars: seq<Variable>, es: seq<DbVar>, file: File): File {
    if es == [] then file
    else OneChunk(h, conf, vars, es[|es| - 1], DataWritten(h, conf, vars, es[..|es| - 1], file))
  }

  /** No two containers of the list meet, and each is large enough for its chunk. */
  ghost predicate Roomy(es: seq<DbVar>, vars: seq<Variable>) {
    && (forall i :: 0 <= i < |es| ==> |ChunkData(vars, es[i])| <= es[i].containersize)
    && (forall i, j :: 0 <= i < j < |es| ==> Apart(es[i].fptr, es[i].containersize, es[j].fptr, es[j].containersize))
  }

  lemma OneChunkElsewhere(h: Hashing, conf: DcpConf, vars: seq<Variable>, e: DbVar, file: File, at: nat)
    requires at < e.fptr || e.fptr + |ChunkData(vars, e)| <= at
    ensures ByteAt(OneChunk(h, conf, vars, e, file), at) == ByteAt(file, at)
  {
    hide ChunkData, NumHashes, DcpWritten, ByteAt;
    if Writable(conf, vars, e) && conf.Dcp? {
      OtherBytesKept(h.block, file, e.fptr, e.hashes, ChunkData(vars, e), conf.blockSize, at);
    }
  }

  lemma OneChunkOtherRegion(h: Hashing, conf: DcpConf, vars: seq<Variable>, e: DbVar, file: File, at: nat, size: nat)
    requires |ChunkData(vars, e)| <= e.containersize && Apart(at, size, e.fptr, e.containersize)
    ensures Region(OneChunk(h, conf, vars, e, file), at, size) == Region(file, at, size)
  {
    hide ChunkData, OneChunk, ByteAt;
    var file' := OneChunk(h, conf, vars, e, file);
    forall i | 0 <= i < size
      ensures Region(file', at, size)[i] == Region(file, at, size)[i]
    {
      OneChunkElsewhere(h, conf, vars, e, file, at + i);
    }
  }

  /** A stretch of the file outside all containers stays as it is. */
  lemma {:induction false} OutsideContainers(h: Hashing, conf: DcpConf, vars: seq<Variable>, es: seq<DbVar>, file: File,
                                             at: nat, size: nat)
    requires forall i :: 0 <= i < |es| ==>
               |ChunkData(vars, es[i])| <= es[i].containersize && Apart(at, size, es[i].fptr, es[i].containersize)
    ensures Region(DataWritten(h, conf, vars, es, file), at, size) == Region(file, at, size)
    decreases |es|
  {
    hide ChunkData, OneChunk, Region, Apart;
    if es != [] {
      var front, e := es[..|es| - 1], es[|es| - 1];
      OutsideContainers(h, conf, vars, front, file, at, size);
      OneChunkOtherRegion(h, conf, vars, e, DataWritten(h, conf, vars, front, file), at, size);
    }
  }

  lemma {:induction false} DataWrittenStep(h: Hashing, conf: DcpConf, vars: seq<Variable>, es: seq<DbVar>, n: nat,
                                           file: File)
    requires n < |es|
    ensures DataWritten(h, conf, vars, es[..n + 1], file) ==
            OneChunk(h, conf, vars, es[n], DataWritten(h, conf, vars, es[..n], file))
  {
    hide OneChunk;
    assert es[..n + 1][..n] == es[..n];
  }

  /** Only the write of its own chunk changes a container. */
  lemma {:induction false} OwnChunkDecides(h: Hashing, conf: DcpConf, vars: seq<Variable>, es: seq<DbVar>, n: nat,
                                           i: nat, file: File)
    requires Roomy(es, vars) && i < n <= |es|
    ensures Region(DataWritten(h, conf, vars, es[..n], file), es[i].fptr, es[i].containersize) ==
            Region(OneChunk(h, conf, vars, es[i], DataWritten(h, conf, vars, es[..i], file)), es[i].fptr,
                   es[i].containersize)
    decreases n
  {
    hide ChunkData, OneChunk, Region, DataWritten;
    DataWrittenStep(h, conf, vars, es, n - 1, file);
    if i < n - 1 {
      OwnChunkDecides(h, conf, vars, es, n - 1, i, file);
      OneChunkOtherRegion(h, conf, vars, es[n - 1], DataWritten(h, conf, vars, es[..n - 1], file), es[i].fptr,
                          es[i].containersize);
    }
  }

  /** A container is as in the old file until its chunk is written. */
  lemma {:induction false} BeforeOwnChunk(h: Hashing, conf: DcpConf, vars: seq<Variable>, es: seq<DbVar>, i: nat,
                                          file: File)
    requires Roomy(es, vars) && i < |es|
    ensures Region(DataWritten(h, conf, vars, es[..i], file), es[i].fptr, es[i].containersize) ==
            Region(file, es[i].fptr, es[i].containersize)
  {
    hide ChunkData, OneChunk, Region, DataWritten, Apart;
    assert forall m :: 0 <= m < i ==> Apart(es[m].fptr, es[m].containersize, es[i].fptr, es[i].containersize);
    ApartSymmetric(es, i);
    OutsideContainers(h, conf, vars, es[..i], file, es[i].fptr, es[i].containersize);
  }

  lemma ApartSymmetric(es: seq<DbVar>, i: nat)
    requires i < |es|
             && forall m :: 0 <= m < i ==> Apart(es[m].fptr, es[m].containersize, es[i].fptr, es[i].containersize)
    ensures forall m :: 0 <= m < i ==> Apart(es[i].fptr, es[i].containersize, es[m].fptr, es[m].containersize)
  {
  }

  lemma PartOfRegion(a: File, b: File, at: nat, size: nat, from: nat, len: nat)
    requires Region(a, at, size) == Region(b, at, size) && at <= from && from + len <= at + size
    ensures Region(a, from, len) == Region(b, from, len)
  {
    hide ByteAt;
    forall i | 0 <= i < len
      ensures Region(a, from, len)[i] == Region(b, from, len)[i]
    {
      assert Region(a, at, size)[from - at + i] == Region(b, at, size)[from - at + i];
    }
  }

  /** What a chunk's hashes say about one file they say about any file with the same container. */
  lemma {:induction false} CacheFollowsContainer(h: Hash, a: File, b: File, e: DbVar, chunk: nat, bs: nat)
    requires 0 < bs && |e.hashes| == NumHashes(chunk, bs) && chunk <= e.containersize
    requires Region(a, e.fptr, e.containersize) == Region(b, e.fptr, e.containersize)
    requires CacheAgrees(h, a, e.fptr, e.hashes, chunk, bs)
    ensures CacheAgrees(h, b, e.fptr, e.hashes, chunk, bs)
  {
    hide Region, NumHashes, BlockSize;
    forall i | 0 <= i < |e.hashes|
      ensures CacheAt(h, b, e.fptr, e.hashes, chunk, bs, i)
    {
      assert CacheAt(h, a, e.fptr, e.hashes, chunk, bs, i);
      BlockSizes(chunk, bs, i);
      PartOfRegion(a, b, e.fptr, e.containersize, e.fptr + BlocksLength(i, bs), BlockSize(chunk, bs, i));
    }
  }

  lemma {:induction false} CollisionsFollowContainer(h: Hash, a: File, b: File, e: DbVar, data: seq<Byte>, bs: nat)
    requires 0 < bs && |e.hashes| == NumHashes(|data|, bs) && |data| <= e.containersize
    requires Region(a, e.fptr, e.containersize) == Region(b, e.fptr, e.containersize)
    requires NoCollisions(h, a, e.fptr, e.hashes, data, bs)
    ensures NoCollisions(h, b, e.fptr, e.hashes, data, bs)
  {
    hide Region, NumHashes, BlockSize, Block;
    forall i | 0 <= i < |e.hashes| && e.hashes[i].isValid
      ensures NoCollision(h, FileBlock(b, e.fptr, |data|, bs, i), Block(data, bs, i))
    {
      BlockSizes(|data|, bs, i);
      PartOfRegion(a, b, e.fptr, e.containersize, e.fptr + BlocksLength(i, bs), BlockSize(|data|, bs, i));
    }
  }

  /** The valid hashes of a chunk are those of its blocks in the file. */
  ghost predicate Cached(h: Hashing, conf: DcpConf, vars: seq<Variable>, e: DbVar, file: File) {
    Writable(conf, vars, e) &&
    (conf.Dcp? ==> CacheAgrees(h.block, file, e.fptr, e.hashes, |ChunkData(vars, e)|, conf.blockSize))
  }

  /** The block hash tells the present bytes of every block from those in the file. */
  ghost predicate BlocksTold(h: Hashing, conf: DcpConf, vars: seq<Variable>, e: DbVar, file: File) {
    Writable(conf, vars, e) && conf.Dcp? ==>
      NoCollisions(h.block, file, e.fptr, e.hashes, ChunkData(vars, e), conf.blockSize)
  }

  lemma CachedElsewhere(h: Hashing, conf: DcpConf, vars: seq<Variable>, e: DbVar, a: File, b: File)
    requires Cached(h, conf, vars, e, a) && |ChunkData(vars, e)| <= e.containersize
    requires Region(a, e.fptr, e.containersize) == Region(b, e.fptr, e.containersize)
    ensures Cached(h, conf, vars, e, b) && (BlocksTold(h, conf, vars, e, a) <==> BlocksTold(h, conf, vars, e, b))
  {
    hide Region, NumHashes, ChunkData, CacheAgrees, NoCollisions;
    if conf.Dcp? {
      CacheFollowsContainer(h.block, a, b, e, |ChunkData(vars, e)|, conf.blockSize);
      if BlocksTold(h, conf, vars, e, a) {
        CollisionsFollowContainer(h.block, a, b, e, ChunkData(vars, e), conf.blockSize);
      }
      if BlocksTold(h, conf, vars, e, b) {
        CollisionsFollowContainer(h.block, b, a, e, ChunkData(vars, e), conf.blockSize);
      }
    }
  }

  /** Once written, a chunk is in its container exactly if no block collides. */
  lemma OneChunkHeld(h: Hashing, conf: DcpConf, vars: seq<Variable>, e: DbVar, file: File)
    requires Cached(h, conf, vars, e, file)
    ensures HoldsChunk(OneChunk(h, conf, vars, e, file), e.fptr, ChunkData(vars, e)) <==>
            BlocksTold(h, conf, vars, e, file)
  {
    hide NumHashes, ChunkData, CacheAgrees, NoCollisions, DcpWritten, Region, WriteAt;
    if conf.Dcp? {
      DirtyRunsSuffice(h.block, file, e.fptr, e.hashes, ChunkData(vars, e), conf.blockSize);
    } else {
      WriteHere(file, e.fptr, ChunkData(vars, e));
    }
  }

  /** After the pass a chunk is in its container exactly if none of its blocks collides. */
  lemma {:induction false} ChunksHeld(h: Hashing, conf: DcpConf, vars: seq<Variable>, es: seq<DbVar>, file: File,
                                      i: nat)
    requires Roomy(es, vars) && i < |es| && Cached(h, conf, vars, es[i], file)
    ensures HoldsChunk(DataWritten(h, conf, vars, es, file), es[i].fptr, ChunkData(vars, es[i])) <==>
            BlocksTold(h, conf, vars, es[i], file)
  {
    hide ChunkData, OneChunk, Region, DataWritten, Apart, Cached, BlocksTold;
    var e, data := es[i], ChunkData(vars, es[i]);
    var before := DataWritten(h, conf, vars, es[..i], file);
    BeforeOwnChunk(h, conf, vars, es, i, file);
    CachedElsewhere(h, conf, vars, e, file, before);
    OneChunkHeld(h, conf, vars, e, before);
    OwnChunkDecides(h, conf, vars, es, |es|, i, file);
    assert es[..|es|] == es;
    PartOfRegion(DataWritten(h, conf, vars, es, file), OneChunk(h, conf, vars, e, before), e.fptr, e.containersize,
                 e.fptr, |data|);
  }

  predicate ByteChanged(h: Hash, hashes: seq<DiffHash>, data: seq<Byte>, bs: nat, x: nat)
    requires 0 < bs && |hashes| == NumHashes(|data|, bs) && x < |data|
  {
    BlockBounds(x, |data|, bs, 0);
    Changed(h, hashes, data, bs, BlockOf(x, bs))
  }

  /** Byte `at` of the file belongs to a block of chunk `e` that the pass writes. */
  predicate Rewritten(h: Hashing, conf: DcpConf, vars: seq<Variable>, e: DbVar, at: nat) {
    var data := ChunkData(vars, e);
    && Writable(conf, vars, e) && e.fptr <= at < e.fptr + |data|
    && (conf.Dcp? ==> ByteChanged(h.block, e.hashes, data, conf.blockSize, at - e.fptr))
  }

  lemma NotRewritten(h: Hashing, conf: DcpConf, vars: seq<Variable>, e: DbVar, file: File, at: nat)
    requires !Rewritten(h, conf, vars, e, at)
    ensures ByteAt(OneChunk(h, conf, vars, e, file), at) == ByteAt(file, at)
  {
    hide ChunkData, NumHashes, DcpWritten, ByteAt, Changed, BlockOf;
    if at < e.fptr || e.fptr + |ChunkData(vars, e)| <= at {
      OneChunkElsewhere(h, conf, vars, e, file, at);
    } else if Writable(conf, vars, e) && conf.Dcp? {
      ChangedBytesWritten(h.block, file, e.fptr, e.hashes, ChunkData(vars, e), conf.blockSize, at - e.fptr);
    }
  }

  /** The pass writes only bytes of blocks that changed or had no valid hash. */
  lemma {:induction false} OnlyChangedBlocksWritten(h: Hashing, conf: DcpConf, vars: seq<Variable>, es: seq<DbVar>,
                                                    file: File, at: nat)
    requires forall i :: 0 <= i < |es| ==> !Rewritten(h, conf, vars, es[i], at)
    ensures ByteAt(DataWritten(h, conf, vars, es, file), at) == ByteAt(file, at)
    decreases |es|
  {
    hide Rewritten, OneChunk, ByteAt;
    if es != [] {
      var front, e := es[..|es| - 1], es[|es| - 1];
      OnlyChangedBlocksWritten(h, conf, vars, front, file, at);
      NotRewritten(h, conf, vars, e, DataWritten(h, conf, vars, front, file), at);
    }
  }
}
