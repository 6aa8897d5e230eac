/** Every checkpoint leaves a complete file, whatever it skipped, and a state ready for the next one. */
module CheckpointTheorems {
  import opened BlockHashes
  import opened CheckpointFile
  import opened CheckpointState
  import opened ChunkWriter
  import opened DataPass
  import opened DirtyRuns
  import opened FileBytes
  import opened Layout
  import opened LayoutInvariants
  import opened LayoutTheorems
  import opened Metadata

  // ------------------------------------------------------------------ the updated list

  lemma OldBlock(dbs: seq<Db>, vars: seq<Dataset>, conf: DcpConf, k: nat)
    requires ValidConf(conf) && ResizableBlocks(dbs, vars, conf) && k < |dbs|
    ensures k < |Updated(dbs, vars, conf)| && Updated(dbs, vars, conf)[k] == ResizeBlock(dbs[k], vars, conf)
  {
    hide ResizeBlock, NewBlock, Growing;
  }

  lemma {:induction false} OldStart(dbs: seq<Db>, vars: seq<Dataset>, conf: DcpConf, k: nat)
    requires ValidConf(conf) && ResizableBlocks(dbs, vars, conf) && Resizable(Entries(dbs), vars, conf) && k <= |dbs|
    ensures k <= |Updated(dbs, vars, conf)| && End(Updated(dbs, vars, conf)[..k]) == End(dbs[..k])
  {
    hide ResizeBlock, NewBlock, Growing, Resizable;
    FrontResizable(dbs, k, vars, conf);
    FitsBlocks(dbs[..k], vars, conf);
    ResizedEntries(dbs[..k], vars, conf);
    assert Updated(dbs, vars, conf)[..k] == ResizeBlocks(dbs[..k], vars, conf);
  }

  lemma {:induction false} LastBlockIsNew(dbs: seq<Db>, vars: seq<Dataset>, conf: DcpConf, k: nat)
    requires ValidConf(conf) && ResizableBlocks(dbs, vars, conf) && |dbs| <= k < |Updated(dbs, vars, conf)|
    ensures Updated(dbs, vars, conf)[k] == NewBlock(Entries(dbs), vars, End(dbs), conf)
            && Updated(dbs, vars, conf)[k].update
  {
    hide ResizeBlock, Growing;
  }

  /** No hash of an entry in the new block is valid, and its metadata are to be written. */
  lemma NewEntriesAreUnhashed(es: seq<DbVar>, vars: seq<Dataset>, end: nat, conf: DcpConf, j: nat)
    requires ValidConf(conf) && j < |NewBlock(es, vars, end, conf).dbvars|
    ensures NewBlock(es, vars, end, conf).dbvars[j].update
    ensures Unhashed(NewBlock(es, vars, end, conf).dbvars[j])
  {
    var db := NewBlock(es, vars, end, conf);
    NewBlockSize(es, vars, end, conf);
    AGrowingVariable(es, vars, j);
    NewBlockEntry(es, vars, j, Growing(es, vars, |vars|)[j], end, conf);
    ANewEntryIsUnhashed(es, vars, Growing(es, vars, |vars|)[j], end + HeadSize(db) + TotalSize(db.dbvars[..j]), conf);
  }

  ghost predicate Unhashed(e: DbVar) {
    forall i :: 0 <= i < |e.hashes| ==> !e.hashes[i].isValid
  }

  lemma {:induction false} ANewEntryIsUnhashed(es: seq<DbVar>, vars: seq<Dataset>, p: nat, fptr: nat, conf: DcpConf)
    requires ValidConf(conf) && p < |vars| && Capacity(es, p) < vars[p].size
    ensures NewEntry(es, vars, p, fptr, conf).update && Unhashed(NewEntry(es, vars, p, fptr, conf))
  {
    hide Capacity, Tiles, NumHashes, BlockSize;
    if conf.Dcp? {
      FreshTiles(vars[p].size - Capacity(es, p), conf.blockSize);
    }
  }

  /** Resizing a chunk keeps its hashes true to the file. */
  lemma ResizeKeepsCache(h: Hash, file: File, e: DbVar, size: nat, conf: DcpConf)
    requires ValidConf(conf) && HashesFit(e, conf) && 0 < e.containersize && conf.Dcp?
    requires CacheAgrees(h, file, e.fptr, e.hashes, e.chunksize, conf.blockSize)
    ensures var e' := Resize(e, size, conf);
            CacheAgrees(h, file, e'.fptr, e'.hashes, e'.chunksize, conf.blockSize)
  {
    hide NumHashes, BlockSize, Tiles, Collapsed, Expanded, Fresh;
    var e', bs := Resize(e, size, conf), conf.blockSize;
    if e.dptr < size {
      var chunk := Clip(size, e.dptr, e.containersize);
      if !e.hascontent {
        FreshTiles(chunk, bs);
      } else if chunk < e.chunksize {
        CollapseIsExact(e.hashes, e.chunksize, chunk, bs);
      } else if e.chunksize < chunk {
        ExpandIsConservative(e.hashes, e.chunksize, chunk, bs);
        ExpandedLength(e.hashes, chunk, bs);
      }
      forall i | 0 <= i < |e'.hashes|
        ensures CacheAt(h, file, e'.fptr, e'.hashes, e'.chunksize, bs, i)
      {
        if e'.hashes[i].isValid {
          CollapsedLength(e, chunk, bs);
          assert CacheAt(h, file, e.fptr, e.hashes, e.chunksize, bs, i);
        }
      }
    }
  }

  lemma {:induction false} ExpandedLength(prev: seq<DiffHash>, chunk: nat, bs: nat)
    requires 0 < bs && 0 < |prev|
    ensures |Expanded(prev, chunk, bs)| == NumHashes(chunk, bs)
  {
  }

  lemma {:induction false} CollapsedLength(e: DbVar, chunk: nat, bs: nat)
    requires 0 < bs
    ensures 0 < NumHashes(chunk, bs) <= |e.hashes| ==> |Collapsed(e.hashes, chunk, bs)| == NumHashes(chunk, bs)
  {
  }

  // ------------------------------------------------------------------ entries in order

  lemma InOrder(dbs: seq<Db>, vars: seq<Variable>, conf: DcpConf, k: nat, j: nat)
    requires ValidConf(conf) && LayoutOk(dbs, Sizes(vars), conf) && k < |dbs| && j < |dbs[k].dbvars|
    ensures var e := dbs[k].dbvars[j];
            && e.idx < |vars| && |ChunkData(vars, e)| == e.chunksize <= e.containersize
            && 0 < e.containersize && HashesFit(e, conf) && Writable(conf, vars, e)
  {
    hide BlocksOk, Capacity, Containers, Entries, Tiles;
    EntryOf(dbs, k, j);
    var i := |Entries(dbs[..k])| + j;
    assert SlotOk(Entries(dbs), i, Sizes(vars), conf);
    ChunksStayInside(Entries(dbs), i, Sizes(vars), conf);
    if conf.Dcp? {
      WritableChunk(dbs[k].dbvars[j], conf);
    }
  }

  lemma WritableChunk(e: DbVar, conf: DcpConf)
    requires ValidConf(conf) && conf.Dcp? && HashesFit(e, conf)
    ensures |e.hashes| == NumHashes(e.chunksize, conf.blockSize)
  {
  }

  /** Every entry of the flat list is an entry of a block. */
  lemma {:induction false} BlockOfEntry(dbs: seq<Db>, i: nat) returns (k: nat, j: nat)
    requires i < |Entries(dbs)|
    ensures k < |dbs| && j < |dbs[k].dbvars| && Entries(dbs)[i] == dbs[k].dbvars[j] && i == |Entries(dbs[..k])| + j
    decreases |dbs|
  {
    var front := dbs[..|dbs| - 1];
    if i < |Entries(front)| {
      k, j := BlockOfEntry(front, i);
      assert front[..k] == dbs[..k];
    } else {
      k, j := |dbs| - 1, i - |Entries(front)|;
    }
  }

  lemma {:induction false} EntriesAreRoomy(dbs: seq<Db>, vars: seq<Variable>, conf: DcpConf)
    requires ValidConf(conf) && LayoutOk(dbs, Sizes(vars), conf)
    ensures Roomy(Entries(dbs), vars)
  {
    var es := Entries(dbs);
    assert BlocksOk(dbs);
    hide *;
    forall i | 0 <= i < |es|
      ensures |ChunkData(vars, es[i])| <= es[i].containersize
    {
      var k, j := BlockOfEntry(dbs, i);
      InOrder(dbs, vars, conf, k, j);
    }
    forall i, m | 0 <= i < m < |es|
      ensures Apart(es[i].fptr, es[i].containersize, es[m].fptr, es[m].containersize)
    {
      var k, j := BlockOfEntry(dbs, i);
      var k', j' := BlockOfEntry(dbs, m);
      ContainersApart(dbs, k, j, k', j');
    }
    RoomyParts(es, vars);
  }

  lemma RoomyParts(es: seq<DbVar>, vars: seq<Variable>)
    requires forall i :: 0 <= i < |es| ==> |ChunkData(vars, es[i])| <= es[i].containersize
    requires forall i, j :: 0 <= i < j < |es| ==>
             Apart(es[i].fptr, es[i].containersize, es[j].fptr, es[j].containersize)
    ensures Roomy(es, vars)
  {
  }

  // ------------------------------------------------------------------ the metadata on file

  /** The last passes do not touch the metadata of the blocks. */
  lemma MetadataStays(h: Hashing, conf: DcpConf, vars: seq<Variable>, dbs: seq<Db>, meta: FileRecord, file: File,
                      k: nat, at: nat, size: nat)
    requires ValidConf(conf) && LayoutOk(dbs, Sizes(vars), conf) && k < |dbs| && FitsFile(meta)
    requires End(dbs[..k]) <= at && at + size <= End(dbs[..k]) + HeadSize(dbs[k])
    ensures Region(FileAfter(h, conf, vars, dbs, meta, file), at, size) ==
            Region(MetaWritten(h, vars, dbs, file), at, size)
  {
    var es, written := Entries(dbs), MetaWritten(h, vars, dbs, file);
    assert BlocksOk(dbs);
    assert FileAfter(h, conf, vars, dbs, meta, file) ==
      DataWritten(h, conf, vars, es, WriteAt(written, 0, FileMeta(meta, End(dbs))));
    hide *;
    FileMetaSize(meta, End(dbs));
    BlocksStart(dbs[..k]);
    WriteElsewhere(written, 0, FileMeta(meta, End(dbs)), at, size);
    forall i | 0 <= i < |es|
      ensures |ChunkData(vars, es[i])| <= es[i].containersize && Apart(at, size, es[i].fptr, es[i].containersize)
    {
      var k', j := BlockOfEntry(dbs, i);
      InOrder(dbs, vars, conf, k', j);
      ContainerClearOfMetadata(dbs, k', j, k);
      InsideApart(at, size, es[i].fptr, es[i].containersize, End(dbs[..k]), HeadSize(dbs[k]));
    }
    OutsideContainers(h, conf, vars, es, WriteAt(written, 0, FileMeta(meta, End(dbs))), at, size);
  }

  lemma InsideApart(at: nat, size: nat, c: nat, csize: nat, start: nat, head: nat)
    requires start <= at && at + size <= start + head && Apart(c, csize, start, head)
    ensures Apart(at, size, c, csize)
  {
  }

  lemma FileMetaSize(meta: FileRecord, size: nat)
    requires FitsFile(meta)
    ensures |FileMeta(meta, size)| == FILE_META
  {
    hide ToBytes;
  }

  /** The file metadata are on file. */
  lemma {:induction false} FileMetaOnFile(h: Hashing, conf: DcpConf, vars: seq<Variable>, dbs: seq<Db>,
                                          meta: FileRecord, file: File)
    requires ValidConf(conf) && LayoutOk(dbs, Sizes(vars), conf) && FitsFile(meta)
    ensures Region(FileAfter(h, conf, vars, dbs, meta, file), 0, FILE_META) == FileMeta(meta, End(dbs))
  {
    var es, written := Entries(dbs), MetaWritten(h, vars, dbs, file);
    assert BlocksOk(dbs);
    assert FileAfter(h, conf, vars, dbs, meta, file) ==
      DataWritten(h, conf, vars, es, WriteAt(written, 0, FileMeta(meta, End(dbs))));
    hide *;
    FileMetaSize(meta, End(dbs));
    WriteHere(written, 0, FileMeta(meta, End(dbs)));
    forall i | 0 <= i < |es|
      ensures |ChunkData(vars, es[i])| <= es[i].containersize && Apart(0, FILE_META, es[i].fptr, es[i].containersize)
    {
      var k, j := BlockOfEntry(dbs, i);
      InOrder(dbs, vars, conf, k, j);
      ContainerClearOfMetadata(dbs, k, j, k);
      AfterStart(es[i].fptr, es[i].containersize);
    }
    OutsideContainers(h, conf, vars, es, WriteAt(written, 0, FileMeta(meta, End(dbs))), 0, FILE_META);
  }

  lemma AfterStart(c: nat, csize: nat)
    requires FILE_META <= c
    ensures Apart(0, FILE_META, c, csize)
  {
  }

  // ------------------------------------------------------------------ one checkpoint

  /** The hashes of every chunk of the updated list agree with the file as it was. */
  lemma CacheSurvivesUpdate(h: Hashing, conf: DcpConf, s: State, prev: seq<Variable>, vars: seq<Variable>, k: nat,
                            j: nat)
    requires ValidConf(conf) && Ready(h, conf, s, prev) && Grows(Sizes(prev), Sizes(vars)) && conf.Dcp?
    requires ResizableBlocks(s.dbs, Sizes(vars), conf)
    requires k < |Updated(s.dbs, Sizes(vars), conf)| && j < |Updated(s.dbs, Sizes(vars), conf)[k].dbvars|
    ensures var e := Updated(s.dbs, Sizes(vars), conf)[k].dbvars[j];
            CacheAgrees(h.block, s.file, e.fptr, e.hashes, e.chunksize, conf.blockSize)
  {
    hide BlocksOk, SlotsOk, HashesFit, Resize, NewBlock, Growing, CacheAgrees, Updated, HeadReady, EntryOnFile, Entries;
    if k < |s.dbs| {
      OldBlock(s.dbs, Sizes(vars), conf, k);
      assert EntryReady(h, conf, s, prev, k, j);
      InOrder(s.dbs, prev, conf, k, j);
      var e := s.dbs[k].dbvars[j];
      ResizeKeepsCache(h.block, s.file, e, |vars[e.idx].mem|, conf);
    } else {
      LastBlockIsNew(s.dbs, Sizes(vars), conf, k);
      NewEntriesAreUnhashed(Entries(s.dbs), Sizes(vars), End(s.dbs), conf, j);
      UnhashedAgrees(h.block, s.file, Updated(s.dbs, Sizes(vars), conf)[k].dbvars[j], conf.blockSize);
    }
  }

  lemma UnhashedAgrees(h: Hash, file: File, e: DbVar, bs: nat)
    requires Unhashed(e)
    ensures CacheAgrees(h, file, e.fptr, e.hashes, e.chunksize, bs)
  {
  }

  /** The old file is what the hashes of the updated list say it is. */
  lemma OldFileCached(h: Hashing, conf: DcpConf, s: State, prev: seq<Variable>, vars: seq<Variable>, k: nat, j: nat)
    requires ValidConf(conf) && Ready(h, conf, s, prev) && Grows(Sizes(prev), Sizes(vars))
    requires ResizableBlocks(s.dbs, Sizes(vars), conf) && LayoutOk(Updated(s.dbs, Sizes(vars), conf), Sizes(vars), conf)
    requires k < |Updated(s.dbs, Sizes(vars), conf)| && j < |Updated(s.dbs, Sizes(vars), conf)[k].dbvars|
    ensures Cached(h, conf, vars, Updated(s.dbs, Sizes(vars), conf)[k].dbvars[j], s.file)
  {
    var dbs := Updated(s.dbs, Sizes(vars), conf);
    hide *;
    if conf.Dcp? {
      CacheSurvivesUpdate(h, conf, s, prev, vars, k, j);
    }
    InOrder(dbs, vars, conf, k, j);
    NowCached(h, conf, vars, dbs[k].dbvars[j], s.file);
  }

  /** The file before the chunks are written. */
  function BeforeData(h: Hashing, vars: seq<Variable>, dbs: seq<Db>, meta: FileRecord, file: File): File {
    WriteAt(MetaWritten(h, vars, dbs, file), 0, FileMeta(meta, End(dbs)))
  }

  lemma {:induction false} ThenData(h: Hashing, conf: DcpConf, vars: seq<Variable>, dbs: seq<Db>, meta: FileRecord,
                                    file: File)
    ensures FileAfter(h, conf, vars, dbs, meta, file) ==
            DataWritten(h, conf, vars, Entries(dbs), BeforeData(h, vars, dbs, meta, file))
  {
    hide DataWritten, MetaWritten, WriteAt, Entries;
  }

  lemma EntryIndex(dbs: seq<Db>, k: nat, j: nat) returns (i: nat)
    requires k < |dbs| && j < |dbs[k].dbvars|
    ensures i < |Entries(dbs)| && Entries(dbs)[i] == dbs[k].dbvars[j]
  {
    EntryOf(dbs, k, j);
    i := |Entries(dbs[..k])| + j;
  }

  /** The metadata leave the containers alone. */
  lemma ContainerBeforeData(h: Hashing, vars: seq<Variable>, dbs: seq<Db>, meta: FileRecord, file: File, k: nat, j: nat)
    requires BlocksOk(dbs) && FitsFile(meta) && k < |dbs| && j < |dbs[k].dbvars|
    ensures var e := dbs[k].dbvars[j];
            Region(BeforeData(h, vars, dbs, meta, file), e.fptr, e.containersize) ==
              Region(file, e.fptr, e.containersize)
  {
    var e := dbs[k].dbvars[j];
    hide BlocksOk, FileMeta, End, MetaWritten, Region, WriteAt, FitsFile, HeadSize;
    FileMetaSize(meta, End(dbs));
    ContainerClearOfMetadata(dbs, k, j, k);
    WriteElsewhere(MetaWritten(h, vars, dbs, file), 0, FileMeta(meta, End(dbs)), e.fptr, e.containersize);
    ContainersKept(h, vars, dbs, file, k, j);
  }

  /** A chunk is in its container after the checkpoint exactly if none of its blocks collides. */
  lemma ChunkInContainer(h: Hashing, conf: DcpConf, vars: seq<Variable>, dbs: seq<Db>, meta: FileRecord, file: File,
                         k: nat, j: nat)
    requires ValidConf(conf) && LayoutOk(dbs, Sizes(vars), conf) && FitsFile(meta)
    requires k < |dbs| && j < |dbs[k].dbvars| && Cached(h, conf, vars, dbs[k].dbvars[j], file)
    ensures HoldsChunk(FileAfter(h, conf, vars, dbs, meta, file), dbs[k].dbvars[j].fptr,
                       ChunkData(vars, dbs[k].dbvars[j])) <==>
            BlocksTold(h, conf, vars, dbs[k].dbvars[j], file)
  {
    assert BlocksOk(dbs);
    hide *;
    var i := EntryIndex(dbs, k, j);
    var e, before := dbs[k].dbvars[j], BeforeData(h, vars, dbs, meta, file);
    InOrder(dbs, vars, conf, k, j);
    ContainerBeforeData(h, vars, dbs, meta, file, k, j);
    CachedElsewhere(h, conf, vars, e, file, before);
    EntriesAreRoomy(dbs, vars, conf);
    ChunksHeld(h, conf, vars, Entries(dbs), before, i);
    ThenData(h, conf, vars, dbs, meta, file);
  }

  lemma NowCached(h: Hashing, conf: DcpConf, vars: seq<Variable>, e: DbVar, file: File)
    requires Writable(conf, vars, e) && |ChunkData(vars, e)| == e.chunksize
    requires conf.Dcp? ==> CacheAgrees(h.block, file, e.fptr, e.hashes, e.chunksize, conf.blockSize)
    ensures Cached(h, conf, vars, e, file)
  {
    hide CacheAgrees, ChunkData, NumHashes;
  }

  lemma EntryTold(h: Hashing, conf: DcpConf, s: State, prev: seq<Variable>, vars: seq<Variable>, k: nat, j: nat)
    requires ValidConf(conf) && ResizableBlocks(s.dbs, Sizes(vars), conf) && Collisionless(h, conf, s, prev, vars)
    requires k < |Updated(s.dbs, Sizes(vars), conf)| && j < |Updated(s.dbs, Sizes(vars), conf)[k].dbvars|
    ensures BlocksTold(h, conf, vars, Updated(s.dbs, Sizes(vars), conf)[k].dbvars[j], s.file)
  {
    hide Updated, ResizableBlocks, BlocksTold, ChunksTold, Entries;
    var i := EntryIndex(Updated(s.dbs, Sizes(vars), conf), k, j);
  }

  /** What the last steps of a checkpoint change in an entry. */
  lemma FinishedEntry(h: Hashing, conf: DcpConf, vars: seq<Variable>, e: DbVar)
    requires ValidConf(conf) && HashesFit(e, conf) && Writable(conf, vars, e) && |ChunkData(vars, e)| == e.chunksize
    ensures var e' := Finished(h, conf, vars, Hashed(h, vars, e));
            && SamePlace(e, e') && e'.chunksize == e.chunksize && e'.hascontent == e.hascontent
            && e'.hash == ChunkHash(h, vars, e) && HashesFit(e', conf)
            && ChunkData(vars, e') == ChunkData(vars, e) && ChunkHash(h, vars, e') == ChunkHash(h, vars, e)
            && e'.(hasCkpt := e.hasCkpt, hashes := e.hashes, update := e.update) == Hashed(h, vars, e)
            && (conf.NoDcp? ==> e'.update == e.update)
  {
    hide Refreshed, NumHashes, Tiles;
    if conf.Dcp? && e.hascontent {
      RefreshedTiles(h.block, e.hashes, ChunkData(vars, e), conf.blockSize);
    }
    if conf.Dcp? && !e.hascontent {
      EmptyRefresh(h, vars, Hashed(h, vars, e), conf);
    }
  }

  lemma EmptyRefresh(h: Hashing, vars: seq<Variable>, e: DbVar, conf: DcpConf)
    requires conf.Dcp? && e.hashes == [] && Writable(conf, vars, e)
    ensures Refreshed(h.block, e.hashes, ChunkData(vars, e), conf.blockSize) == []
  {
  }

  /** The metadata of an entry that was not written again are those on file. */
  lemma UnchangedEntry(h: Hashing, conf: DcpConf, prev: seq<Variable>, vars: seq<Variable>, e: DbVar, size: nat,
                       b: bool)
    requires ValidConf(conf) && ValidHashing(h) && HashesFit(e, conf) && 0 < e.containersize
    requires |ChunkData(prev, e)| == e.chunksize
    requires |ChunkData(vars, Resize(e, size, conf))| == Resize(e, size, conf).chunksize
    requires e.hash == ChunkHash(h, prev, e) && ChunksTold(h, prev, vars, e, Resize(e, size, conf))
    requires !NeedsMetadata(h, vars, Resize(e, size, conf))
    ensures RecordOf(e.(hasCkpt := b)) == RecordOf(Hashed(h, vars, Resize(e, size, conf)).(hasCkpt := b))
  {
    hide HashesFit, ChunkData, ResizedHashes;
    var e' := Resize(e, size, conf);
    ResizeKeepsPlace(e, size, conf);
    assert e'.hascontent && e'.hash == h.chunk(ChunkData(vars, e'));
    assert |e.hash| == DIGEST;
    assert e.hascontent;
  }

  /** The metadata of every entry are on file after the checkpoint. */
  lemma EntryMetadata(h: Hashing, conf: DcpConf, s: State, prev: seq<Variable>, vars: seq<Variable>, k: nat, j: nat)
    requires ValidConf(conf) && ValidHashing(h) && Ready(h, conf, s, prev) && Grows(Sizes(prev), Sizes(vars))
    requires ResizableBlocks(s.dbs, Sizes(vars), conf) && LayoutOk(Updated(s.dbs, Sizes(vars), conf), Sizes(vars), conf)
    requires Collisionless(h, conf, s, prev, vars)
    requires k < |Updated(s.dbs, Sizes(vars), conf)| && j < |Updated(s.dbs, Sizes(vars), conf)[k].dbvars|
    ensures var dbs := Updated(s.dbs, Sizes(vars), conf);
            EntryAt(MetaWritten(h, vars, dbs, s.file), MetaAt(End(dbs[..k]), j), Hashed(h, vars, dbs[k].dbvars[j]))
  {
    var dbs := Updated(s.dbs, Sizes(vars), conf);
    var e, at := dbs[k].dbvars[j], MetaAt(End(dbs[..k]), j);
    var written := MetaWritten(h, vars, dbs, s.file);
    assert BlocksOk(dbs);
    if NeedsMetadata(h, vars, e) {
      hide *;
      EntryWritten(h, vars, dbs, s.file, k, j);
      EntryIsAt(written, at, Hashed(h, vars, e), Hashed(h, vars, e).hasCkpt);
    } else {
      KeptEntry(h, conf, s, prev, vars, k, j);
      hide *;
      EntryWritten(h, vars, dbs, s.file, k, j);
      EntryFollows(s.file, written, at, Hashed(h, vars, e));
    }
  }

  lemma EntryIsAt(file: File, at: nat, e: DbVar, b: bool)
    requires Region(file, at, CHUNK_META) == ChunkBytesOf(RecordOf(e)) && b == e.hasCkpt
    ensures EntryAt(file, at, e)
  {
    hide ChunkBytesOf, RecordOf;
    assert e.(hasCkpt := b) == e;
  }

  lemma EntryFollows(a: File, b: File, at: nat, e: DbVar)
    requires EntryAt(a, at, e) && Region(a, at, CHUNK_META) == Region(b, at, CHUNK_META)
    ensures EntryAt(b, at, e)
  {
    hide ChunkBytesOf, RecordOf, Region;
  }

  /** Metadata that are not written again are on file already. */
  lemma KeptEntry(h: Hashing, conf: DcpConf, s: State, prev: seq<Variable>, vars: seq<Variable>, k: nat, j: nat)
    requires ValidConf(conf) && ValidHashing(h) && Ready(h, conf, s, prev) && Grows(Sizes(prev), Sizes(vars))
    requires ResizableBlocks(s.dbs, Sizes(vars), conf) && LayoutOk(Updated(s.dbs, Sizes(vars), conf), Sizes(vars), conf)
    requires Collisionless(h, conf, s, prev, vars)
    requires k < |Updated(s.dbs, Sizes(vars), conf)| && j < |Updated(s.dbs, Sizes(vars), conf)[k].dbvars|
    requires !NeedsMetadata(h, vars, Updated(s.dbs, Sizes(vars), conf)[k].dbvars[j])
    ensures var dbs := Updated(s.dbs, Sizes(vars), conf);
            EntryAt(s.file, MetaAt(End(dbs[..k]), j), Hashed(h, vars, dbs[k].dbvars[j]))
  {
    hide BlocksOk, SlotsOk, HashesFit, Resize, NewBlock, Growing, CacheAgrees, Updated, HeadReady, Entries, ChunkData,
         End, ChunkHash, ChunksTold, BlocksTold, RecordOf, Hashed, ChunkBytesOf, Resizable, Region;
    var dbs := Updated(s.dbs, Sizes(vars), conf);
    if k < |s.dbs| {
      OldBlock(s.dbs, Sizes(vars), conf, k);
      AllResizable(Entries(s.dbs), Sizes(prev), Sizes(vars), conf);
      OldStart(s.dbs, Sizes(vars), conf, k);
      assert EntryReady(h, conf, s, prev, k, j);
      InOrder(s.dbs, prev, conf, k, j);
      InOrder(dbs, vars, conf, k, j);
      var e := s.dbs[k].dbvars[j];
      OldEntry(s.dbs, Sizes(vars), conf, k, j);
      var size := |vars[e.idx].mem|;
      ResizeKeepsPlace(e, size, conf);
      assert ChunksTold(h, prev, vars, e, Resize(e, size, conf));
      var at := MetaAt(End(dbs[..k]), j);
      var b :| Region(s.file, at, CHUNK_META) == ChunkBytesOf(RecordOf(e.(hasCkpt := b)));
      UnchangedEntry(h, conf, prev, vars, e, size, b);
    } else {
      LastBlockIsNew(s.dbs, Sizes(vars), conf, k);
      NewEntriesAreUnhashed(Entries(s.dbs), Sizes(vars), End(s.dbs), conf, j);
      assert false;
    }
  }

  lemma OldEntry(dbs: seq<Db>, vars: seq<Dataset>, conf: DcpConf, k: nat, j: nat)
    requires ValidConf(conf) && ResizableBlocks(dbs, vars, conf) && k < |dbs| && j < |dbs[k].dbvars|
    ensures k < |Updated(dbs, vars, conf)| && j < |Updated(dbs, vars, conf)[k].dbvars|
    ensures dbs[k].dbvars[j].idx < |vars| && HashesFit(dbs[k].dbvars[j], conf) && 0 < dbs[k].dbvars[j].containersize
    ensures Updated(dbs, vars, conf)[k].dbvars[j] == Resize(dbs[k].dbvars[j], vars[dbs[k].dbvars[j].idx].size, conf)
  {
    hide Resize, Updated, HashesFit;
    OldBlock(dbs, vars, conf, k);
    assert Resizable(dbs[k].dbvars, vars, conf);
  }

  // ------------------------------------------------------------------ the state after a checkpoint

  /** The entry stands for the same chunk at the same place. */
  ghost predicate SameChunk(e: DbVar, e': DbVar, conf: DcpConf)
    requires ValidConf(conf)
  {
    SamePlace(e, e') && e'.chunksize == e.chunksize && HashesFit(e', conf)
  }

  ghost predicate SameBlock(db: Db, db': Db, conf: DcpConf)
    requires ValidConf(conf)
  {
    && db'.dbsize == db.dbsize && |db'.dbvars| == |db.dbvars|
    && forall j :: 0 <= j < |db.dbvars| ==> SameChunk(db.dbvars[j], db'.dbvars[j], conf)
  }

  ghost predicate SameBlocks(dbs: seq<Db>, dbs': seq<Db>, conf: DcpConf)
    requires ValidConf(conf)
  {
    |dbs'| == |dbs| && forall k :: 0 <= k < |dbs| ==> SameBlock(dbs[k], dbs'[k], conf)
  }

  ghost predicate SameChunks(es: seq<DbVar>, es': seq<DbVar>, conf: DcpConf)
    requires ValidConf(conf)
  {
    |es'| == |es| && forall i :: 0 <= i < |es| ==> SameChunk(es[i], es'[i], conf)
  }

  lemma {:induction false} SameEntries(dbs: seq<Db>, dbs': seq<Db>, conf: DcpConf)
    requires ValidConf(conf) && SameBlocks(dbs, dbs', conf)
    ensures SameChunks(Entries(dbs), Entries(dbs'), conf) && End(dbs) == End(dbs')
    decreases |dbs|
  {
    if dbs == [] {
      assert dbs' == [];
    } else {
      hide *;
      var n := FrontAndLast(dbs, dbs', conf);
      SameEntries(dbs[..n], dbs'[..n], conf);
      OneBlockMore(dbs, n);
      OneBlockMore(dbs', n);
      SameAppended(Entries(dbs[..n]), Entries(dbs'[..n]), dbs[n], dbs'[n], conf);
    }
  }

  lemma {:induction false} FrontAndLast(dbs: seq<Db>, dbs': seq<Db>, conf: DcpConf) returns (n: nat)
    requires ValidConf(conf) && SameBlocks(dbs, dbs', conf) && dbs != []
    ensures n == |dbs| - 1 == |dbs'| - 1 && SameBlocks(dbs[..n], dbs'[..n], conf) && SameBlock(dbs[n], dbs'[n], conf)
    ensures dbs[n].dbsize == dbs'[n].dbsize
  {
    hide SameChunk;
    n := |dbs| - 1;
  }

  lemma {:induction false} OneBlockMore(dbs: seq<Db>, n: nat)
    requires n == |dbs| - 1
    ensures Entries(dbs) == Entries(dbs[..n]) + dbs[n].dbvars && End(dbs) == End(dbs[..n]) + dbs[n].dbsize
  {
  }

  lemma {:induction false} SameAppended(es: seq<DbVar>, es': seq<DbVar>, db: Db, db': Db, conf: DcpConf)
    requires ValidConf(conf) && SameChunks(es, es', conf) && SameBlock(db, db', conf)
    ensures SameChunks(es + db.dbvars, es' + db'.dbvars, conf)
  {
    hide SameChunk;
  }

  lemma SameContainersOf(es: seq<DbVar>, es': seq<DbVar>, conf: DcpConf)
    requires ValidConf(conf) && SameChunks(es, es', conf)
    ensures SameContainers(es, es')
  {
    hide HashesFit;
    forall i | 0 <= i < |es|
      ensures SamePlace(es[i], es'[i])
    {
      assert SameChunk(es[i], es'[i], conf);
    }
  }

  lemma SamePrefix(es: seq<DbVar>, es': seq<DbVar>, i: nat, conf: DcpConf)
    requires ValidConf(conf) && SameChunks(es, es', conf) && i <= |es|
    ensures SameChunks(es[..i], es'[..i], conf)
  {
    hide SameChunk;
  }

  lemma SameSlots(es: seq<DbVar>, es': seq<DbVar>, vars: seq<Dataset>, conf: DcpConf)
    requires ValidConf(conf) && SameChunks(es, es', conf) && SlotsOk(es, vars, conf)
    ensures SlotsOk(es', vars, conf)
  {
    hide HashesFit, Capacity, Containers, SameChunks;
    assert |es'| == |es| by {
      SameContainersOf(es, es', conf);
    }
    forall i | 0 <= i < |es'|
      ensures SlotOk(es', i, vars, conf)
    {
      assert SlotOk(es, i, vars, conf);
      SamePrefix(es, es', i, conf);
      SameContainersOf(es[..i], es'[..i], conf);
      SameSums(es[..i], es'[..i], es[i].idx);
      OneSameChunk(es, es', i, conf);
    }
    forall p | 0 <= p < |vars|
      ensures vars[p].size <= Capacity(es', p)
    {
      SameContainersOf(es, es', conf);
      SameSums(es, es', p);
    }
  }

  lemma OneSameChunk(es: seq<DbVar>, es': seq<DbVar>, i: nat, conf: DcpConf)
    requires ValidConf(conf) && SameChunks(es, es', conf) && i < |es|
    ensures SameChunk(es[i], es'[i], conf)
  {
  }

  lemma SameBlockOk(db: Db, db': Db, at: nat, conf: DcpConf)
    requires ValidConf(conf) && SameBlock(db, db', conf) && BlockOk(db, at)
    ensures BlockOk(db', at)
  {
    hide HashesFit, TotalSize;
    assert SameChunks(db.dbvars, db'.dbvars, conf);
    SameContainersOf(db.dbvars, db'.dbvars, conf);
    SameSums(db.dbvars, db'.dbvars, 0);
    forall j | 0 <= j < |db'.dbvars|
      ensures PlacedAt(db', at, j)
    {
      assert PlacedAt(db, at, j) && SameChunk(db.dbvars[j], db'.dbvars[j], conf);
      SamePrefix(db.dbvars, db'.dbvars, j, conf);
      SameContainersOf(db.dbvars[..j], db'.dbvars[..j], conf);
      SameSums(db.dbvars[..j], db'.dbvars[..j], 0);
    }
  }

  lemma SameLayout(dbs: seq<Db>, dbs': seq<Db>, vars: seq<Dataset>, conf: DcpConf)
    requires ValidConf(conf) && SameBlocks(dbs, dbs', conf) && LayoutOk(dbs, vars, conf)
    ensures LayoutOk(dbs', vars, conf) && forall k :: 0 <= k <= |dbs| ==> End(dbs'[..k]) == End(dbs[..k])
  {
    hide SameBlock, BlockOk, SlotsOk, End, Entries;
    SameEntries(dbs, dbs', conf);
    SameSlots(Entries(dbs), Entries(dbs'), vars, conf);
    forall k | 0 <= k <= |dbs|
      ensures End(dbs'[..k]) == End(dbs[..k])
    {
      SameEntries(dbs[..k], dbs'[..k], conf);
    }
    forall k | 0 <= k < |dbs'|
      ensures BlockOk(dbs'[k], End(dbs'[..k]))
    {
      assert BlockOk(dbs[k], End(dbs[..k]));
      SameBlockOk(dbs[k], dbs'[k], End(dbs[..k]), conf);
    }
  }

  lemma FinishedBlocksSame(h: Hashing, conf: DcpConf, vars: seq<Variable>, dbs: seq<Db>)
    requires ValidConf(conf) && LayoutOk(dbs, Sizes(vars), conf)
    ensures SameBlocks(dbs, FinishedBlocks(h, conf, vars, dbs), conf)
  {
    hide LayoutOk, Finished, Hashed, HashesFit, Writable, ChunkData, ChunkHash;
    forall k, j | 0 <= k < |dbs| && 0 <= j < |dbs[k].dbvars|
      ensures SameChunk(dbs[k].dbvars[j], FinishedBlocks(h, conf, vars, dbs)[k].dbvars[j], conf)
    {
      InOrder(dbs, vars, conf, k, j);
      FinishedEntry(h, conf, vars, dbs[k].dbvars[j]);
    }
  }

  /** Entry (k, j) after a checkpoint: metadata and bytes are on file. */
  lemma EntrySaved(h: Hashing, conf: DcpConf, s: State, prev: seq<Variable>, vars: seq<Variable>, meta: FileRecord,
                   k: nat, j: nat)
    requires ValidConf(conf) && ValidHashing(h) && Ready(h, conf, s, prev) && Grows(Sizes(prev), Sizes(vars))
             && FitsFile(meta)
    requires ResizableBlocks(s.dbs, Sizes(vars), conf) && LayoutOk(Updated(s.dbs, Sizes(vars), conf), Sizes(vars), conf)
    requires Collisionless(h, conf, s, prev, vars)
    requires k < |Updated(s.dbs, Sizes(vars), conf)| && j < |Updated(s.dbs, Sizes(vars), conf)[k].dbvars|
    ensures var dbs := Updated(s.dbs, Sizes(vars), conf);
            var file', e' :=
              FileAfter(h, conf, vars, dbs, meta, s.file), Finished(h, conf, vars, Hashed(h, vars, dbs[k].dbvars[j]));
            EntryAt(file', MetaAt(End(dbs[..k]), j), e') && ChunkSaved(h, vars, e', file')
  {
    var dbs := Updated(s.dbs, Sizes(vars), conf);
    var e, at, file' := dbs[k].dbvars[j], MetaAt(End(dbs[..k]), j), FileAfter(h, conf, vars, dbs, meta, s.file);
    MetaInHead(End(dbs[..k]), dbs[k], j);
    hide *;
    InOrder(dbs, vars, conf, k, j);
    FinishedEntry(h, conf, vars, e);
    OldFileCached(h, conf, s, prev, vars, k, j);
    EntryTold(h, conf, s, prev, vars, k, j);
    ChunkInContainer(h, conf, vars, dbs, meta, s.file, k, j);
    EntryMetadata(h, conf, s, prev, vars, k, j);
    MetadataStays(h, conf, vars, dbs, meta, s.file, k, at, CHUNK_META);
    EntryFollows(MetaWritten(h, vars, dbs, s.file), file', at, Hashed(h, vars, e));
    var e' := Finished(h, conf, vars, Hashed(h, vars, e));
    EntryForFinished(file', at, e, Hashed(h, vars, e), e');
    SavedParts(h, vars, e, e', file');
  }

  lemma MetaInHead(at: nat, db: Db, j: nat)
    requires j < |db.dbvars|
    ensures at <= MetaAt(at, j) && MetaAt(at, j) + CHUNK_META <= at + HeadSize(db)
  {
  }

  lemma EntryForFinished(file: File, at: nat, e: DbVar, hashed: DbVar, e': DbVar)
    requires EntryAt(file, at, hashed)
    requires e'.(hasCkpt := e.hasCkpt, hashes := e.hashes, update := e.update) == hashed
    ensures EntryAt(file, at, e')
  {
    hide ChunkBytesOf, Region;
    var b :| Region(file, at, CHUNK_META) == ChunkBytesOf(RecordOf(hashed.(hasCkpt := b)));
    assert RecordOf(hashed.(hasCkpt := b)) == RecordOf(e'.(hasCkpt := b));
  }

  lemma SavedParts(h: Hashing, vars: seq<Variable>, e: DbVar, e': DbVar, file: File)
    requires e'.hash == ChunkHash(h, vars, e) && ChunkHash(h, vars, e') == ChunkHash(h, vars, e)
    requires ChunkData(vars, e') == ChunkData(vars, e) && e'.fptr == e.fptr
    requires HoldsChunk(file, e.fptr, ChunkData(vars, e))
    ensures ChunkSaved(h, vars, e', file)
  {
  }

  lemma HeadSaved(h: Hashing, conf: DcpConf, s: State, prev: seq<Variable>, vars: seq<Variable>, meta: FileRecord,
                  k: nat)
    requires ValidConf(conf) && Ready(h, conf, s, prev) && Grows(Sizes(prev), Sizes(vars)) && FitsFile(meta)
    requires ResizableBlocks(s.dbs, Sizes(vars), conf) && LayoutOk(Updated(s.dbs, Sizes(vars), conf), Sizes(vars), conf)
    requires k < |Updated(s.dbs, Sizes(vars), conf)|
    ensures HeadOnFile(Updated(s.dbs, Sizes(vars), conf),
              FileAfter(h, conf, vars, Updated(s.dbs, Sizes(vars), conf), meta, s.file), k)
  {
    var dbs := Updated(s.dbs, Sizes(vars), conf);
    assert BlocksOk(dbs);
    HeadOrOld(h, conf, s, prev, vars, k);
    hide BlocksOk, SlotsOk, Updated, FileAfter, MetaWritten, BlockBytesOf, Region, End, FitsFile, Ready, LayoutOk,
         ResizableBlocks;
    HeadWritten(h, vars, dbs, s.file, k);
    MetadataStays(h, conf, vars, dbs, meta, s.file, k, End(dbs[..k]), BLOCK_META);
  }

  lemma HeadOrOld(h: Hashing, conf: DcpConf, s: State, prev: seq<Variable>, vars: seq<Variable>, k: nat)
    requires ValidConf(conf) && Ready(h, conf, s, prev) && Grows(Sizes(prev), Sizes(vars))
    requires ResizableBlocks(s.dbs, Sizes(vars), conf) && k < |Updated(s.dbs, Sizes(vars), conf)|
    ensures Updated(s.dbs, Sizes(vars), conf)[k].update || HeadOnFile(Updated(s.dbs, Sizes(vars), conf), s.file, k)
  {
    hide BlocksOk, SlotsOk, Updated, Region, End, BlockBytesOf, Resize, HashesFit, Entries, Growing, EntryReady,
         Resizable;
    if k < |s.dbs| {
      OldBlock(s.dbs, Sizes(vars), conf, k);
      AllResizable(Entries(s.dbs), Sizes(prev), Sizes(vars), conf);
      OldStart(s.dbs, Sizes(vars), conf, k);
      assert HeadReady(s, k);
      ResizedBlockShape(s.dbs[k], Sizes(vars), conf);
    } else {
      LastBlockIsNew(s.dbs, Sizes(vars), conf, k);
    }
  }

  /**
   * One checkpoint.  Whatever blocks and metadata it skips, the file afterwards has the metadata of every block and
   * chunk and, in every container, exactly the bytes now in memory.
   */
  lemma CheckpointSaves(h: Hashing, conf: DcpConf, s: State, prev: seq<Variable>, vars: seq<Variable>, meta: FileRecord)
    requires ValidConf(conf) && ValidHashing(h) && Ready(h, conf, s, prev) && Grows(Sizes(prev), Sizes(vars))
             && FitsFile(meta)
    ensures ResizableBlocks(s.dbs, Sizes(vars), conf)
    ensures Collisionless(h, conf, s, prev, vars) ==> Saved(h, conf, Checkpointed(h, conf, s, vars, meta), vars)
    ensures AppendsOnly(s.dbs, Checkpointed(h, conf, s, vars, meta).dbs)
  {
    UpdateKeepsLayout(s.dbs, Sizes(prev), Sizes(vars), conf);
    var dbs, s' := Updated(s.dbs, Sizes(vars), conf), Checkpointed(h, conf, s, vars, meta);
    assert s'.dbs == FinishedBlocks(h, conf, vars, dbs) && s'.file == FileAfter(h, conf, vars, dbs, meta, s.file);
    hide *;
    FinishedBlocksSame(h, conf, vars, dbs);
    SameLayout(dbs, s'.dbs, Sizes(vars), conf);
    SameAppends(s.dbs, dbs, s'.dbs, conf);
    if Collisionless(h, conf, s, prev, vars) {
      forall k | 0 <= k < |s'.dbs|
        ensures HeadOnFile(s'.dbs, s'.file, k)
      {
        HeadSaved(h, conf, s, prev, vars, meta, k);
        HeadOfFinished(h, conf, vars, dbs, s'.file, k);
      }
      forall k, j | 0 <= k < |s'.dbs| && 0 <= j < |s'.dbs[k].dbvars|
        ensures EntryOnFile(s'.dbs, s'.file, k, j) && ChunkSaved(h, vars, s'.dbs[k].dbvars[j], s'.file)
      {
        EntrySaved(h, conf, s, prev, vars, meta, k, j);
        EntryOfFinished(h, conf, vars, dbs, s'.file, k, j);
      }
      AllSaved(h, conf, s', vars);
    }
  }

  lemma AllSaved(h: Hashing, conf: DcpConf, s: State, vars: seq<Variable>)
    requires ValidConf(conf) && LayoutOk(s.dbs, Sizes(vars), conf)
    requires forall k :: 0 <= k < |s.dbs| ==> HeadOnFile(s.dbs, s.file, k)
    requires forall k, j :: 0 <= k < |s.dbs| && 0 <= j < |s.dbs[k].dbvars| ==>
               EntryOnFile(s.dbs, s.file, k, j) && ChunkSaved(h, vars, s.dbs[k].dbvars[j], s.file)
    ensures Saved(h, conf, s, vars)
  {
  }

  lemma HeadOfFinished(h: Hashing, conf: DcpConf, vars: seq<Variable>, dbs: seq<Db>, file: File, k: nat)
    requires ValidConf(conf) && LayoutOk(dbs, Sizes(vars), conf) && k < |dbs| && HeadOnFile(dbs, file, k)
    ensures HeadOnFile(FinishedBlocks(h, conf, vars, dbs), file, k)
  {
    hide LayoutOk, Region, End, BlockBytesOf, Finished;
    FinishedBlocksSame(h, conf, vars, dbs);
    SameLayout(dbs, FinishedBlocks(h, conf, vars, dbs), Sizes(vars), conf);
  }

  lemma EntryOfFinished(h: Hashing, conf: DcpConf, vars: seq<Variable>, dbs: seq<Db>, file: File, k: nat, j: nat)
    requires ValidConf(conf) && LayoutOk(dbs, Sizes(vars), conf)
    requires k < |FinishedBlocks(h, conf, vars, dbs)| && j < |FinishedBlocks(h, conf, vars, dbs)[k].dbvars|
    ensures var e' := Finished(h, conf, vars, Hashed(h, vars, dbs[k].dbvars[j]));
            && FinishedBlocks(h, conf, vars, dbs)[k].dbvars[j] == e'
            && (EntryAt(file, MetaAt(End(dbs[..k]), j), e') ==>
                  EntryOnFile(FinishedBlocks(h, conf, vars, dbs), file, k, j))
  {
    hide LayoutOk, EntryAt, End, Finished, Hashed;
    FinishedBlocksSame(h, conf, vars, dbs);
    SameLayout(dbs, FinishedBlocks(h, conf, vars, dbs), Sizes(vars), conf);
  }

  lemma SameAppends(a: seq<Db>, b: seq<Db>, c: seq<Db>, conf: DcpConf)
    requires ValidConf(conf) && AppendsOnly(a, b) && SameBlocks(b, c, conf)
    ensures AppendsOnly(a, c)
  {
    hide Entries, HashesFit;
    SameEntries(b, c, conf);
    forall i | 0 <= i < |Entries(a)|
      ensures SamePlace(Entries(a)[i], Entries(c)[i])
    {
      OneSameChunk(Entries(b), Entries(c), i, conf);
    }
    forall k | 0 <= k < |a|
      ensures c[k].dbsize == a[k].dbsize && |c[k].dbvars| == |a[k].dbvars|
    {
      assert SameBlock(b[k], c[k], conf);
    }
  }
}
