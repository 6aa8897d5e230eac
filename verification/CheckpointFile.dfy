/**
 * One FTI-FF checkpoint as a function of the block list, the file, and the memory: the metadata that changed, and the
 * data chunks, whole or only their changed blocks.
 */
module CheckpointFile {
  import opened DirtyRuns
  import opened FileBytes
  import opened Layout
  import opened LayoutTheorems
  import opened Metadata

  /** A protected variable with its present bytes. */
  datatype Variable = Variable(id: nat, mem: seq<Byte>)

  function Sizes(vars: seq<Variable>): (r: seq<Dataset>)
    ensures |r| == |vars| && forall p :: 0 <= p < |r| ==> r[p] == Dataset(vars[p].id, |vars[p].mem|)
  {
    seq(|vars|, p requires 0 <= p < |vars| => Dataset(vars[p].id, |vars[p].mem|))
  }

  /** The hash functions: one for the blocks of differential checkpointing, one (MD5) for whole chunks. */
  datatype Hashing = Hashing(block: Hash, chunk: seq<Byte> -> seq<Byte>)

  ghost predicate ValidHashing(h: Hashing) {
    forall data :: |h.chunk(data)| == DIGEST
  }

  /** The bytes of a chunk; none without content. */
  function ChunkData(vars: seq<Variable>, e: DbVar): seq<Byte> {
    if e.hascontent && e.idx < |vars| && e.dptr + e.chunksize <= |vars[e.idx].mem| then
      vars[e.idx].mem[e.dptr..e.dptr + e.chunksize]
    else []
  }

  /** The chunk hash as the writer finds it; that of a chunk without content is not specified. */
  function ChunkHash(h: Hashing, vars: seq<Variable>, e: DbVar): seq<Byte> {
    if e.hascontent then h.chunk(ChunkData(vars, e)) else []
  }

  function Hashed(h: Hashing, vars: seq<Variable>, e: DbVar): DbVar {
    e.(hash := ChunkHash(h, vars, e))
  }

  /** The metadata of a chunk is written when it is new, or its bytes changed, or it has no content. */
  predicate NeedsMetadata(h: Hashing, vars: seq<Variable>, e: DbVar) {
    e.update || !e.hascontent || e.hash != ChunkHash(h, vars, e)
  }

  function Unspecified(): (r: seq<Byte>)
    ensures |r| == DIGEST
  {
    seq(DIGEST, _ => 0)
  }

  function RecordOf(e: DbVar): (r: ChunkRecord)
    ensures |r.hash| == DIGEST
  {
    ChunkRecord(e.id, e.idx, e.containerid, e.hascontent, e.hasCkpt, e.dptr, e.fptr, e.chunksize, e.containersize,
      if |e.hash| == DIGEST then e.hash else Unspecified())
  }

  // ------------------------------------------------------------------ writes in order

  datatype Write = Write(at: nat, bytes: seq<Byte>)

  function Apply(file: File, ws: seq<Write>): File {
    if ws == [] then file
    else WriteAt(Apply(file, ws[..|ws| - 1]), ws[|ws| - 1].at, ws[|ws| - 1].bytes)
  }

  lemma {:induction false} ApplyOne(file: File, ws: seq<Write>, w: Write)
    ensures Apply(file, ws + [w]) == WriteAt(Apply(file, ws), w.at, w.bytes)
  {
    assert (ws + [w])[..|ws|] == ws;
  }

  lemma {:induction false} ApplyAppend(file: File, ws: seq<Write>, more: seq<Write>)
    ensures Apply(file, ws + more) == Apply(Apply(file, ws), more)
    decreases |more|
  {
    if more == [] {
      assert ws + more == ws;
    } else {
      var front := more[..|more| - 1];
      ApplyAppend(file, ws, front);
      assert (ws + more)[..|ws + more| - 1] == ws + front;
    }
  }

  /** All writes lie between `lo` and `hi`. */
  ghost predicate Between(ws: seq<Write>, lo: nat, hi: nat) {
    forall i :: 0 <= i < |ws| ==> lo <= ws[i].at && ws[i].at + |ws[i].bytes| <= hi
  }

  lemma {:induction false} ApplyElsewhere(file: File, ws: seq<Write>, lo: nat, hi: nat, at: nat, size: nat)
    requires Between(ws, lo, hi) && (at + size <= lo || hi <= at)
    ensures Region(Apply(file, ws), at, size) == Region(file, at, size)
    decreases |ws|
  {
    hide WriteAt, Region;
    if ws != [] {
      var front, w := ws[..|ws| - 1], ws[|ws| - 1];
      ApplyElsewhere(file, front, lo, hi, at, size);
      WriteElsewhere(Apply(file, front), w.at, w.bytes, at, size);
    }
  }

  // ------------------------------------------------------------------ the metadata

  function HeadWrite(db: Db, at: nat): seq<Write> {
    if db.update then [Write(at, BlockBytesOf(BlockRecord(|db.dbvars|, db.dbsize)))] else []
  }

  /** Where the metadata of entry `j` of a block at `at` is. */
  function MetaAt(at: nat, j: nat): nat {
    at + BLOCK_META + CHUNK_META * j
  }

  function EntryWrite(h: Hashing, vars: seq<Variable>, e: DbVar, at: nat): seq<Write>
  {
    if NeedsMetadata(h, vars, e) then [Write(at, ChunkBytesOf(RecordOf(Hashed(h, vars, e))))] else []
  }

  /** The metadata writes of a block, up to those for its first `n` entries. */
  function BlockWrites(h: Hashing, vars: seq<Variable>, db: Db, at: nat, n: nat): seq<Write>
    requires n <= |db.dbvars|
  {
    if n == 0 then HeadWrite(db, at)
    else BlockWrites(h, vars, db, at, n - 1) + EntryWrite(h, vars, db.dbvars[n - 1], MetaAt(at, n - 1))
  }

  /** The metadata writes of the first `k` blocks. */
  function MetaWrites(h: Hashing, vars: seq<Variable>, dbs: seq<Db>, k: nat): seq<Write>
    requires k <= |dbs|
  {
    if k == 0 then []
    else MetaWrites(h, vars, dbs, k - 1) + BlockWrites(h, vars, dbs[k - 1], End(dbs[..k - 1]), |dbs[k - 1].dbvars|)
  }

  lemma {:induction false} BlockWritesBetween(h: Hashing, vars: seq<Variable>, db: Db, at: nat, n: nat)
    requires n <= |db.dbvars|
    ensures Between(BlockWrites(h, vars, db, at, n), at, MetaAt(at, n))
    decreases n
  {
    hide ChunkBytesOf, BlockBytesOf, NeedsMetadata, Hashed, RecordOf;
    if n != 0 {
      BlockWritesBetween(h, vars, db, at, n - 1);
    }
  }

  lemma EntryWriteBetween(h: Hashing, vars: seq<Variable>, e: DbVar, at: nat)
    ensures Between(EntryWrite(h, vars, e, at), at, at + CHUNK_META)
  {
    hide ChunkBytesOf, NeedsMetadata, Hashed, RecordOf;
  }

  lemma BlockWritesStep(h: Hashing, vars: seq<Variable>, db: Db, at: nat, n: nat, file: File)
    requires n < |db.dbvars|
    ensures Apply(file, BlockWrites(h, vars, db, at, n + 1)) ==
            Apply(Apply(file, BlockWrites(h, vars, db, at, n)), EntryWrite(h, vars, db.dbvars[n], MetaAt(at, n)))
  {
    hide Apply, EntryWrite, MetaAt;
    ApplyAppend(file, BlockWrites(h, vars, db, at, n), EntryWrite(h, vars, db.dbvars[n], MetaAt(at, n)));
  }

  lemma {:induction false} OneWrite(file: File, at: nat, bytes: seq<Byte>)
    ensures Region(Apply(file, [Write(at, bytes)]), at, |bytes|) == bytes
  {
    hide Region, WriteAt;
    ApplyOne(file, [], Write(at, bytes));
    WriteHere(file, at, bytes);
  }

  lemma {:induction false} HeadWriteSticks(db: Db, at: nat, file: File)
    ensures Region(Apply(file, HeadWrite(db, at)), at, BLOCK_META) ==
            if db.update then BlockBytesOf(BlockRecord(|db.dbvars|, db.dbsize)) else Region(file, at, BLOCK_META)
  {
    hide Region, WriteAt;
    var bytes := BlockBytesOf(BlockRecord(|db.dbvars|, db.dbsize));
    hide BlockBytesOf;
    OneWrite(file, at, bytes);
  }

  lemma {:induction false} EntryWriteSticks(h: Hashing, vars: seq<Variable>, e: DbVar, at: nat, file: File)
    ensures Region(Apply(file, EntryWrite(h, vars, e, at)), at, CHUNK_META) ==
            if NeedsMetadata(h, vars, e) then ChunkBytesOf(RecordOf(Hashed(h, vars, e)))
              else Region(file, at, CHUNK_META)
  {
    var bytes := ChunkBytesOf(RecordOf(Hashed(h, vars, e)));
    hide Region, WriteAt, NeedsMetadata, ChunkBytesOf, RecordOf;
    OneWrite(file, at, bytes);
  }

  /** The head of a block after the writes for its first `n` entries. */
  lemma {:induction false} HeadSticks(h: Hashing, vars: seq<Variable>, db: Db, at: nat, n: nat, file: File)
    requires n <= |db.dbvars|
    ensures Region(Apply(file, BlockWrites(h, vars, db, at, n)), at, BLOCK_META) ==
            if db.update then BlockBytesOf(BlockRecord(|db.dbvars|, db.dbsize)) else Region(file, at, BLOCK_META)
    decreases n
  {
    hide Region, Apply, BlockBytesOf, EntryWrite, HeadWrite;
    if n == 0 {
      HeadWriteSticks(db, at, file);
    } else {
      HeadSticks(h, vars, db, at, n - 1, file);
      BlockWritesStep(h, vars, db, at, n - 1, file);
      EntryWriteBetween(h, vars, db.dbvars[n - 1], MetaAt(at, n - 1));
      ApplyElsewhere(Apply(file, BlockWrites(h, vars, db, at, n - 1)),
                     EntryWrite(h, vars, db.dbvars[n - 1], MetaAt(at, n - 1)),
        MetaAt(at, n - 1), MetaAt(at, n), at, BLOCK_META);
    }
  }

  /** The metadata of entry `j` of a block after the writes for its first `n` entries. */
  lemma {:induction false} EntrySticks(h: Hashing, vars: seq<Variable>, db: Db, at: nat, n: nat, file: File, j: nat)
    requires j < n <= |db.dbvars|
    ensures Region(Apply(file, BlockWrites(h, vars, db, at, n)), MetaAt(at, j), CHUNK_META) ==
            if NeedsMetadata(h, vars, db.dbvars[j]) then ChunkBytesOf(RecordOf(Hashed(h, vars, db.dbvars[j])))
            else Region(file, MetaAt(at, j), CHUNK_META)
    decreases n
  {
    hide Region, Apply, BlockWrites, EntryWrite, NeedsMetadata, ChunkBytesOf, RecordOf, Hashed;
    BlockWritesStep(h, vars, db, at, n - 1, file);
    var before := Apply(file, BlockWrites(h, vars, db, at, n - 1));
    if j < n - 1 {
      EntrySticks(h, vars, db, at, n - 1, file, j);
      EntryWriteBetween(h, vars, db.dbvars[n - 1], MetaAt(at, n - 1));
      ApplyElsewhere(before, EntryWrite(h, vars, db.dbvars[n - 1], MetaAt(at, n - 1)),
        MetaAt(at, n - 1), MetaAt(at, n), MetaAt(at, j), CHUNK_META);
    } else {
      EntryWriteSticks(h, vars, db.dbvars[j], MetaAt(at, j), before);
      BlockWritesBetween(h, vars, db, at, n - 1);
      ApplyElsewhere(file, BlockWrites(h, vars, db, at, n - 1), at, MetaAt(at, n - 1), MetaAt(at, j), CHUNK_META);
    }
  }

  lemma MetaWritesStep(h: Hashing, vars: seq<Variable>, dbs: seq<Db>, k: nat, file: File)
    requires k < |dbs|
    ensures Apply(file, MetaWrites(h, vars, dbs, k + 1)) ==
            Apply(Apply(file, MetaWrites(h, vars, dbs, k)),
                  BlockWrites(h, vars, dbs[k], End(dbs[..k]), |dbs[k].dbvars|))
  {
    hide Apply, BlockWrites, End;
    ApplyAppend(file, MetaWrites(h, vars, dbs, k), BlockWrites(h, vars, dbs[k], End(dbs[..k]), |dbs[k].dbvars|));
  }

  lemma {:induction false} BlockWritesInHead(h: Hashing, vars: seq<Variable>, db: Db, at: nat)
    ensures Between(BlockWrites(h, vars, db, at, |db.dbvars|), at, at + HeadSize(db))
  {
    hide BlockWrites;
    BlockWritesBetween(h, vars, db, at, |db.dbvars|);
  }

  /** A stretch of the file that meets the metadata of none of the first `k` blocks stays as it is. */
  lemma {:induction false} ClearOfMetaWrites(h: Hashing, vars: seq<Variable>, dbs: seq<Db>, k: nat, file: File, at: nat,
                                             size: nat)
    requires k <= |dbs| && forall m :: 0 <= m < k ==> Apart(at, size, End(dbs[..m]), HeadSize(dbs[m]))
    ensures Region(Apply(file, MetaWrites(h, vars, dbs, k)), at, size) == Region(file, at, size)
    decreases k
  {
    hide Region, BlockWrites, End, Apply, HeadSize;
    if k == 0 {
      NothingApplied(file);
    } else {
      ClearOfMetaWrites(h, vars, dbs, k - 1, file, at, size);
      MetaWritesStep(h, vars, dbs, k - 1, file);
      var start := End(dbs[..k - 1]);
      BlockWritesInHead(h, vars, dbs[k - 1], start);
      ApplyElsewhere(Apply(file, MetaWrites(h, vars, dbs, k - 1)),
                     BlockWrites(h, vars, dbs[k - 1], start, |dbs[k - 1].dbvars|),
        start, start + HeadSize(dbs[k - 1]), at, size);
    }
  }

  lemma {:induction false} NothingApplied(file: File)
    ensures Apply(file, []) == file
  {
  }

  /** A part of the metadata of block `k` is as the writes for this block leave it. */
  lemma {:induction false} OwnBlockDecides(h: Hashing, vars: seq<Variable>, dbs: seq<Db>, n: nat, file: File, k: nat,
                                           at: nat, size: nat)
    requires BlocksOk(dbs) && k < n <= |dbs| && End(dbs[..k]) <= at && at + size <= End(dbs[..k]) + HeadSize(dbs[k])
    ensures Region(Apply(file, MetaWrites(h, vars, dbs, n)), at, size) ==
            Region(Apply(Apply(file, MetaWrites(h, vars, dbs, k)),
                         BlockWrites(h, vars, dbs[k], End(dbs[..k]), |dbs[k].dbvars|)), at, size)
    decreases n
  {
    hide Region, BlockWrites, End, Apply, HeadSize, MetaWrites, BlocksOk;
    MetaWritesStep(h, vars, dbs, n - 1, file);
    if k < n - 1 {
      OwnBlockDecides(h, vars, dbs, n - 1, file, k, at, size);
      HeadsApart(dbs, k, n - 1);
      HeadInBlock(dbs, k);
      BlocksFollow(dbs, k + 1, n - 1);
      var start := End(dbs[..n - 1]);
      BlockWritesInHead(h, vars, dbs[n - 1], start);
      ApplyElsewhere(Apply(file, MetaWrites(h, vars, dbs, n - 1)),
                     BlockWrites(h, vars, dbs[n - 1], start, |dbs[n - 1].dbvars|),
        start, start + HeadSize(dbs[n - 1]), at, size);
    }
  }

  /** The file after all metadata of blocks was written. */
  function MetaWritten(h: Hashing, vars: seq<Variable>, dbs: seq<Db>, file: File): File {
    Apply(file, MetaWrites(h, vars, dbs, |dbs|))
  }

  /** Before block `k` gets its turn its metadata are as in the old file. */
  lemma {:induction false} NotYetWritten(h: Hashing, vars: seq<Variable>, dbs: seq<Db>, file: File, k: nat, at: nat,
                                         size: nat)
    requires BlocksOk(dbs) && k < |dbs| && End(dbs[..k]) <= at && at + size <= End(dbs[..k]) + HeadSize(dbs[k])
    ensures Region(Apply(file, MetaWrites(h, vars, dbs, k)), at, size) == Region(file, at, size)
  {
    hide Region, BlockWrites, End, Apply, HeadSize, MetaWrites, BlocksOk;
    forall m | 0 <= m < k
      ensures Apart(at, size, End(dbs[..m]), HeadSize(dbs[m]))
    {
      HeadInBlock(dbs, m);
      BlocksFollow(dbs, m + 1, k);
    }
    ClearOfMetaWrites(h, vars, dbs, k, file, at, size);
  }

  lemma HeadWritten(h: Hashing, vars: seq<Variable>, dbs: seq<Db>, file: File, k: nat)
    requires BlocksOk(dbs) && k < |dbs|
    ensures Region(MetaWritten(h, vars, dbs, file), End(dbs[..k]), BLOCK_META) ==
            if dbs[k].update then BlockBytesOf(BlockRecord(|dbs[k].dbvars|, dbs[k].dbsize))
            else Region(file, End(dbs[..k]), BLOCK_META)
  {
    hide Region, BlockWrites, End, Apply, MetaWrites, BlocksOk, BlockBytesOf;
    var start := End(dbs[..k]);
    OwnBlockDecides(h, vars, dbs, |dbs|, file, k, start, BLOCK_META);
    NotYetWritten(h, vars, dbs, file, k, start, BLOCK_META);
    HeadSticks(h, vars, dbs[k], start, |dbs[k].dbvars|, Apply(file, MetaWrites(h, vars, dbs, k)));
  }

  lemma EntryWritten(h: Hashing, vars: seq<Variable>, dbs: seq<Db>, file: File, k: nat, j: nat)
    requires BlocksOk(dbs) && k < |dbs| && j < |dbs[k].dbvars|
    ensures var at := MetaAt(End(dbs[..k]), j);
            Region(MetaWritten(h, vars, dbs, file), at, CHUNK_META) ==
            if NeedsMetadata(h, vars, dbs[k].dbvars[j]) then ChunkBytesOf(RecordOf(Hashed(h, vars, dbs[k].dbvars[j])))
            else Region(file, at, CHUNK_META)
  {
    hide Region, BlockWrites, End, Apply, MetaWrites, BlocksOk, ChunkBytesOf, RecordOf, Hashed, NeedsMetadata;
    var start := End(dbs[..k]);
    var at := MetaAt(start, j);
    OwnBlockDecides(h, vars, dbs, |dbs|, file, k, at, CHUNK_META);
    NotYetWritten(h, vars, dbs, file, k, at, CHUNK_META);
    EntrySticks(h, vars, dbs[k], start, |dbs[k].dbvars|, Apply(file, MetaWrites(h, vars, dbs, k)), j);
  }

  /** The containers are not touched by the metadata. */
  lemma ContainersKept(h: Hashing, vars: seq<Variable>, dbs: seq<Db>, file: File, k: nat, j: nat)
    requires BlocksOk(dbs) && k < |dbs| && j < |dbs[k].dbvars|
    ensures var e := dbs[k].dbvars[j];
            Region(MetaWritten(h, vars, dbs, file), e.fptr, e.containersize) == Region(file, e.fptr, e.containersize)
  {
    hide Region, End, Apply, MetaWrites, BlocksOk, HeadSize;
    var e := dbs[k].dbvars[j];
    forall m | 0 <= m < |dbs|
      ensures Apart(e.fptr, e.containersize, End(dbs[..m]), HeadSize(dbs[m]))
    {
      ContainerClearOfMetadata(dbs, k, j, m);
    }
    ClearOfMetaWrites(h, vars, dbs, |dbs|, file, e.fptr, e.containersize);
  }
}
