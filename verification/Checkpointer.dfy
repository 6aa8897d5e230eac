/** The process that takes checkpoints: its block list, its iterator over dirty runs, and its checkpoint file. */
module Checkpointer {
  import opened BlockHashes
  import opened BlockList
  import opened CheckpointFile
  import opened CheckpointState
  import opened CheckpointTheorems
  import opened ChunkWriter
  import opened DataPass
  import opened DirtyRuns
  import opened FileBytes
  import opened Layout
  import opened LayoutInvariants
  import opened Metadata

  // ------------------------------------------------------------------ first pass

  /** Hashes one chunk and writes its metadata if they changed. */
  method WriteEntry(h: Hashing, vars: seq<Variable>, e: DbVar, at: nat, file: File) returns (e': DbVar, file': File)
    ensures e' == Hashed(h, vars, e) && file' == Apply(file, EntryWrite(h, vars, e, at))
  {
    hide ChunkBytesOf, WriteAt;
    var hashchk := [];
    if e.hascontent {
      hashchk := h.chunk(ChunkData(vars, e));
    }
    var contentUpdate := !e.hascontent || e.hash != hashchk;
    e' := e.(hash := hashchk);
    file' := file;
    NothingApplied(file);
    if e.update || contentUpdate {
      var buffer := new Byte[CHUNK_RECORD](_ => 0);
      SerializeChunk(RecordOf(e'), buffer);
      ApplyOne(file, [], Write(at, buffer[..]));
      file' := WriteAt(file, at, buffer[..]);
    }
  }

  /** The metadata of a block at `at`. */
  method WriteBlock(h: Hashing, vars: seq<Variable>, db: Db, at: nat, file: File) returns (db': Db, file': File)
    ensures db' == HashedBlock(h, vars, db)
    ensures file' == Apply(file, BlockWrites(h, vars, db, at, |db.dbvars|))
  {
    hide Hashed, EntryWrite, Apply, BlockBytesOf, WriteAt;
    file' := file;
    NothingApplied(file);
    if db.update {
      var buffer := new Byte[BLOCK_RECORD](_ => 0);
      SerializeBlock(BlockRecord(|db.dbvars|, db.dbsize), buffer);
      ApplyOne(file, [], Write(at, buffer[..]));
      assert [] + [Write(at, buffer[..])] == HeadWrite(db, at);
      file' := WriteAt(file, at, buffer[..]);
    }
    var mdoffset := at + BLOCK_META;
    var dbvars := [];
    for j := 0 to |db.dbvars|
      invariant dbvars == HashedBlock(h, vars, db).dbvars[..j]
      invariant mdoffset == MetaAt(at, j)
      invariant file' == Apply(file, BlockWrites(h, vars, db, at, j))
    {
      BlockWritesStep(h, vars, db, at, j, file);
      var e;
      e, file' := WriteEntry(h, vars, db.dbvars[j], mdoffset, file');
      dbvars := dbvars + [e];
      mdoffset := mdoffset + CHUNK_META;
    }
    db' := db.(dbvars := dbvars);
  }

  function HashedBlocks(h: Hashing, vars: seq<Variable>, dbs: seq<Db>): (r: seq<Db>)
    ensures |r| == |dbs| && forall k :: 0 <= k < |dbs| ==> r[k] == HashedBlock(h, vars, dbs[k])
  {
    seq(|dbs|, k requires 0 <= k < |dbs| => HashedBlock(h, vars, dbs[k]))
  }

  /** The metadata of all blocks; the file ends where the last block does. */
  method WriteMetadata(h: Hashing, vars: seq<Variable>, dbs: seq<Db>, file: File)
    returns (dbs': seq<Db>, file': File, endoffile: nat)
    ensures dbs' == HashedBlocks(h, vars, dbs)
    ensures file' == MetaWritten(h, vars, dbs, file) && endoffile == End(dbs)
  {
    hide HashedBlock, Apply, BlockWrites, End;
    endoffile, dbs', file' := FILE_META, [], file;
    NothingApplied(file);
    EmptyList();
    for k := 0 to |dbs|
      invariant dbs' == HashedBlocks(h, vars, dbs)[..k]
      invariant endoffile == End(dbs[..k])
      invariant file' == Apply(file, MetaWrites(h, vars, dbs, k))
    {
      MetaWritesStep(h, vars, dbs, k, file);
      EntriesStep(dbs, k);
      var db;
      db, file' := WriteBlock(h, vars, dbs[k], endoffile, file');
      endoffile := endoffile + dbs[k].dbsize;
      dbs' := dbs' + [db];
    }
    assert dbs[..|dbs|] == dbs;
  }

  // ------------------------------------------------------------------ second pass

  /** An entry whose blocks were checked against the present bytes. */
  function MarkedEntry(h: Hashing, conf: DcpConf, vars: seq<Variable>, e: DbVar): DbVar {
    if conf.Dcp? && Writable(conf, vars, e) then
      e.(hashes := MarkedHashes(h.block, e.hashes, ChunkData(vars, e), conf.blockSize))
    else e
  }

  /** The entry is on file and need not be written again. */
  function FlaggedEntry(e: DbVar): DbVar {
    e.(hasCkpt := true, update := false)
  }

  lemma HashedChunk(h: Hashing, conf: DcpConf, vars: seq<Variable>, e: DbVar)
    ensures ChunkData(vars, Hashed(h, vars, e)) == ChunkData(vars, e)
    ensures Writable(conf, vars, Hashed(h, vars, e)) == Writable(conf, vars, e)
    ensures Hashed(h, vars, e).hashes == e.hashes && Hashed(h, vars, e).fptr == e.fptr
  {
    hide NumHashes;
  }

  lemma {:induction false} FitsChunk(conf: DcpConf, e: DbVar, data: seq<Byte>)
    requires ValidConf(conf) && HashesFit(e, conf) && |data| == e.chunksize
    requires conf.Dcp? ==> |e.hashes| == NumHashes(|data|, conf.blockSize)
    ensures Fits(conf, e.hashes, data)
  {
    if conf.Dcp? && !e.hascontent {
      NumHashesCovers(|data|, conf.blockSize);
    }
  }

  method WriteEntryData(it: DataChunkIterator, h: Hashing, conf: DcpConf, vars: seq<Variable>, ghost e0: DbVar,
                        e: DbVar, file: File)
    returns (e': DbVar, file': File)
    requires it.init && ValidConf(conf) && e == Hashed(h, vars, e0)
    requires HashesFit(e0, conf) && Writable(conf, vars, e0) && |ChunkData(vars, e0)| == e0.chunksize
    modifies it
    ensures it.init && file' == OneChunk(h, conf, vars, e0, file) && e' == MarkedEntry(h, conf, vars, e)
  {
    hide ChunkWritten, NumHashes, HashesFit, Tiles, CheckedUpTo, MarkedHashes, ChunkData, Hashed;
    HashedChunk(h, conf, vars, e0);
    var data := ChunkData(vars, e);
    FitsChunk(conf, e0, data);
    var marked;
    file', marked := WriteChunk(it, h.block, conf, file, e.fptr, e.hashes, data);
    e' := e;
    if conf.Dcp? {
      CheckedIsMarked(h.block, e.hashes, marked, data, conf.blockSize);
      e' := e.(hashes := marked);
    }
  }

  function MarkedBlock(h: Hashing, conf: DcpConf, vars: seq<Variable>, db: Db): (r: Db)
    ensures |r.dbvars| == |db.dbvars| && r.dbsize == db.dbsize && r.update == db.update
    ensures forall j :: 0 <= j < |db.dbvars| ==>
            r.dbvars[j] == MarkedEntry(h, conf, vars, Hashed(h, vars, db.dbvars[j]))
  {
    db.(dbvars :=
        seq(|db.dbvars|, j requires 0 <= j < |db.dbvars| => MarkedEntry(h, conf, vars, Hashed(h, vars, db.dbvars[j]))))
  }

  lemma {:induction false} DataStep(h: Hashing, conf: DcpConf, vars: seq<Variable>, dbs: seq<Db>, k: nat, j: nat,
                                    start: File)
    requires k < |dbs| && j < |dbs[k].dbvars|
    ensures DataWritten(h, conf, vars, Entries(dbs[..k]) + dbs[k].dbvars[..j + 1], start) ==
            OneChunk(h, conf, vars, dbs[k].dbvars[j],
                     DataWritten(h, conf, vars, Entries(dbs[..k]) + dbs[k].dbvars[..j], start))
  {
    hide OneChunk, Entries;
    var es := Entries(dbs[..k]) + dbs[k].dbvars[..j + 1];
    assert es[..|es| - 1] == Entries(dbs[..k]) + dbs[k].dbvars[..j];
  }

  method WriteBlockData(it: DataChunkIterator, h: Hashing, conf: DcpConf, vars: seq<Variable>, ghost dbs: seq<Db>,
                        ghost k: nat, db: Db, file: File, ghost start: File)
    returns (db': Db, file': File)
    requires it.init && ValidConf(conf) && k < |dbs| && LayoutOk(dbs, Sizes(vars), conf)
             && db == HashedBlock(h, vars, dbs[k])
    requires file == DataWritten(h, conf, vars, Entries(dbs[..k]), start)
    modifies it
    ensures it.init && db' == MarkedBlock(h, conf, vars, dbs[k])
    ensures file' == DataWritten(h, conf, vars, Entries(dbs[..k + 1]), start)
  {
    hide LayoutOk, MarkedEntry, OneChunk, DataWritten, Entries, HashesFit, Writable, ChunkData, Hashed;
    file' := file;
    var dbvars := [];
    assert Entries(dbs[..k]) + dbs[k].dbvars[..0] == Entries(dbs[..k]);
    for j := 0 to |db.dbvars|
      invariant it.init && dbvars == MarkedBlock(h, conf, vars, dbs[k]).dbvars[..j]
      invariant file' == DataWritten(h, conf, vars, Entries(dbs[..k]) + dbs[k].dbvars[..j], start)
    {
      InOrder(dbs, vars, conf, k, j);
      DataStep(h, conf, vars, dbs, k, j, start);
      var e;
      e, file' := WriteEntryData(it, h, conf, vars, dbs[k].dbvars[j], db.dbvars[j], file');
      dbvars := dbvars + [e];
    }
    EntriesStep(dbs, k);
    assert dbs[k].dbvars[..|db.dbvars|] == dbs[k].dbvars;
    db' := db.(dbvars := dbvars);
  }

  function MarkedBlocks(h: Hashing, conf: DcpConf, vars: seq<Variable>, dbs: seq<Db>): (r: seq<Db>)
    ensures |r| == |dbs| && forall k :: 0 <= k < |dbs| ==> r[k] == MarkedBlock(h, conf, vars, dbs[k])
  {
    seq(|dbs|, k requires 0 <= k < |dbs| => MarkedBlock(h, conf, vars, dbs[k]))
  }

  /** The chunks of all blocks. */
  method WriteData(it: DataChunkIterator, h: Hashing, conf: DcpConf, vars: seq<Variable>, ghost dbs: seq<Db>,
                   hashed: seq<Db>, file: File)
    returns (marked: seq<Db>, file': File)
    requires it.init && ValidConf(conf) && LayoutOk(dbs, Sizes(vars), conf) && hashed == HashedBlocks(h, vars, dbs)
    modifies it
    ensures it.init && marked == MarkedBlocks(h, conf, vars, dbs)
    ensures file' == DataWritten(h, conf, vars, Entries(dbs), file)
  {
    hide LayoutOk, HashedBlock, MarkedBlock, Entries, ValidConf;
    file', marked := file, [];
    EmptyList();
    for k := 0 to |hashed|
      invariant it.init && marked == MarkedBlocks(h, conf, vars, dbs)[..k]
      invariant file' == DataWritten(h, conf, vars, Entries(dbs[..k]), file)
    {
      var db;
      db, file' := WriteBlockData(it, h, conf, vars, dbs, k, hashed[k], file', file);
      marked := marked + [db];
    }
    assert dbs[..|dbs|] == dbs;
  }

  // ------------------------------------------------------------------ after the write

  lemma FinishedFromMarked(h: Hashing, conf: DcpConf, vars: seq<Variable>, e: DbVar)
    requires ValidConf(conf) && Writable(conf, vars, e)
    ensures var m := MarkedEntry(h, conf, vars, e);
            && ChunkData(vars, m) == ChunkData(vars, e)
            && (conf.Dcp? ==>
                 && m.hashes == MarkedHashes(h.block, e.hashes, ChunkData(vars, e), conf.blockSize)
                 && Finished(h, conf, vars, e) ==
                    FlaggedEntry(m).(hashes := Refreshed(h.block, e.hashes, ChunkData(vars, e), conf.blockSize)))
            && (conf.NoDcp? ==> Finished(h, conf, vars, e) == m)
  {
    hide MarkedHashes, Refreshed, NumHashes;
  }

  /** Marks the chunks as written and refreshes their hashes. */
  method FinishBlock(h: Hashing, bs: nat, vars: seq<Variable>, ghost dbs: seq<Db>, k: nat, marked: Db) returns (db: Db)
    requires 0 < bs && k < |dbs| && LayoutOk(dbs, Sizes(vars), Dcp(bs))
             && marked == MarkedBlock(h, Dcp(bs), vars, dbs[k])
    ensures db == FinishedBlock(h, Dcp(bs), vars, dbs[k], k)
  {
    hide LayoutOk, MarkedEntry, Finished, ChunkData, Hashed, HashesFit, Writable, Refreshed, MarkedHashes;
    var dbvars := [];
    for j := 0 to |marked.dbvars|
      invariant dbvars == FinishedBlock(h, Dcp(bs), vars, dbs[k], k).dbvars[..j]
    {
      ghost var e := Hashed(h, vars, dbs[k].dbvars[j]);
      InOrder(dbs, vars, Dcp(bs), k, j);
      HashedChunk(h, Dcp(bs), vars, dbs[k].dbvars[j]);
      FinishedFromMarked(h, Dcp(bs), vars, e);
      WritableLength(Dcp(bs), vars, e);
      var m := marked.dbvars[j];
      var hashes := UpdateDcpChanges(h.block, m.hashes, ChunkData(vars, m), bs, e.hashes);
      dbvars := dbvars + [m.(hasCkpt := true, update := false, hashes := hashes)];
    }
    db := Db(marked.dbsize, if k == 0 then false else marked.update, dbvars);
  }

  /** Only the first block is marked as written. */
  method FinishBlocks(h: Hashing, bs: nat, vars: seq<Variable>, ghost dbs: seq<Db>, marked: seq<Db>)
    returns (finished: seq<Db>)
    requires 0 < bs && LayoutOk(dbs, Sizes(vars), Dcp(bs)) && marked == MarkedBlocks(h, Dcp(bs), vars, dbs)
    ensures finished == FinishedBlocks(h, Dcp(bs), vars, dbs)
  {
    hide LayoutOk, MarkedBlock, FinishedBlock;
    finished := [];
    for k := 0 to |marked|
      invariant finished == FinishedBlocks(h, Dcp(bs), vars, dbs)[..k]
    {
      var db := FinishBlock(h, bs, vars, dbs, k, marked[k]);
      finished := finished + [db];
    }
  }

  lemma WritableLength(conf: DcpConf, vars: seq<Variable>, e: DbVar)
    requires conf.Dcp? && Writable(conf, vars, e)
    ensures 0 < conf.blockSize && |e.hashes| == NumHashes(|ChunkData(vars, e)|, conf.blockSize)
  {
  }

  lemma NothingToFinish(h: Hashing, vars: seq<Variable>, dbs: seq<Db>)
    ensures MarkedBlocks(h, NoDcp, vars, dbs) == FinishedBlocks(h, NoDcp, vars, dbs)
  {
    hide Hashed;
    forall k | 0 <= k < |dbs|
      ensures MarkedBlock(h, NoDcp, vars, dbs[k]) == FinishedBlock(h, NoDcp, vars, dbs[k], k)
    {
    }
  }

  // ------------------------------------------------------------------ the process

  class Process {
    const list: FileLayout
    const it: DataChunkIterator
    var file: File

    ghost predicate Valid(conf: DcpConf)
      requires ValidConf(conf)
      reads this, list, it
    {
      list.Valid(conf) && it.init
    }

    constructor (start: File)
      ensures fresh(list) && fresh(it) && list.dbs == [] && list.stored == [] && file == start
      ensures Valid(NoDcp) && forall bs: nat :: 0 < bs ==> Valid(Dcp(bs))
    {
      list := new FileLayout();
      it := new DataChunkIterator();
      file := start;
    }

    /** One checkpoint: fits the block list to the variables, writes what changed, and refreshes the hashes. */
    method Checkpoint(h: Hashing, conf: DcpConf, vars: seq<Variable>, meta: FileRecord) returns (ok: bool)
      requires ValidConf(conf) && Valid(conf) && FitsFile(meta)
      requires Grows(list.stored, Sizes(vars)) && Sized(Sizes(vars)) && Distinct(Sizes(vars))
      modifies this, list, it
      ensures ok <==> vars != []
      ensures !ok ==> file == old(file) && list.dbs == old(list.dbs) && Valid(conf)
      ensures ok ==> ResizableBlocks(old(list.dbs), Sizes(vars), conf)
      ensures ok ==> State(list.dbs, file) == Checkpointed(h, conf, State(old(list.dbs), old(file)), vars, meta)
      ensures ok ==> Valid(conf) && list.stored == Sizes(vars)
    {
      hide LayoutOk, Updated, FinishedBlock, MarkedBlock, MetaWritten, DataWritten, WriteAt, Entries, End, Grows,
           Distinct, ResizableBlocks, AppendsOnly, FileBytesOf, FitsFile, HashedBlock;
      ok := list.UpdateDatastruct(Sizes(vars), conf);
      if !ok {
        return;
      }
      ghost var dbs := list.dbs;
      var hashed, endoffile;
      hashed, file, endoffile := WriteMetadata(h, vars, list.dbs, file);
      var buffer := new Byte[FILE_RECORD + 1](_ => 0);
      var record := meta.(ckptSize := endoffile, fs := endoffile);
      FileMetaSize(meta, endoffile);
      FittingMeta(meta, endoffile);
      SerializeFile(record, buffer);
      assert buffer[..] == buffer[..FILE_RECORD] + [buffer[FILE_RECORD]];
      file := WriteAt(file, 0, buffer[..FILE_RECORD] + [0]);
      var marked;
      marked, file := WriteData(it, h, conf, vars, dbs, hashed, file);
      list.dbs := marked;
      if conf.Dcp? {
        list.dbs := FinishBlocks(h, conf.blockSize, vars, dbs, marked);
      } else {
        NothingToFinish(h, vars, dbs);
      }
      FinishedBlocksSame(h, conf, vars, dbs);
      SameLayout(dbs, FinishedBlocks(h, conf, vars, dbs), Sizes(vars), conf);
    }
  }

  lemma FittingMeta(meta: FileRecord, size: nat)
    requires FitsFile(meta)
    ensures |meta.(ckptSize := size, fs := size).checksum| == 33
            && |meta.(ckptSize := size, fs := size).myHash| == DIGEST
  {
  }
}
