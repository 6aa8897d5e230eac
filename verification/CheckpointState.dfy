/**
 * The state between checkpoints, one checkpoint as a function on it, and what a checkpoint leaves behind: a file from
 * which the block list and all bytes can be read, whatever was skipped.
 */
module CheckpointState {
  import opened BlockHashes
  import opened CheckpointFile
  import opened ChunkWriter
  import opened DataPass
  import opened DirtyRuns
  import opened FileBytes
  import opened Layout
  import opened Metadata

  datatype State = State(dbs: seq<Db>, file: File)

  // ------------------------------------------------------------------ after the write

  function HashedBlock(h: Hashing, vars: seq<Variable>, db: Db): (r: Db)
    ensures |r.dbvars| == |db.dbvars| && r.dbsize == db.dbsize && r.update == db.update
    ensures forall j :: 0 <= j < |db.dbvars| ==> r.dbvars[j] == Hashed(h, vars, db.dbvars[j])
  {
    db.(dbvars := seq(|db.dbvars|, j requires 0 <= j < |db.dbvars| => Hashed(h, vars, db.dbvars[j])))
  }

  /** Differential checkpointing marks the chunk as written and refreshes its hashes. */
  function Finished(h: Hashing, conf: DcpConf, vars: seq<Variable>, e: DbVar): DbVar {
    if conf.NoDcp? then e
    else e.(hasCkpt := true, update := false,
      hashes := if Writable(conf, vars, e) then Refreshed(h.block, e.hashes, ChunkData(vars, e), conf.blockSize)
        else e.hashes)
  }

  /** Only the first block loses its update flag. */
  function FinishedBlock(h: Hashing, conf: DcpConf, vars: seq<Variable>, db: Db, k: nat): (r: Db)
    ensures |r.dbvars| == |db.dbvars| && r.dbsize == db.dbsize
    ensures r.update == if conf.Dcp? && k == 0 then false else db.update
    ensures forall j :: 0 <= j < |db.dbvars| ==> r.dbvars[j] == Finished(h, conf, vars, Hashed(h, vars, db.dbvars[j]))
  {
    Db(db.dbsize, if conf.Dcp? && k == 0 then false else db.update,
      seq(|db.dbvars|, j requires 0 <= j < |db.dbvars| => Finished(h, conf, vars, Hashed(h, vars, db.dbvars[j]))))
  }

  function FinishedBlocks(h: Hashing, conf: DcpConf, vars: seq<Variable>, dbs: seq<Db>): (r: seq<Db>)
    ensures |r| == |dbs| && forall k :: 0 <= k < |dbs| ==> r[k] == FinishedBlock(h, conf, vars, dbs[k], k)
  {
    seq(|dbs|, k requires 0 <= k < |dbs| => FinishedBlock(h, conf, vars, dbs[k], k))
  }

  /** The file metadata with the size of the checkpoint, and the byte that pads it. */
  function FileMeta(meta: FileRecord, size: nat): seq<Byte> {
    FileBytesOf(meta.(ckptSize := size, fs := size)) + [0]
  }

  /** The file after a checkpoint with the block list `dbs`. */
  function FileAfter(h: Hashing, conf: DcpConf, vars: seq<Variable>, dbs: seq<Db>, meta: FileRecord, file: File): File {
    DataWritten(h, conf, vars, Entries(dbs), WriteAt(MetaWritten(h, vars, dbs, file), 0, FileMeta(meta, End(dbs))))
  }

  /** The state after a checkpoint of `vars`. */
  function Checkpointed(h: Hashing, conf: DcpConf, s: State, vars: seq<Variable>, meta: FileRecord): State
    requires ValidConf(conf) && ResizableBlocks(s.dbs, Sizes(vars), conf)
  {
    var dbs := Updated(s.dbs, Sizes(vars), conf);
    State(FinishedBlocks(h, conf, vars, dbs), FileAfter(h, conf, vars, dbs, meta, s.file))
  }

  // ------------------------------------------------------------------ what the file says

  ghost predicate HeadOnFile(dbs: seq<Db>, file: File, k: nat)
    requires k < |dbs|
  {
    Region(file, End(dbs[..k]), BLOCK_META) == BlockBytesOf(BlockRecord(|dbs[k].dbvars|, dbs[k].dbsize))
  }

  /** The file has the metadata of the entry, except perhaps for the mark that it was written before. */
  ghost predicate EntryAt(file: File, at: nat, e: DbVar) {
    exists b :: Region(file, at, CHUNK_META) == ChunkBytesOf(RecordOf(e.(hasCkpt := b)))
  }

  ghost predicate EntryOnFile(dbs: seq<Db>, file: File, k: nat, j: nat)
    requires k < |dbs| && j < |dbs[k].dbvars|
  {
    EntryAt(file, MetaAt(End(dbs[..k]), j), dbs[k].dbvars[j])
  }

  /** A chunk with its hash in the metadata and its bytes in its container. */
  ghost predicate ChunkSaved(h: Hashing, vars: seq<Variable>, e: DbVar, file: File) {
    e.hash == ChunkHash(h, vars, e) && HoldsChunk(file, e.fptr, ChunkData(vars, e))
  }

  /** Everything a reader needs is in the file. */
  ghost predicate Saved(h: Hashing, conf: DcpConf, s: State, vars: seq<Variable>)
    requires ValidConf(conf)
  {
    && LayoutOk(s.dbs, Sizes(vars), conf)
    && (forall k :: 0 <= k < |s.dbs| ==> HeadOnFile(s.dbs, s.file, k))
    && (forall k, j :: 0 <= k < |s.dbs| && 0 <= j < |s.dbs[k].dbvars| ==>
         EntryOnFile(s.dbs, s.file, k, j) && ChunkSaved(h, vars, s.dbs[k].dbvars[j], s.file))
  }

  // ------------------------------------------------------------------ what holds before a checkpoint

  ghost predicate HeadReady(s: State, k: nat)
    requires k < |s.dbs|
  {
    s.dbs[k].update || HeadOnFile(s.dbs, s.file, k)
  }

  /** The metadata are on file, or will be written in any case; valid block hashes are those of the file. */
  ghost predicate EntryReady(h: Hashing, conf: DcpConf, s: State, prev: seq<Variable>, k: nat, j: nat)
    requires k < |s.dbs| && j < |s.dbs[k].dbvars|
  {
    var e := s.dbs[k].dbvars[j];
    && (e.update || (EntryOnFile(s.dbs, s.file, k, j) && e.hash == ChunkHash(h, prev, e)))
    && (conf.Dcp? ==> CacheAgrees(h.block, s.file, e.fptr, e.hashes, e.chunksize, conf.blockSize))
  }

  ghost predicate Ready(h: Hashing, conf: DcpConf, s: State, prev: seq<Variable>)
    requires ValidConf(conf)
  {
    && LayoutOk(s.dbs, Sizes(prev), conf)
    && (forall k :: 0 <= k < |s.dbs| ==> HeadReady(s, k))
    && (forall k, j :: 0 <= k < |s.dbs| && 0 <= j < |s.dbs[k].dbvars| ==> EntryReady(h, conf, s, prev, k, j))
  }

  /** The chunk hash tells the present bytes of a container from those of the last checkpoint, where it is asked to. */
  ghost predicate ChunksTold(h: Hashing, prev: seq<Variable>, vars: seq<Variable>, e: DbVar, e': DbVar) {
    !e.update && e.hascontent && e'.hascontent && h.chunk(ChunkData(prev, e)) == h.chunk(ChunkData(vars, e')) ==>
      ChunkData(prev, e) == ChunkData(vars, e')
  }

  /** No hash collides in this checkpoint. */
  ghost predicate Collisionless(h: Hashing, conf: DcpConf, s: State, prev: seq<Variable>, vars: seq<Variable>)
    requires ValidConf(conf) && ResizableBlocks(s.dbs, Sizes(vars), conf)
  {
    var dbs := Updated(s.dbs, Sizes(vars), conf);
    && (forall k, j :: 0 <= k < |s.dbs| && 0 <= j < |s.dbs[k].dbvars| ==>
         ChunksTold(h, prev, vars, s.dbs[k].dbvars[j],
                    Resize(s.dbs[k].dbvars[j], |vars[s.dbs[k].dbvars[j].idx].mem|, conf)))
    && (forall i :: 0 <= i < |Entries(dbs)| ==> BlocksTold(h, conf, vars, Entries(dbs)[i], s.file))
  }
}
