/** Whole runs: every checkpoint of every run leaves a complete file. */
module CheckpointRuns {
  import opened Arithmetic
  import opened BlockHashes
  import opened CheckpointFile
  import opened CheckpointState
  import opened CheckpointTheorems
  import opened ChunkWriter
  import opened DataPass
  import opened DirtyRuns
  import opened FileBytes
  import opened Layout
  import opened LayoutInvariants
  import opened LayoutTheorems
  import opened Metadata

  // ------------------------------------------------------------------ ready for the next checkpoint

  lemma {:induction false} HeldBlocks(file: File, fptr: nat, data: seq<Byte>, bs: nat, i: nat)
    requires 0 < bs && i < NumHashes(|data|, bs) && HoldsChunk(file, fptr, data)
    ensures FileBlock(file, fptr, |data|, bs, i) == Block(data, bs, i)
  {
    hide NumHashes, BlockSize, ByteAt;
    BlockSizes(|data|, bs, i);
    var start := BlocksLength(i, bs);
    forall o | 0 <= o < BlockSize(|data|, bs, i)
      ensures FileBlock(file, fptr, |data|, bs, i)[o] == Block(data, bs, i)[o]
    {
      assert Region(file, fptr, |data|)[start + o] == data[start + o];
    }
  }

  /** After the update of the hashes every one of them is the hash of its block in the file. */
  lemma {:induction false} RefreshedAgrees(h: Hash, file: File, fptr: nat, hashes: seq<DiffHash>, data: seq<Byte>,
                                           bs: nat)
    requires 0 < bs && |hashes| == NumHashes(|data|, bs) && HoldsChunk(file, fptr, data)
    ensures CacheAgrees(h, file, fptr, Refreshed(h, hashes, data, bs), |data|, bs)
  {
    hide NumHashes, BlockSize, FileBlock, Block, HoldsChunk;
    forall i | 0 <= i < |hashes|
      ensures CacheAt(h, file, fptr, Refreshed(h, hashes, data, bs), |data|, bs, i)
    {
      HeldBlocks(file, fptr, data, bs, i);
    }
  }

  lemma FinishedEntryReady(h: Hashing, conf: DcpConf, vars: seq<Variable>, e: DbVar, file: File)
    requires ValidConf(conf) && conf.Dcp? && HashesFit(e, conf) && Writable(conf, vars, e)
    requires |ChunkData(vars, e)| == e.chunksize && HoldsChunk(file, e.fptr, ChunkData(vars, e))
    ensures var e' := Finished(h, conf, vars, Hashed(h, vars, e));
            CacheAgrees(h.block, file, e'.fptr, e'.hashes, e'.chunksize, conf.blockSize)
  {
    hide CacheAgrees, NumHashes, Refreshed, Tiles, HoldsChunk;
    RefreshedAgrees(h.block, file, e.fptr, e.hashes, ChunkData(vars, e), conf.blockSize);
  }

  /** A saved state after a differential checkpoint is ready for the next one on the same file. */
  lemma SavedIsReady(h: Hashing, conf: DcpConf, s: State, vars: seq<Variable>, dbs: seq<Db>)
    requires ValidConf(conf) && conf.Dcp? && LayoutOk(dbs, Sizes(vars), conf)
    requires s.dbs == FinishedBlocks(h, conf, vars, dbs) && Saved(h, conf, s, vars)
    ensures Ready(h, conf, s, vars)
  {
    hide LayoutOk, HeadOnFile, EntryOnFile, CacheAgrees, HoldsChunk, ChunkData, ChunkHash, Finished, Hashed, HashesFit,
         Writable, SamePlace;
    forall k, j | 0 <= k < |s.dbs| && 0 <= j < |s.dbs[k].dbvars|
      ensures EntryReady(h, conf, s, vars, k, j)
    {
      assert EntryOnFile(s.dbs, s.file, k, j) && ChunkSaved(h, vars, s.dbs[k].dbvars[j], s.file);
      InOrder(dbs, vars, conf, k, j);
      FinishedEntry(h, conf, vars, dbs[k].dbvars[j]);
      FinishedEntryPlace(h, conf, vars, dbs[k].dbvars[j]);
      FinishedEntryReady(h, conf, vars, dbs[k].dbvars[j], s.file);
    }
  }

  lemma FinishedEntryPlace(h: Hashing, conf: DcpConf, vars: seq<Variable>, e: DbVar)
    ensures Finished(h, conf, vars, Hashed(h, vars, e)).fptr == e.fptr
  {
  }

  /** Without differential checkpointing everything is always written. */
  ghost predicate AlwaysWritten(dbs: seq<Db>) {
    forall k :: 0 <= k < |dbs| ==> BlockAlwaysWritten(dbs[k])
  }

  ghost predicate BlockAlwaysWritten(db: Db) {
    db.update && forall j :: 0 <= j < |db.dbvars| ==> db.dbvars[j].update
  }

  lemma AlwaysReady(h: Hashing, dbs: seq<Db>, file: File, prev: seq<Variable>)
    requires LayoutOk(dbs, Sizes(prev), NoDcp) && AlwaysWritten(dbs)
    ensures Ready(h, NoDcp, State(dbs, file), prev)
  {
    hide LayoutOk, HeadOnFile, EntryOnFile;
    forall k | 0 <= k < |dbs|
      ensures BlockAlwaysWritten(dbs[k])
    {
    }
  }

  lemma AlwaysCollisionless(h: Hashing, dbs: seq<Db>, file: File, prev: seq<Variable>, vars: seq<Variable>)
    requires ResizableBlocks(dbs, Sizes(vars), NoDcp) && AlwaysWritten(dbs)
    ensures Collisionless(h, NoDcp, State(dbs, file), prev, vars)
  {
    hide Updated, Entries, Resize, ChunkData;
    forall k, j | 0 <= k < |dbs| && 0 <= j < |dbs[k].dbvars|
      ensures dbs[k].dbvars[j].update
    {
      assert BlockAlwaysWritten(dbs[k]);
    }
  }

  lemma StaysAlwaysWritten(h: Hashing, dbs: seq<Db>, file: File, vars: seq<Variable>, meta: FileRecord)
    requires ResizableBlocks(dbs, Sizes(vars), NoDcp) && AlwaysWritten(dbs)
    ensures AlwaysWritten(Checkpointed(h, NoDcp, State(dbs, file), vars, meta).dbs)
  {
    hide Resize, FileAfter, Entries, Growing, NewBlock, Updated, HashesFit;
    var dbs1, dbs' := Updated(dbs, Sizes(vars), NoDcp), Checkpointed(h, NoDcp, State(dbs, file), vars, meta).dbs;
    forall k | 0 <= k < |dbs'|
      ensures BlockAlwaysWritten(dbs'[k])
    {
      if k < |dbs| {
        OldBlock(dbs, Sizes(vars), NoDcp, k);
        assert BlockAlwaysWritten(dbs[k]);
        forall j | 0 <= j < |dbs[k].dbvars|
          ensures dbs1[k].dbvars[j].update
        {
          OldEntry(dbs, Sizes(vars), NoDcp, k, j);
          ResizeKeepsPlace(dbs[k].dbvars[j], |vars[dbs[k].dbvars[j].idx].mem|, NoDcp);
        }
      } else {
        LastBlockIsNew(dbs, Sizes(vars), NoDcp, k);
        forall j | 0 <= j < |dbs1[k].dbvars|
          ensures dbs1[k].dbvars[j].update
        {
          NewEntriesAreUnhashed(Entries(dbs), Sizes(vars), End(dbs), NoDcp, j);
        }
      }
    }
  }

  // ------------------------------------------------------------------ runs

  /** The memory at one checkpoint, the file metadata, and the file as it was opened. */
  datatype Checkpoint = Checkpoint(vars: seq<Variable>, meta: FileRecord, start: File)

  /** The variables of the checkpoint before number `t`. */
  function Before(run: seq<Checkpoint>, t: nat): seq<Variable>
    requires t <= |run|
  {
    if t == 0 then [] else run[t - 1].vars
  }

  /**
   * One step of a run: variables keep their ids and may change in size, content and number, and differential
   * checkpoints reopen the file of the last one and meet no hash collision.
   */
  ghost predicate Step(h: Hashing, conf: DcpConf, states: seq<State>, run: seq<Checkpoint>, t: nat)
    requires ValidConf(conf) && t < |run| && |states| == |run| + 1
  {
    var s, c := State(states[t].dbs, run[t].start), run[t];
    && Sized(Sizes(c.vars)) && Grows(Sizes(Before(run, t)), Sizes(c.vars)) && FitsFile(c.meta)
    && (conf.Dcp? && 0 < t ==> run[t].start == states[t].file)
    && ResizableBlocks(s.dbs, Sizes(c.vars), conf)
    && (conf.Dcp? ==> Collisionless(h, conf, s, Before(run, t), c.vars))
    && states[t + 1] == Checkpointed(h, conf, s, c.vars, c.meta)
  }

  ghost predicate Run(h: Hashing, conf: DcpConf, states: seq<State>, run: seq<Checkpoint>)
    requires ValidConf(conf)
  {
    && |states| == |run| + 1 && states[0].dbs == []
    && forall t :: 0 <= t < |run| ==> Step(h, conf, states, run, t)
  }

  /** What holds before checkpoint `t` of a run, on the file that it opens. */
  ghost predicate Between(h: Hashing, conf: DcpConf, states: seq<State>, run: seq<Checkpoint>, t: nat)
    requires ValidConf(conf) && t <= |run| && |states| == |run| + 1
  {
    && LayoutOk(states[t].dbs, Sizes(Before(run, t)), conf)
    && (conf.NoDcp? ==> AlwaysWritten(states[t].dbs))
    && (conf.Dcp? && 0 < t ==> Ready(h, conf, states[t], Before(run, t)))
    && (0 < t ==> Saved(h, conf, states[t], Before(run, t)))
  }

  lemma NothingYet(h: Hashing, conf: DcpConf, file: File)
    requires ValidConf(conf)
    ensures LayoutOk([], Sizes([]), conf) && Ready(h, conf, State([], file), []) && AlwaysWritten([])
  {
  }

  lemma OpenedIsReady(h: Hashing, conf: DcpConf, states: seq<State>, run: seq<Checkpoint>, t: nat)
    requires ValidConf(conf) && Run(h, conf, states, run) && t < |run| && Between(h, conf, states, run, t)
    ensures Ready(h, conf, State(states[t].dbs, run[t].start), Before(run, t))
    ensures ResizableBlocks(states[t].dbs, Sizes(run[t].vars), conf)
    ensures Collisionless(h, conf, State(states[t].dbs, run[t].start), Before(run, t), run[t].vars)
  {
    hide LayoutOk, Ready, Saved, AlwaysWritten, ResizableBlocks, Collisionless, Checkpointed;
    assert Step(h, conf, states, run, t);
    if conf.NoDcp? {
      AlwaysReady(h, states[t].dbs, run[t].start, Before(run, t));
      AlwaysCollisionless(h, states[t].dbs, run[t].start, Before(run, t), run[t].vars);
    } else if t == 0 {
      NothingYet(h, conf, run[0].start);
    }
  }

  lemma StepKeeps(h: Hashing, conf: DcpConf, states: seq<State>, run: seq<Checkpoint>, t: nat)
    requires ValidConf(conf) && ValidHashing(h) && Run(h, conf, states, run) && t < |run|
             && Between(h, conf, states, run, t)
    ensures Between(h, conf, states, run, t + 1)
  {
    hide LayoutOk, Ready, Saved, AlwaysWritten, ResizableBlocks, Collisionless, Checkpointed, ValidHashing;
    var s, vars, dbs' := State(states[t].dbs, run[t].start), run[t].vars, states[t + 1].dbs;
    assert Step(h, conf, states, run, t);
    OpenedIsReady(h, conf, states, run, t);
    CheckpointSaves(h, conf, s, Before(run, t), vars, run[t].meta);
    SavedLayout(h, conf, states[t + 1], vars);
    if conf.NoDcp? {
      StaysAlwaysWritten(h, s.dbs, s.file, vars, run[t].meta);
    } else {
      UpdateKeepsLayout(s.dbs, Sizes(Before(run, t)), Sizes(vars), conf);
      CheckpointedBlocks(h, conf, s, vars, run[t].meta);
      SavedIsReady(h, conf, states[t + 1], vars, Updated(s.dbs, Sizes(vars), conf));
    }
  }

  lemma SavedLayout(h: Hashing, conf: DcpConf, s: State, vars: seq<Variable>)
    requires ValidConf(conf) && Saved(h, conf, s, vars)
    ensures LayoutOk(s.dbs, Sizes(vars), conf)
  {
    hide LayoutOk;
  }

  lemma CheckpointedBlocks(h: Hashing, conf: DcpConf, s: State, vars: seq<Variable>, meta: FileRecord)
    requires ValidConf(conf) && ResizableBlocks(s.dbs, Sizes(vars), conf)
    ensures Checkpointed(h, conf, s, vars, meta).dbs == FinishedBlocks(h, conf, vars, Updated(s.dbs, Sizes(vars), conf))
  {
  }

  lemma {:induction false} RunInvariant(h: Hashing, conf: DcpConf, states: seq<State>, run: seq<Checkpoint>, t: nat)
    requires ValidConf(conf) && ValidHashing(h) && Run(h, conf, states, run) && t <= |run|
    ensures Between(h, conf, states, run, t)
    decreases t
  {
    hide LayoutOk, Ready, Saved, AlwaysWritten, Step;
    if t == 0 {
      NothingYet(h, conf, states[0].file);
    } else {
      RunInvariant(h, conf, states, run, t - 1);
      StepKeeps(h, conf, states, run, t - 1);
    }
  }

  /**
   * In every run, differential or not, the file after each checkpoint holds in every container exactly the bytes that
   * were in memory, and the metadata to find them.
   */
  lemma EveryCheckpointComplete(h: Hashing, conf: DcpConf, states: seq<State>, run: seq<Checkpoint>, t: nat)
    requires ValidConf(conf) && ValidHashing(h) && Run(h, conf, states, run) && t < |run|
    ensures Saved(h, conf, states[t + 1], run[t].vars)
  {
    hide LayoutOk, Ready, Saved, AlwaysWritten, Step;
    RunInvariant(h, conf, states, run, t + 1);
  }

  /** Any byte of any variable is in the file where the block list says. */
  lemma EveryByteOnFile(h: Hashing, conf: DcpConf, s: State, vars: seq<Variable>, p: nat, x: nat)
    returns (k: nat, j: nat)
    requires ValidConf(conf) && Saved(h, conf, s, vars) && p < |vars| && x < |vars[p].mem|
    ensures k < |s.dbs| && j < |s.dbs[k].dbvars|
    ensures var e := s.dbs[k].dbvars[j];
            && e.idx == p && e.hascontent && e.dptr <= x < e.dptr + e.chunksize
            && ByteAt(s.file, e.fptr + (x - e.dptr)) == vars[p].mem[x]
  {
    hide SlotsOk, BlocksOk, HeadOnFile, EntryOnFile, Entries, End, ByteAt;
    var i := ChunksTileVariables(Entries(s.dbs), Sizes(vars), conf, p, x);
    SlotFacts(Entries(s.dbs), i, Sizes(vars), conf);
    k, j := BlockOfEntry(s.dbs, i);
    var e := s.dbs[k].dbvars[j];
    InOrder(s.dbs, vars, conf, k, j);
    assert ChunkSaved(h, vars, e, s.file);
    assert Region(s.file, e.fptr, e.chunksize)[x - e.dptr] == ChunkData(vars, e)[x - e.dptr];
  }
}
