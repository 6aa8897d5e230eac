/** The marks of blocks and chunks after every differential checkpoint, and the room that variables take in the file. */
module CheckpointFlags {
  import opened BlockHashes
  import opened CheckpointFile
  import opened CheckpointRuns
  import opened CheckpointState
  import opened CheckpointTheorems
  import opened DataPass
  import opened FileBytes
  import opened DirtyRuns
  import opened Layout
  import opened LayoutInvariants
  import opened Metadata

  // ------------------------------------------------------------------ marks

  /**
   * All blocks but the first are still marked for update; every chunk counts as written, is no more marked for update,
   * and has a valid hash of its present bytes for each of its blocks.
   */
  ghost predicate Settled(h: Hashing, bs: nat, dbs: seq<Db>, vars: seq<Variable>)
    requires 0 < bs
  {
    && (forall k :: 0 <= k < |dbs| ==> (dbs[k].update <==> k != 0))
    && (forall k, j :: 0 <= k < |dbs| && 0 <= j < |dbs[k].dbvars| ==> EntrySettled(h, bs, dbs[k].dbvars[j], vars))
  }

  ghost predicate EntrySettled(h: Hashing, bs: nat, e: DbVar, vars: seq<Variable>)
    requires 0 < bs
  {
    && e.hasCkpt && !e.update
    && |e.hashes| == NumHashes(|ChunkData(vars, e)|, bs)
    && forall i :: 0 <= i < |e.hashes| ==>
         e.hashes[i].isValid && e.hashes[i].digest == h.block(Block(ChunkData(vars, e), bs, i))
  }

  ghost predicate LaterMarked(dbs: seq<Db>) {
    forall k :: 0 < k < |dbs| ==> dbs[k].update
  }

  lemma FirstBlockOnly(h: Hashing, bs: nat, dbs: seq<Db>, vars: seq<Variable>)
    requires 0 < bs && ResizableBlocks(dbs, Sizes(vars), Dcp(bs)) && LaterMarked(dbs)
    ensures var r := FinishedBlocks(h, Dcp(bs), vars, Updated(dbs, Sizes(vars), Dcp(bs)));
      forall k :: 0 <= k < |r| ==> (r[k].update <==> k != 0)
  {
    var updated := Updated(dbs, Sizes(vars), Dcp(bs));
    forall k | 0 < k < |updated| ensures updated[k].update {
      hide Updated, ResizableBlocks, FinishedBlock;
      if k < |dbs| {
        OldBlock(dbs, Sizes(vars), Dcp(bs), k);
      } else {
        LastBlockIsNew(dbs, Sizes(vars), Dcp(bs), k);
      }
    }
  }

  lemma FinishedIsSettled(h: Hashing, bs: nat, vars: seq<Variable>, e: DbVar)
    requires 0 < bs && Writable(Dcp(bs), vars, e)
    ensures EntrySettled(h, bs, Finished(h, Dcp(bs), vars, Hashed(h, vars, e)), vars)
  {
    hide NumHashes, Block;
  }

  lemma {:induction false} EntriesSettle(h: Hashing, bs: nat, dbs: seq<Db>, vars: seq<Variable>, k: nat, j: nat)
    requires 0 < bs && LayoutOk(dbs, Sizes(vars), Dcp(bs)) && k < |dbs| && j < |dbs[k].dbvars|
    ensures EntrySettled(h, bs, FinishedBlock(h, Dcp(bs), vars, dbs[k], k).dbvars[j], vars)
  {
    InOrder(dbs, vars, Dcp(bs), k, j);
    hide LayoutOk, Finished, Hashed, EntrySettled, Writable;
    FinishedIsSettled(h, bs, vars, dbs[k].dbvars[j]);
  }

  lemma {:induction false} StepSettles(h: Hashing, bs: nat, s: State, prev: seq<Variable>, vars: seq<Variable>,
                                       meta: FileRecord)
    requires 0 < bs && LayoutOk(s.dbs, Sizes(prev), Dcp(bs)) && Grows(Sizes(prev), Sizes(vars))
    requires ResizableBlocks(s.dbs, Sizes(vars), Dcp(bs)) && LaterMarked(s.dbs)
    ensures Settled(h, bs, Checkpointed(h, Dcp(bs), s, vars, meta).dbs, vars)
  {
    UpdateKeepsLayout(s.dbs, Sizes(prev), Sizes(vars), Dcp(bs));
    CheckpointedBlocks(h, Dcp(bs), s, vars, meta);
    FirstBlockOnly(h, bs, s.dbs, vars);
    AllSettle(h, bs, Updated(s.dbs, Sizes(vars), Dcp(bs)), vars);
    hide *;
  }

  lemma {:induction false} AllSettle(h: Hashing, bs: nat, dbs: seq<Db>, vars: seq<Variable>)
    requires 0 < bs && LayoutOk(dbs, Sizes(vars), Dcp(bs))
    requires var r := FinishedBlocks(h, Dcp(bs), vars, dbs); forall k :: 0 <= k < |r| ==> (r[k].update <==> k != 0)
    ensures Settled(h, bs, FinishedBlocks(h, Dcp(bs), vars, dbs), vars)
  {
    hide LayoutOk, FinishedBlock, EntrySettled;
    var r := FinishedBlocks(h, Dcp(bs), vars, dbs);
    forall k, j | 0 <= k < |r| && 0 <= j < |r[k].dbvars| ensures EntrySettled(h, bs, r[k].dbvars[j], vars) {
      EntriesSettle(h, bs, dbs, vars, k, j);
    }
  }

  lemma SettledIsMarked(h: Hashing, bs: nat, dbs: seq<Db>, vars: seq<Variable>)
    requires 0 < bs && Settled(h, bs, dbs, vars)
    ensures LaterMarked(dbs)
  {
  }

  /** After every differential checkpoint of every run. */
  lemma {:induction false} AlwaysSettled(h: Hashing, bs: nat, states: seq<State>, run: seq<Checkpoint>, t: nat)
    requires 0 < bs && ValidHashing(h) && CheckpointRuns.Run(h, Dcp(bs), states, run) && t < |run|
    ensures Settled(h, bs, states[t + 1].dbs, run[t].vars)
  {
    hide LayoutOk, Settled, LaterMarked, Ready, Saved, AlwaysWritten, Collisionless, Checkpointed;
    RunInvariant(h, Dcp(bs), states, run, t);
    assert Step(h, Dcp(bs), states, run, t);
    if t > 0 {
      AlwaysSettled(h, bs, states, run, t - 1);
      SettledIsMarked(h, bs, states[t].dbs, run[t - 1].vars);
    } else {
      NoneMarked(states[0].dbs);
    }
    StepSettles(h, bs, State(states[t].dbs, run[t].start), Before(run, t), run[t].vars, run[t].meta);
  }

  lemma NoneMarked(dbs: seq<Db>)
    requires dbs == []
    ensures LaterMarked(dbs)
  {
  }

  // ------------------------------------------------------------------ metadata of chunks

  /** The metadata tell where the chunk is and, if it has content, the hash of its present bytes. */
  predicate Tells(r: ChunkRecord, h: Hashing, vars: seq<Variable>, e: DbVar) {
    && r.id == e.id && r.idx == e.idx && r.containerid == e.containerid
    && r.hascontent == e.hascontent && r.hasCkpt == e.hasCkpt
    && r.dptr == e.dptr && r.fptr == e.fptr && r.chunksize == e.chunksize && r.containersize == e.containersize
    && (e.hascontent ==> r.hash == h.chunk(ChunkData(vars, e)))
  }

  /**
   * A checkpoint writes the metadata of a chunk if it is marked for update, has no content, or other bytes than the
   * hash says; otherwise it leaves them alone.
   */
  lemma {:induction false} MetadataExact(h: Hashing, conf: DcpConf, vars: seq<Variable>, dbs: seq<Db>, meta: FileRecord,
                                         file: File, k: nat, j: nat)
    requires ValidConf(conf) && ValidHashing(h) && LayoutOk(dbs, Sizes(vars), conf) && FitsFile(meta)
    requires k < |dbs| && j < |dbs[k].dbvars| && FitsChunk(RecordOf(dbs[k].dbvars[j]))
    ensures var e, at := dbs[k].dbvars[j], MetaAt(End(dbs[..k]), j);
      var after := Region(FileAfter(h, conf, vars, dbs, meta, file), at, CHUNK_META);
      if e.update || !e.hascontent || e.hash != h.chunk(ChunkData(vars, e)) then Tells(ReadChunk(after), h, vars, e)
      else after == Region(file, at, CHUNK_META)
  {
    var e, at := dbs[k].dbvars[j], MetaAt(End(dbs[..k]), j);
    assert BlocksOk(dbs);
    MetaInHead(End(dbs[..k]), dbs[k], j);
    HashedRecord(h, vars, e);
    hide LayoutOk, BlocksOk, FileAfter, MetaWritten, Region, ChunkBytesOf, ReadChunk, RecordOf, End, MetaAt;
    MetadataStays(h, conf, vars, dbs, meta, file, k, at, CHUNK_META);
    EntryWritten(h, vars, dbs, file, k, j);
    ChunkRoundTrip(RecordOf(Hashed(h, vars, e)));
  }

  lemma HashedRecord(h: Hashing, vars: seq<Variable>, e: DbVar)
    requires ValidHashing(h) && FitsChunk(RecordOf(e))
    ensures FitsChunk(RecordOf(Hashed(h, vars, e))) && Tells(RecordOf(Hashed(h, vars, e)), h, vars, e)
  {
  }

  // ------------------------------------------------------------------ room

  /** A variable takes as many bytes of containers as it ever had, and a new container only when it outgrows them. */
  lemma {:induction false} RoomIsExact(dbs: seq<Db>, vars: seq<Dataset>, vars': seq<Dataset>, conf: DcpConf, p: nat)
    requires ValidConf(conf) && LayoutOk(dbs, vars, conf) && Grows(vars, vars') && p < |vars'|
    ensures ResizableBlocks(dbs, vars', conf)
    ensures var room, room' := Capacity(Entries(dbs), p), Capacity(Entries(Updated(dbs, vars', conf)), p);
      room' == if vars'[p].size <= room then room else vars'[p].size
    ensures Containers(Entries(Updated(dbs, vars', conf)), p) ==
            Containers(Entries(dbs), p) + if vars'[p].size <= Capacity(Entries(dbs), p) then 0 else 1
  {
    var es := Entries(dbs);
    UpdateKeepsLayout(dbs, vars, vars', conf);
    AllResizable(es, vars, vars', conf);
    hide LayoutOk, Grows, HashesFit, NewBlock, Growing, ResizeBlock, Capacity, Containers;
    ResizedEntries(dbs, vars', conf);
    ResizedContainers(es, vars', conf);
    SameSums(es, ResizeAll(es, vars', conf), p);
    NewRoom(es, vars', p, End(dbs), conf);
    var added := NewBlock(es, vars', End(dbs), conf);
    if Growing(es, vars', |vars'|) != [] {
      var resized := ResizeBlocks(dbs, vars', conf);
      assert (resized + [added])[..|resized|] == resized;
      SumsAppend(ResizeAll(es, vars', conf), added.dbvars, p);
    } else {
      NoneAdded(es, vars', End(dbs), conf, p);
    }
  }

  /** The new block has one container of the missing size for a variable that grows, and none for another. */
  lemma {:induction false} NewRoom(es: seq<DbVar>, vars: seq<Dataset>, p: nat, end: nat, conf: DcpConf)
    requires ValidConf(conf) && p < |vars|
    ensures var added, room := NewBlock(es, vars, end, conf).dbvars, Capacity(es, p);
      && Capacity(added, p) == (if vars[p].size <= room then 0 else vars[p].size - room)
      && Containers(added, p) == (if vars[p].size <= room then 0 else 1)
  {
    var added := NewBlock(es, vars, end, conf).dbvars;
    var grow := Growing(es, vars, |vars|);
    NewBlockSize(es, vars, end, conf);
    hide NewBlock, Growing, Capacity, Containers;
    if vars[p].size <= Capacity(es, p) {
      forall i | 0 <= i < |added| ensures added[i].idx != p {
        AGrowingVariable(es, vars, i);
        NewEntryAnywhere(es, vars, i, grow[i], end, conf);
      }
      NoContainers(added, p);
    } else {
      var j := GrowingIndex(es, vars, |vars|, p);
      AGrowingVariable(es, vars, j);
      NewEntryAnywhere(es, vars, j, p, end, conf);
      forall i | 0 <= i < |added| && i != j ensures added[i].idx != p {
        AGrowingVariable(es, vars, i);
        NewEntryAnywhere(es, vars, i, grow[i], end, conf);
        if i < j {
          GrowingIncreases(es, vars, |vars|, i, j);
        } else {
          GrowingIncreases(es, vars, |vars|, j, i);
        }
      }
      OnlyContainer(added, j, p);
    }
  }

  lemma {:induction false} OnlyContainer(es: seq<DbVar>, j: nat, p: nat)
    requires j < |es| && es[j].idx == p && forall i :: 0 <= i < |es| && i != j ==> es[i].idx != p
    ensures Capacity(es, p) == es[j].containersize && Containers(es, p) == 1
  {
    NoContainers(es[..j], p);
    NoContainers(es[j + 1..], p);
    SumsStep(es, j, p);
    assert es == es[..j + 1] + es[j + 1..];
    SumsAppend(es[..j + 1], es[j + 1..], p);
  }

  lemma {:induction false} NoneAdded(es: seq<DbVar>, vars: seq<Dataset>, end: nat, conf: DcpConf, p: nat)
    requires ValidConf(conf) && p < |vars| && Growing(es, vars, |vars|) == []
    ensures vars[p].size <= Capacity(es, p)
  {
    if Capacity(es, p) < vars[p].size {
      var j := GrowingIndex(es, vars, |vars|, p);
      assert false;
    }
  }
}
