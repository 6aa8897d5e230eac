/** Reading a checkpoint file back: the block list, the sizes of the variables, and their bytes. */
module FtiffRecovery {
  import opened BlockHashes
  import opened CheckpointFile
  import opened CheckpointRuns
  import opened CheckpointState
  import opened CheckpointTheorems
  import opened FileBytes
  import opened Layout
  import opened LayoutInvariants
  import opened LayoutTheorems
  import opened Metadata
  import opened VariableOrder

  // ------------------------------------------------------------------ the block list

  /** A block as a reader finds it. */
  datatype BlockRead = BlockRead(dbsize: nat, chunks: seq<ChunkRecord>)

  /** Every field of the metadata fits its machine type. */
  ghost predicate Representable(dbs: seq<Db>) {
    && End(dbs) < MAX_LONG
    && (forall k :: 0 <= k < |dbs| ==> FitsBlock(BlockRecord(|dbs[k].dbvars|, dbs[k].dbsize)))
    && (forall k, j :: 0 <= k < |dbs| && 0 <= j < |dbs[k].dbvars| ==> FitsChunk(RecordOf(dbs[k].dbvars[j])))
  }

  /** What a reader makes of an entry: it counts as checkpointed. */
  function ReadEntry(e: DbVar): ChunkRecord {
    RecordOf(e).(hasCkpt := true)
  }

  function ReadBlockOf(db: Db): (r: BlockRead)
    ensures r.dbsize == db.dbsize && |r.chunks| == |db.dbvars|
    ensures forall j :: 0 <= j < |db.dbvars| ==> r.chunks[j] == ReadEntry(db.dbvars[j])
  {
    BlockRead(db.dbsize, seq(|db.dbvars|, j requires 0 <= j < |db.dbvars| => ReadEntry(db.dbvars[j])))
  }

  function ReadBlocks(dbs: seq<Db>): (r: seq<BlockRead>)
    ensures |r| == |dbs| && forall k :: 0 <= k < |dbs| ==> r[k] == ReadBlockOf(dbs[k])
  {
    seq(|dbs|, k requires 0 <= k < |dbs| => ReadBlockOf(dbs[k]))
  }

  function Flat(blocks: seq<BlockRead>): seq<ChunkRecord> {
    if blocks == [] then [] else Flat(blocks[..|blocks| - 1]) + blocks[|blocks| - 1].chunks
  }

  /** The total size of the chunks of one variable. */
  datatype VarSize = VarSize(id: nat, size: nat)

  /** Adds a chunk to the size of its variable, or starts a new variable. */
  function Added(sizes: seq<VarSize>, c: ChunkRecord): seq<VarSize> {
    if sizes == [] then [VarSize(c.id, c.chunksize)]
    else if sizes[0].id == c.id then [VarSize(c.id, sizes[0].size + c.chunksize)] + sizes[1..]
    else [sizes[0]] + Added(sizes[1..], c)
  }

  function VarSizes(chunks: seq<ChunkRecord>): seq<VarSize> {
    if chunks == [] then [] else Added(VarSizes(chunks[..|chunks| - 1]), chunks[|chunks| - 1])
  }

  lemma {:induction false} AddedAt(sizes: seq<VarSize>, c: ChunkRecord, i: nat)
    requires i <= |sizes| && (forall m :: 0 <= m < i ==> sizes[m].id != c.id) && (i < |sizes| ==> sizes[i].id == c.id)
    ensures Added(sizes, c) ==
            if i < |sizes| then sizes[i := VarSize(c.id, sizes[i].size + c.chunksize)]
              else sizes + [VarSize(c.id, c.chunksize)]
    decreases i
  {
    if 0 < i {
      AddedAt(sizes[1..], c, i - 1);
    }
  }

  /** Finds the variable of a chunk by id and adds up its size. */
  method AddChunk(sizes: seq<VarSize>, c: ChunkRecord) returns (sizes': seq<VarSize>)
    ensures sizes' == Added(sizes, c)
  {
    var i := 0;
    while i < |sizes| && sizes[i].id != c.id
      invariant i <= |sizes| && forall m :: 0 <= m < i ==> sizes[m].id != c.id
    {
      i := i + 1;
    }
    AddedAt(sizes, c, i);
    if i < |sizes| {
      sizes' := sizes[i := VarSize(c.id, sizes[i].size + c.chunksize)];
    } else {
      sizes' := sizes + [VarSize(c.id, c.chunksize)];
    }
  }

  lemma ReadBackEntry(dbs: seq<Db>, file: File, k: nat, j: nat)
    requires k < |dbs| && j < |dbs[k].dbvars| && EntryOnFile(dbs, file, k, j) && Representable(dbs)
    ensures ReadChunk(Region(file, MetaAt(End(dbs[..k]), j), CHUNK_META)).(hasCkpt := true) ==
            ReadEntry(dbs[k].dbvars[j])
  {
    var e, at := dbs[k].dbvars[j], MetaAt(End(dbs[..k]), j);
    assert FitsChunk(RecordOf(e));
    hide ChunkBytesOf, ReadChunk, Region, End;
    var b :| Region(file, at, CHUNK_META) == ChunkBytesOf(RecordOf(e.(hasCkpt := b)));
    ChunkRoundTrip(RecordOf(e.(hasCkpt := b)));
  }

  lemma ReadBackHead(dbs: seq<Db>, file: File, k: nat)
    requires k < |dbs| && HeadOnFile(dbs, file, k) && Representable(dbs)
    ensures ReadBlock(Region(file, End(dbs[..k]), BLOCK_META)) == BlockRecord(|dbs[k].dbvars|, dbs[k].dbsize)
  {
    assert FitsBlock(BlockRecord(|dbs[k].dbvars|, dbs[k].dbsize));
    hide BlockBytesOf, ReadBlock, Region, End;
    BlockRoundTrip(BlockRecord(|dbs[k].dbvars|, dbs[k].dbsize));
  }

  /** The file has the metadata of this list, and of a file with this list; the other fields are those of `meta`. */
  ghost predicate Describes(file: File, dbs: seq<Db>, meta: FileRecord) {
    && BlocksOk(dbs) && Representable(dbs) && dbs != []
    && (forall k :: 0 <= k < |dbs| ==> HeadOnFile(dbs, file, k))
    && (forall k, j :: 0 <= k < |dbs| && 0 <= j < |dbs[k].dbvars| ==> EntryOnFile(dbs, file, k, j))
    && SizedAs(ReadFile(Region(file, 0, FILE_META)), End(dbs), meta)
  }

  /** The checkpoint and its file have the same size; nothing else is changed. */
  predicate SizedAs(m: FileRecord, size: nat, meta: FileRecord) {
    && m.ckptSize == size && m.fs == size
    && m.checksum == meta.checksum && m.myHash == meta.myHash
    && m.maxFs == meta.maxFs && m.ptFs == meta.ptFs && m.timestamp == meta.timestamp
  }

  lemma {:induction false} BlocksAdvance(dbs: seq<Db>, k: nat)
    requires BlocksOk(dbs) && k <= |dbs|
    ensures End(dbs[..k]) <= End(dbs) && (k < |dbs| ==> End(dbs[..k]) < End(dbs[..k + 1]) <= End(dbs))
  {
    hide End, TotalSize;
    assert dbs[..|dbs|] == dbs;
    BlocksFollow(dbs, k, |dbs|);
    if k < |dbs| {
      HeadInBlock(dbs, k);
      BlocksFollow(dbs, k + 1, |dbs|);
    }
  }

  lemma {:induction false} FlatStep(blocks: seq<BlockRead>, b: BlockRead)
    ensures Flat(blocks + [b]) == Flat(blocks) + b.chunks
  {
    assert (blocks + [b])[..|blocks|] == blocks;
  }

  lemma {:induction false} SizesStep(chunks: seq<ChunkRecord>, c: ChunkRecord)
    ensures VarSizes(chunks + [c]) == Added(VarSizes(chunks), c)
  {
    assert (chunks + [c])[..|chunks|] == chunks;
  }

  /** The metadata of one block, and the sizes of the variables with its chunks. */
  method ReadBlockAt(file: File, at: nat, sizes: seq<VarSize>, ghost dbs: seq<Db>, ghost k: nat,
                     ghost before: seq<ChunkRecord>, ghost meta: FileRecord)
    returns (block: BlockRead, sizes': seq<VarSize>)
    requires Describes(file, dbs, meta) && k < |dbs| && at == End(dbs[..k]) && sizes == VarSizes(before)
    ensures block == ReadBlockOf(dbs[k]) && sizes' == VarSizes(before + block.chunks)
  {
    hide BlocksOk, Representable, HeadOnFile, EntryOnFile, ReadFile, ReadBlock, ReadChunk, Region, End, VarSizes,
         ReadEntry;
    ReadBackHead(dbs, file, k);
    var head := ReadBlock(Region(file, at, BLOCK_META));
    var mdoffset := at + BLOCK_META;
    var chunks := [];
    sizes' := sizes;
    assert before + chunks == before;
    for j := 0 to head.numvars
      invariant mdoffset == MetaAt(at, j) && chunks == ReadBlockOf(dbs[k]).chunks[..j]
      invariant sizes' == VarSizes(before + chunks)
    {
      ReadBackEntry(dbs, file, k, j);
      var c := ReadChunk(Region(file, mdoffset, CHUNK_META)).(hasCkpt := true);
      SizesStep(before + chunks, c);
      assert before + (chunks + [c]) == (before + chunks) + [c];
      sizes' := AddChunk(sizes', c);
      chunks := chunks + [c];
      mdoffset := mdoffset + CHUNK_META;
    }
    block := BlockRead(head.dbsize, chunks);
  }

  /** Reads block after block until the recorded size of the checkpoint is reached, at the end of the last one. */
  method ReadDb(file: File, ghost dbs: seq<Db>, ghost meta: FileRecord)
    returns (blocks: seq<BlockRead>, sizes: seq<VarSize>)
    requires Describes(file, dbs, meta)
    ensures blocks == ReadBlocks(dbs) && sizes == VarSizes(Flat(blocks))
  {
    hide Representable, HeadOnFile, EntryOnFile, BlockOk, ReadFile, ReadBlock, Region, End, VarSizes, ReadBlockOf;
    EmptyStart();
    var ckptSize := ReadFile(Region(file, 0, FILE_META)).ckptSize;
    var endoffile := FILE_META;
    blocks, sizes := [], [];
    ghost var k := 0;
    var isnextdb := true;
    while isnextdb
      invariant k <= |dbs| && blocks == ReadBlocks(dbs)[..k] && sizes == VarSizes(Flat(blocks))
      invariant endoffile == End(dbs[..k]) && (isnextdb <==> k < |dbs|)
      decreases |dbs| - k
    {
      BlocksAdvance(dbs, k);
      EntriesStep(dbs, k);
      var block;
      block, sizes := ReadBlockAt(file, endoffile, sizes, dbs, k, Flat(blocks), meta);
      FlatStep(blocks, block);
      blocks := blocks + [block];
      endoffile := endoffile + block.dbsize;
      k := k + 1;
      BlocksAdvance(dbs, k);
      assert dbs[..|dbs|] == dbs;
      isnextdb := endoffile < ckptSize;
    }
  }

  lemma EmptyStart()
    ensures End([]) == FILE_META && VarSizes(Flat([])) == []
  {
  }

  // ------------------------------------------------------------------ the sizes of the variables

  function ReadEntries(es: seq<DbVar>): (r: seq<ChunkRecord>)
    ensures |r| == |es| && forall i :: 0 <= i < |es| ==> r[i] == ReadEntry(es[i])
  {
    seq(|es|, i requires 0 <= i < |es| => ReadEntry(es[i]))
  }

  lemma {:induction false} FlatEntries(dbs: seq<Db>)
    ensures Flat(ReadBlocks(dbs)) == ReadEntries(Entries(dbs))
    decreases |dbs|
  {
    hide ReadEntry;
    if dbs != [] {
      var front := dbs[..|dbs| - 1];
      FlatEntries(front);
      assert ReadBlocks(dbs)[..|dbs| - 1] == ReadBlocks(front);
    }
  }

  /** The number of variables with a container. */
  function Begun(es: seq<DbVar>): nat {
    if es == [] then 0
    else
      var b := Begun(es[..|es| - 1]);
      if es[|es| - 1].idx == b then b + 1 else b
  }

  /** The bytes of variable `p` in the chunks of `es`. */
  function Held(es: seq<DbVar>, p: nat): nat {
    if es == [] then 0 else Held(es[..|es| - 1], p) + if es[|es| - 1].idx == p then es[|es| - 1].chunksize else 0
  }

  lemma InTurnPrefix(es: seq<DbVar>, n: nat)
    requires InTurn(es) && n <= |es|
    ensures InTurn(es[..n])
  {
    hide Started;
    forall i | 0 <= i < n
      ensures Started(es[..n][..i], es[..n][i].idx)
    {
      assert es[..n][..i] == es[..i];
    }
  }

  lemma {:induction false} BegunExactly(es: seq<DbVar>, p: nat)
    requires InTurn(es)
    ensures 0 < Containers(es, p) <==> p < Begun(es)
    ensures es != [] ==> es[|es| - 1].idx <= Begun(es[..|es| - 1])
    decreases |es|
  {
    if es != [] {
      var front, e := es[..|es| - 1], es[|es| - 1];
      InTurnPrefix(es, |es| - 1);
      BegunExactly(front, p);
      BegunExactly(front, Begun(front));
      assert Started(front, e.idx);
    }
  }

  lemma {:induction false} HeldIsClipped(es: seq<DbVar>, p: nat, vars: seq<Dataset>, conf: DcpConf)
    requires ValidConf(conf) && p < |vars| && forall i :: 0 <= i < |es| ==> SlotOk(es, i, vars, conf)
    ensures Held(es, p) == if vars[p].size < Capacity(es, p) then vars[p].size else Capacity(es, p)
    decreases |es|
  {
    hide HashesFit, Containers;
    if es != [] {
      var front := es[..|es| - 1];
      forall i | 0 <= i < |front|
        ensures SlotOk(front, i, vars, conf)
      {
        assert SlotOk(es, i, vars, conf);
        assert front[..i] == es[..i];
      }
      HeldIsClipped(front, p, vars, conf);
      assert SlotOk(es, |es| - 1, vars, conf);
    }
  }

  /** The sizes after the first chunks: those of the variables that have one, in their order. */
  function SizesSoFar(es: seq<DbVar>, ids: seq<nat>, n: nat): (r: seq<VarSize>)
    requires n <= |ids|
    ensures |r| == n && forall p :: 0 <= p < n ==> r[p] == VarSize(ids[p], Held(es, p))
  {
    seq(n, p requires 0 <= p < n => VarSize(ids[p], Held(es, p)))
  }

  ghost predicate DistinctIds(ids: seq<nat>) {
    forall p, q :: 0 <= p < q < |ids| ==> ids[p] != ids[q]
  }

  /** Every entry has the id of its variable. */
  ghost predicate Labelled(es: seq<DbVar>, ids: seq<nat>) {
    forall i :: 0 <= i < |es| ==> es[i].idx < |ids| && es[i].id == ids[es[i].idx]
  }

  lemma {:induction false} HeldStep(es: seq<DbVar>, p: nat)
    requires es != []
    ensures Held(es, p) == Held(es[..|es| - 1], p) + if es[|es| - 1].idx == p then es[|es| - 1].chunksize else 0
  {
  }

  /** One more chunk changes the sizes as the reader does. */
  lemma NextSizes(es: seq<DbVar>, ids: seq<nat>, b: nat)
    requires es != [] && b <= |ids| && es[|es| - 1].idx <= b && es[|es| - 1].idx < |ids|
    requires es[|es| - 1].id == ids[es[|es| - 1].idx] && DistinctIds(ids)
    requires es[|es| - 1].idx == b ==> Held(es[..|es| - 1], b) == 0
    ensures Added(SizesSoFar(es[..|es| - 1], ids, b), ReadEntry(es[|es| - 1])) ==
            SizesSoFar(es, ids, if es[|es| - 1].idx == b then b + 1 else b)
  {
    hide Held, Added;
    var front, e := es[..|es| - 1], es[|es| - 1];
    AddedAt(SizesSoFar(front, ids, b), ReadEntry(e), e.idx);
    var n := if e.idx == b then b + 1 else b;
    forall p | 0 <= p < n
      ensures Held(es, p) == (if p < b then Held(front, p) else 0) + if e.idx == p then e.chunksize else 0
    {
      HeldStep(es, p);
    }
  }

  lemma {:induction false} SizesUnfold(es: seq<DbVar>)
    requires es != []
    ensures VarSizes(ReadEntries(es)) == Added(VarSizes(ReadEntries(es[..|es| - 1])), ReadEntry(es[|es| - 1]))
    ensures Begun(es) == (var b := Begun(es[..|es| - 1]); if es[|es| - 1].idx == b then b + 1 else b)
  {
    hide ReadEntry, Added;
    assert ReadEntries(es)[..|es| - 1] == ReadEntries(es[..|es| - 1]);
  }

  lemma {:induction false} SizesInOrder(es: seq<DbVar>, ids: seq<nat>)
    requires InTurn(es) && Labelled(es, ids) && DistinctIds(ids)
    ensures Begun(es) <= |ids| && VarSizes(ReadEntries(es)) == SizesSoFar(es, ids, Begun(es))
    decreases |es|
  {
    if es != [] {
      hide InTurn, Containers, Held, Added, VarSizes, Begun, ReadEntry, DistinctIds;
      var front, e := es[..|es| - 1], es[|es| - 1];
      InTurnPrefix(es, |es| - 1);
      SizesInOrder(front, ids);
      BegunExactly(es, 0);
      SizesUnfold(es);
      BegunExactly(front, Begun(front));
      NothingHeld(front, Begun(front));
      NextSizes(es, ids, Begun(front));
    }
  }

  lemma {:induction false} NothingHeld(es: seq<DbVar>, p: nat)
    requires Containers(es, p) == 0
    ensures Held(es, p) == 0
    decreases |es|
  {
    if es != [] {
      NothingHeld(es[..|es| - 1], p);
    }
  }

  function Ids(vars: seq<Variable>): (r: seq<nat>)
    ensures |r| == |vars| && forall p :: 0 <= p < |vars| ==> r[p] == vars[p].id
  {
    seq(|vars|, p requires 0 <= p < |vars| => vars[p].id)
  }

  /** The id and size of every variable, in order. */
  function Expected(vars: seq<Variable>): (r: seq<VarSize>)
    ensures |r| == |vars| && forall p :: 0 <= p < |vars| ==> r[p] == VarSize(vars[p].id, |vars[p].mem|)
  {
    seq(|vars|, p requires 0 <= p < |vars| => VarSize(vars[p].id, |vars[p].mem|))
  }

  lemma {:induction false} AllBegun(es: seq<DbVar>, vars: seq<Dataset>, conf: DcpConf)
    requires ValidConf(conf) && SlotsOk(es, vars, conf) && InTurn(es) && Sized(vars) && Begun(es) <= |vars|
    ensures Begun(es) == |vars|
  {
    hide InTurn, Containers, Capacity, Begun, SlotOk;
    if Begun(es) < |vars| {
      assert vars[Begun(es)].size <= Capacity(es, Begun(es));
      CapacityNeedsContainer(es, Begun(es));
      BegunExactly(es, Begun(es));
      assert false;
    }
  }

  /** The sizes that a reader adds up are those of the variables, at the index of the variable. */
  lemma {:induction false} SizesLineUp(dbs: seq<Db>, vars: seq<Variable>, conf: DcpConf)
    requires ValidConf(conf) && LayoutOk(dbs, Sizes(vars), conf) && InTurn(Entries(dbs))
    requires Sized(Sizes(vars)) && DistinctIds(Ids(vars))
    ensures VarSizes(Flat(ReadBlocks(dbs))) == Expected(vars)
  {
    var es, ids := Entries(dbs), Ids(vars);
    hide BlocksOk, HashesFit, Capacity, Containers, Entries, InTurn, Begun, Held, VarSizes;
    forall i | 0 <= i < |es|
      ensures es[i].idx < |ids| && es[i].id == ids[es[i].idx]
    {
      assert SlotOk(es, i, Sizes(vars), conf);
    }
    FlatEntries(dbs);
    SizesInOrder(es, ids);
    AllBegun(es, Sizes(vars), conf);
    forall p | 0 <= p < |vars|
      ensures Held(es, p) == |vars[p].mem|
    {
      HeldIsClipped(es, p, Sizes(vars), conf);
    }
  }

  // ------------------------------------------------------------------ the bytes of the variables

  /** memcpy of `bytes` to offset `at` of a buffer. */
  function Patched(buffer: seq<Byte>, at: nat, bytes: seq<Byte>): (r: seq<Byte>)
    requires at + |bytes| <= |buffer|
    ensures |r| == |buffer|
    ensures forall x :: 0 <= x < |r| ==> r[x] == if at <= x < at + |bytes| then bytes[x - at] else buffer[x]
  {
    buffer[..at] + bytes + buffer[at + |bytes|..]
  }

  /** A chunk with content lies inside its variable. */
  predicate Inside(c: ChunkRecord, sizes: seq<nat>) {
    c.hascontent ==> c.idx < |sizes| && c.dptr + c.chunksize <= sizes[c.idx]
  }

  function Lengths(mem: seq<seq<Byte>>): (r: seq<nat>)
    ensures |r| == |mem| && forall p :: 0 <= p < |mem| ==> r[p] == |mem[p]|
  {
    seq(|mem|, p requires 0 <= p < |mem| => |mem[p]|)
  }

  function LoadOne(mem: seq<seq<Byte>>, c: ChunkRecord, file: File): (r: seq<seq<Byte>>)
    requires Inside(c, Lengths(mem))
    ensures Lengths(r) == Lengths(mem)
  {
    if c.hascontent then mem[c.idx := Patched(mem[c.idx], c.dptr, Region(file, c.fptr, c.chunksize))] else mem
  }

  /** The memory after the chunks were copied from the file in order. */
  function Loaded(mem: seq<seq<Byte>>, chunks: seq<ChunkRecord>, file: File): (r: seq<seq<Byte>>)
    requires forall i :: 0 <= i < |chunks| ==> Inside(chunks[i], Lengths(mem))
    ensures Lengths(r) == Lengths(mem)
  {
    if chunks == [] then mem else LoadOne(Loaded(mem, chunks[..|chunks| - 1], file), chunks[|chunks| - 1], file)
  }

  /** The bytes of a chunk in the file have the hash in its metadata. */
  predicate Intact(h: Hashing, file: File, c: ChunkRecord) {
    c.hascontent ==> h.chunk(Region(file, c.fptr, c.chunksize)) == c.hash
  }

  ghost predicate AllIntact(h: Hashing, file: File, chunks: seq<ChunkRecord>) {
    forall i :: 0 <= i < |chunks| ==> Intact(h, file, chunks[i])
  }

  ghost predicate AllInside(chunks: seq<ChunkRecord>, sizes: seq<nat>) {
    forall i :: 0 <= i < |chunks| ==> Inside(chunks[i], sizes)
  }

  /** The checkpoint has exactly the protected variables, with their sizes. */
  predicate SizesMatch(mem: seq<seq<Byte>>, sizes: seq<VarSize>) {
    |sizes| == |mem| && forall p :: 0 <= p < |mem| ==> |mem[p]| == sizes[p].size
  }

  lemma {:induction false} LoadedStep(mem: seq<seq<Byte>>, chunks: seq<ChunkRecord>, c: ChunkRecord, file: File)
    requires AllInside(chunks + [c], Lengths(mem))
    ensures AllInside(chunks, Lengths(mem)) && Inside(c, Lengths(mem))
    ensures Loaded(mem, chunks + [c], file) == LoadOne(Loaded(mem, chunks, file), c, file)
  {
    hide LoadOne, Inside;
    var all := chunks + [c];
    assert all[..|chunks|] == chunks;
    forall i | 0 <= i < |chunks|
      ensures Inside(chunks[i], Lengths(mem))
    {
      assert all[i] == chunks[i];
    }
    assert all[|chunks|] == c;
  }

  /** Compares the sizes of the variables with those in the checkpoint. */
  method CheckSizes(mem: array<seq<Byte>>, sizes: seq<VarSize>) returns (same: bool)
    ensures same <==> SizesMatch(mem[..], sizes)
  {
    if mem.Length != |sizes| {
      return false;
    }
    for i := 0 to mem.Length
      invariant forall p :: 0 <= p < i ==> |mem[p]| == sizes[p].size
    {
      if |mem[i]| != sizes[i].size {
        assert |mem[..][i]| != sizes[i].size;
        return false;
      }
    }
    same := true;
  }

  /** Copies the chunks of one block; stops at the first one whose bytes do not have the recorded hash. */
  method RecoverBlock(h: Hashing, file: File, chunks: seq<ChunkRecord>, mem: array<seq<Byte>>,
                      ghost before: seq<ChunkRecord>, ghost start: seq<seq<Byte>>)
    returns (ok: bool)
    requires AllInside(before + chunks, Lengths(start)) && AllInside(before, Lengths(start))
             && mem[..] == Loaded(start, before, file)
    modifies mem
    ensures ok <==> AllIntact(h, file, chunks)
    ensures ok ==> mem[..] == Loaded(start, before + chunks, file)
  {
    hide Inside, Loaded, Region, Intact;
    assert before + chunks[..0] == before;
    for j := 0 to |chunks|
      invariant AllInside(before + chunks[..j], Lengths(start)) && mem[..] == Loaded(start, before + chunks[..j], file)
      invariant forall i :: 0 <= i < j ==> Intact(h, file, chunks[i])
    {
      var c := chunks[j];
      assert before + chunks[..j + 1] == (before + chunks[..j]) + [c];
      InsidePrefix(before + chunks, |before| + j + 1, Lengths(start));
      assert (before + chunks)[..|before| + j + 1] == before + chunks[..j + 1];
      LoadedStep(start, before + chunks[..j], c, file);
      assert Lengths(mem[..]) == Lengths(start);
      var intact := RecoverChunk(h, file, c, mem);
      if !intact {
        return false;
      }
    }
    assert chunks[..|chunks|] == chunks;
    ok := true;
  }

  lemma InsidePrefix(chunks: seq<ChunkRecord>, n: nat, sizes: seq<nat>)
    requires AllInside(chunks, sizes) && n <= |chunks|
    ensures AllInside(chunks[..n], sizes)
  {
    hide Inside;
  }

  /** Copies one chunk and compares the hash of what was copied. */
  method RecoverChunk(h: Hashing, file: File, c: ChunkRecord, mem: array<seq<Byte>>) returns (ok: bool)
    requires Inside(c, Lengths(mem[..]))
    modifies mem
    ensures mem[..] == LoadOne(old(mem[..]), c, file) && (ok <==> Intact(h, file, c))
  {
    hide Region, Patched;
    if !c.hascontent {
      return true;
    }
    var data := Region(file, c.fptr, c.chunksize);
    mem[c.idx] := Patched(mem[c.idx], c.dptr, data);
    ok := h.chunk(data) == c.hash;
  }

  /**
   * Recovery succeeds exactly if the variables are those of the checkpoint and every chunk has the recorded hash; the
   * variables then hold the chunks of the file.
   */
  method Recover(h: Hashing, file: File, blocks: seq<BlockRead>, sizes: seq<VarSize>, mem: array<seq<Byte>>)
    returns (ok: bool)
    requires SizesMatch(mem[..], sizes) ==> AllInside(Flat(blocks), Lengths(mem[..]))
    modifies mem
    ensures ok <==> SizesMatch(old(mem[..]), sizes) && AllIntact(h, file, Flat(blocks))
    ensures ok ==> AllInside(Flat(blocks), Lengths(old(mem[..]))) && mem[..] == Loaded(old(mem[..]), Flat(blocks), file)
  {
    hide Inside, Intact, SizesMatch;
    var same := CheckSizes(mem, sizes);
    if !same {
      return false;
    }
    ghost var start := mem[..];
    NothingRead();
    for k := 0 to |blocks|
      invariant AllInside(Flat(blocks[..k]), Lengths(start)) && mem[..] == Loaded(start, Flat(blocks[..k]), file)
      invariant AllIntact(h, file, Flat(blocks[..k]))
    {
      FlatPrefix(blocks, k + 1);
      InsidePrefix(Flat(blocks), |Flat(blocks[..k + 1])|, Lengths(start));
      assert blocks[..k + 1][..k] == blocks[..k];
      var intact := RecoverBlock(h, file, blocks[k].chunks, mem, Flat(blocks[..k]), start);
      AppendIntact(h, file, Flat(blocks[..k]), blocks[k].chunks);
      if !intact {
        IntactPrefix(h, file, Flat(blocks), |Flat(blocks[..k + 1])|);
        return false;
      }
    }
    assert blocks[..|blocks|] == blocks;
    ok := true;
  }

  lemma NothingRead()
    ensures Flat([]) == []
  {
  }

  lemma AppendIntact(h: Hashing, file: File, a: seq<ChunkRecord>, b: seq<ChunkRecord>)
    ensures AllIntact(h, file, a + b) <==> AllIntact(h, file, a) && AllIntact(h, file, b)
  {
    hide Intact;
    if AllIntact(h, file, a + b) {
      forall i | 0 <= i < |a|
        ensures Intact(h, file, a[i])
      {
        assert (a + b)[i] == a[i];
      }
      forall i | 0 <= i < |b|
        ensures Intact(h, file, b[i])
      {
        assert (a + b)[|a| + i] == b[i];
      }
    }
  }

  lemma IntactPrefix(h: Hashing, file: File, chunks: seq<ChunkRecord>, n: nat)
    requires n <= |chunks|
    ensures AllIntact(h, file, chunks) ==> AllIntact(h, file, chunks[..n])
  {
    hide Intact;
  }

  lemma {:induction false} FlatPrefix(blocks: seq<BlockRead>, k: nat)
    requires k <= |blocks|
    ensures |Flat(blocks[..k])| <= |Flat(blocks)| && Flat(blocks)[..|Flat(blocks[..k])|] == Flat(blocks[..k])
    decreases |blocks|
  {
    if k == |blocks| {
      assert blocks[..k] == blocks;
    } else {
      assert blocks[..|blocks| - 1][..k] == blocks[..k];
      FlatPrefix(blocks[..|blocks| - 1], k);
    }
  }

  // ------------------------------------------------------------------ the round trip

  function Memories(vars: seq<Variable>): (r: seq<seq<Byte>>)
    ensures |r| == |vars| && forall p :: 0 <= p < |vars| ==> r[p] == vars[p].mem
  {
    seq(|vars|, p requires 0 <= p < |vars| => vars[p].mem)
  }

  /** Chunk `c` holds byte `x` of variable `p`. */
  predicate Covers(c: ChunkRecord, p: nat, x: nat) {
    c.hascontent && c.idx == p && c.dptr <= x < c.dptr + c.chunksize
  }

  /** The bytes of the chunk in the file are those of the variable. */
  ghost predicate True(c: ChunkRecord, file: File, vars: seq<Variable>) {
    c.hascontent ==> (
      && c.idx < |vars| && c.dptr + c.chunksize <= |vars[c.idx].mem|
      && Region(file, c.fptr, c.chunksize) == vars[c.idx].mem[c.dptr..c.dptr + c.chunksize]
    )
  }

  lemma LoadOneByte(mem: seq<seq<Byte>>, c: ChunkRecord, file: File, vars: seq<Variable>, p: nat, x: nat)
    requires True(c, file, vars) && Inside(c, Lengths(mem)) && Lengths(mem) == Lengths(Memories(vars)) && p < |vars|
             && x < |vars[p].mem|
    ensures p < |mem| && x < |mem[p]| && |LoadOne(mem, c, file)| == |mem| && |LoadOne(mem, c, file)[p]| == |mem[p]|
    ensures LoadOne(mem, c, file)[p][x] == if Covers(c, p, x) then vars[p].mem[x] else mem[p][x]
  {
    hide Region;
    assert Lengths(mem)[p] == Lengths(Memories(vars))[p];
  }

  /** Once a chunk with it was copied, a byte is right. */
  lemma {:induction false} CoveredBytesRight(mem: seq<seq<Byte>>, chunks: seq<ChunkRecord>, file: File,
                                             vars: seq<Variable>, i: nat, p: nat, x: nat)
    requires AllInside(chunks, Lengths(mem)) && Lengths(mem) == Lengths(Memories(vars)) && p < |vars|
             && x < |vars[p].mem|
    requires forall m :: 0 <= m < |chunks| ==> True(chunks[m], file, vars)
    requires i < |chunks| && Covers(chunks[i], p, x)
    ensures var r := Loaded(mem, chunks, file); p < |r| && x < |r[p]| && r[p][x] == vars[p].mem[x]
    decreases |chunks|
  {
    hide Region, LoadOne, True, Inside, Covers;
    var front, c := chunks[..|chunks| - 1], chunks[|chunks| - 1];
    InsidePrefix(chunks, |chunks| - 1, Lengths(mem));
    LoadOneByte(Loaded(mem, front, file), c, file, vars, p, x);
    if i < |front| {
      CoveredBytesRight(mem, front, file, vars, i, p, x);
    }
  }

  lemma SavedChunk(h: Hashing, conf: DcpConf, s: State, vars: seq<Variable>, k: nat, j: nat)
    requires ValidConf(conf) && ValidHashing(h) && Saved(h, conf, s, vars) && k < |s.dbs| && j < |s.dbs[k].dbvars|
    ensures var c := ReadEntry(s.dbs[k].dbvars[j]);
            True(c, s.file, vars) && Intact(h, s.file, c) && Inside(c, Lengths(Memories(vars)))
  {
    hide LayoutOk, Region, HeadOnFile, EntryOnFile, End;
    var e := s.dbs[k].dbvars[j];
    InOrder(s.dbs, vars, conf, k, j);
    assert ChunkSaved(h, vars, e, s.file);
    if e.hascontent {
      ContentHasData(e, vars);
    }
  }

  lemma ContentHasData(e: DbVar, vars: seq<Variable>)
    requires e.hascontent && |ChunkData(vars, e)| == e.chunksize && 0 < e.chunksize
    ensures e.idx < |vars| && e.dptr + e.chunksize <= |vars[e.idx].mem|
    ensures ChunkData(vars, e) == vars[e.idx].mem[e.dptr..e.dptr + e.chunksize]
  {
  }

  /** The chunks that a reader finds in a saved file are inside the variables, intact, and right. */
  lemma SavedChunks(h: Hashing, conf: DcpConf, s: State, vars: seq<Variable>)
    requires ValidConf(conf) && ValidHashing(h) && Saved(h, conf, s, vars)
    ensures var chunks := Flat(ReadBlocks(s.dbs));
            && AllInside(chunks, Lengths(Memories(vars))) && AllIntact(h, s.file, chunks)
            && (forall i :: 0 <= i < |chunks| ==> True(chunks[i], s.file, vars))
  {
    hide Saved, Entries, Inside, Intact, True, ReadEntry;
    FlatEntries(s.dbs);
    forall i | 0 <= i < |Flat(ReadBlocks(s.dbs))|
      ensures Inside(Flat(ReadBlocks(s.dbs))[i], Lengths(Memories(vars)))
      ensures Intact(h, s.file, Flat(ReadBlocks(s.dbs))[i])
      ensures True(Flat(ReadBlocks(s.dbs))[i], s.file, vars)
    {
      var k, j := BlockOfEntry(s.dbs, i);
      SavedChunk(h, conf, s, vars, k, j);
    }
  }

  /**
   * The round trip: from a saved file a reader gets sizes that match the variables index by index, finds every chunk
   * intact, and after copying the chunks has exactly the bytes that were saved.
   */
  lemma {:induction false} RecoveryRestores(h: Hashing, conf: DcpConf, s: State, vars: seq<Variable>,
                                            mem: seq<seq<Byte>>)
    requires ValidConf(conf) && ValidHashing(h) && Saved(h, conf, s, vars)
    requires InTurn(Entries(s.dbs)) && Sized(Sizes(vars)) && DistinctIds(Ids(vars))
    requires Lengths(mem) == Lengths(Memories(vars))
    ensures var chunks := Flat(ReadBlocks(s.dbs));
            && SizesMatch(mem, VarSizes(chunks)) && AllIntact(h, s.file, chunks)
            && AllInside(chunks, Lengths(mem)) && Loaded(mem, chunks, s.file) == Memories(vars)
  {
    hide Saved, Entries, Inside, Intact, True, ReadEntry, InTurn, LayoutOk, Loaded, VarSizes, Covers;
    var chunks := Flat(ReadBlocks(s.dbs));
    SavedChunks(h, conf, s, vars);
    SavedLayout(h, conf, s, vars);
    SizesLineUp(s.dbs, vars, conf);
    assert |Lengths(mem)| == |vars|;
    var r := Loaded(mem, chunks, s.file);
    assert |Lengths(r)| == |vars|;
    forall p | 0 <= p < |vars|
      ensures |mem[p]| == |vars[p].mem| && r[p] == vars[p].mem
    {
      assert Lengths(mem)[p] == Lengths(Memories(vars))[p] && Lengths(r)[p] == Lengths(mem)[p];
      forall x | 0 <= x < |vars[p].mem|
        ensures r[p][x] == vars[p].mem[x]
      {
        ByteRestored(h, conf, s, vars, mem, p, x);
      }
    }
  }

  lemma {:induction false} ByteRestored(h: Hashing, conf: DcpConf, s: State, vars: seq<Variable>, mem: seq<seq<Byte>>,
                                        p: nat, x: nat)
    requires ValidConf(conf) && ValidHashing(h) && Saved(h, conf, s, vars) && Lengths(mem) == Lengths(Memories(vars))
    requires p < |vars| && x < |vars[p].mem|
    ensures AllInside(Flat(ReadBlocks(s.dbs)), Lengths(mem))
    ensures var r := Loaded(mem, Flat(ReadBlocks(s.dbs)), s.file);
            p < |r| && x < |r[p]| && r[p][x] == vars[p].mem[x]
  {
    hide Saved, Entries, Inside, Intact, True, InTurn, LayoutOk, Loaded, VarSizes;
    SavedChunks(h, conf, s, vars);
    SavedLayout(h, conf, s, vars);
    FlatEntries(s.dbs);
    ChunkOfByte(s.dbs, vars, conf, p, x);
    var i :| 0 <= i < |Entries(s.dbs)| && Covers(ReadEntry(Entries(s.dbs)[i]), p, x);
    CoveredBytesRight(mem, Flat(ReadBlocks(s.dbs)), s.file, vars, i, p, x);
  }

  lemma {:induction false} ChunkOfByte(dbs: seq<Db>, vars: seq<Variable>, conf: DcpConf, p: nat, x: nat)
    requires ValidConf(conf) && LayoutOk(dbs, Sizes(vars), conf) && p < |vars| && x < |vars[p].mem|
    ensures exists i :: 0 <= i < |Entries(dbs)| && Covers(ReadEntry(Entries(dbs)[i]), p, x)
  {
    hide Entries, BlocksOk, SlotsOk;
    var i := ChunksTileVariables(Entries(dbs), Sizes(vars), conf, p, x);
    SlotFacts(Entries(dbs), i, Sizes(vars), conf);
    assert Covers(ReadEntry(Entries(dbs)[i]), p, x);
  }

  /** The sizes of the checkpoint and of its file are where the last block ends. */
  lemma RecordedSize(meta: FileRecord, size: nat)
    requires FitsFile(meta) && size < MAX_LONG
    ensures |FileMeta(meta, size)| == FILE_META && SizedAs(ReadFile(FileMeta(meta, size)), size, meta)
  {
    var m := meta.(ckptSize := size, fs := size);
    FileRoundTrip(m);
    hide FileBytesOf;
    PaddedRead(FileBytesOf(m), 0);
  }

  /** The byte that pads the record is not looked at. */
  lemma PaddedRead(bytes: seq<Byte>, pad: Byte)
    requires |bytes| == FILE_RECORD
    ensures ReadFile(bytes + [pad]) == ReadFile(bytes)
  {
    hide FromBytes;
    assert forall i, j :: 0 <= i <= j <= FILE_RECORD ==> (bytes + [pad])[i..j] == bytes[i..j];
  }

  /** A file after a checkpoint describes its block list, as long as all numbers fit. */
  lemma SavedFileDescribes(h: Hashing, conf: DcpConf, s: State, prev: seq<Variable>, vars: seq<Variable>,
                           meta: FileRecord)
    requires ValidConf(conf) && LayoutOk(s.dbs, Sizes(prev), conf) && Grows(Sizes(prev), Sizes(vars)) && FitsFile(meta)
    requires ResizableBlocks(s.dbs, Sizes(vars), conf) && Saved(h, conf, Checkpointed(h, conf, s, vars, meta), vars)
    requires Representable(Checkpointed(h, conf, s, vars, meta).dbs) && Checkpointed(h, conf, s, vars, meta).dbs != []
    ensures Describes(Checkpointed(h, conf, s, vars, meta).file, Checkpointed(h, conf, s, vars, meta).dbs, meta)
  {
    hide Updated, Checkpointed, FileAfter, FinishedBlock, HeadOnFile, EntryOnFile, ChunkSaved, Region, ReadFile,
         FileMeta, End, Representable, BlocksOk, SlotsOk, ResizableBlocks;
    UpdateKeepsLayout(s.dbs, Sizes(prev), Sizes(vars), conf);
    var dbs, s' := Updated(s.dbs, Sizes(vars), conf), Checkpointed(h, conf, s, vars, meta);
    CheckpointedFile(h, conf, s, vars, meta);
    CheckpointedBlocks(h, conf, s, vars, meta);
    FinishedBlocksSame(h, conf, vars, dbs);
    SameEntries(dbs, s'.dbs, conf);
    FileMetaOnFile(h, conf, vars, dbs, meta, s.file);
    RepresentableEnd(s'.dbs);
    RecordedSize(meta, End(dbs));
  }

  lemma CheckpointedFile(h: Hashing, conf: DcpConf, s: State, vars: seq<Variable>, meta: FileRecord)
    requires ValidConf(conf) && ResizableBlocks(s.dbs, Sizes(vars), conf)
    ensures Checkpointed(h, conf, s, vars, meta).file ==
            FileAfter(h, conf, vars, Updated(s.dbs, Sizes(vars), conf), meta, s.file)
  {
    hide FileAfter, Updated;
  }

  lemma {:induction false} RepresentableEnd(dbs: seq<Db>)
    requires Representable(dbs)
    ensures End(dbs) < MAX_LONG
  {
  }

  lemma SomeBlocks(dbs: seq<Db>, vars: seq<Variable>)
    requires VarSizes(Flat(ReadBlocks(dbs))) == Expected(vars) && vars != []
    ensures dbs != []
  {
    if dbs == [] {
      assert false;
    }
  }

  /**
   * Restart: after any checkpoint of any run, the file can be read back to the block list it was written with, and
   * recovery returns every variable as it was at that checkpoint.
   */
  lemma {:induction false} RunRestores(h: Hashing, conf: DcpConf, states: seq<State>, run: seq<Checkpoint>, t: nat,
                                       mem: seq<seq<Byte>>)
    requires ValidConf(conf) && ValidHashing(h) && Run(h, conf, states, run) && t < |run|
    requires DistinctIds(Ids(run[t].vars)) && run[t].vars != [] && Lengths(mem) == Lengths(Memories(run[t].vars))
    requires Representable(states[t + 1].dbs)
    ensures Describes(states[t + 1].file, states[t + 1].dbs, run[t].meta)
    ensures var chunks := Flat(ReadBlocks(states[t + 1].dbs));
            && SizesMatch(mem, VarSizes(chunks)) && AllIntact(h, states[t + 1].file, chunks)
            && AllInside(chunks, Lengths(mem)) && Loaded(mem, chunks, states[t + 1].file) == Memories(run[t].vars)
  {
    var vars, s, s' := run[t].vars, State(states[t].dbs, run[t].start), states[t + 1];
    RunInvariant(h, conf, states, run, t);
    assert Step(h, conf, states, run, t) && LayoutOk(s.dbs, Sizes(Before(run, t)), conf);
    assert Sized(Sizes(vars)) && Grows(Sizes(Before(run, t)), Sizes(vars)) && FitsFile(run[t].meta);
    assert ResizableBlocks(s.dbs, Sizes(vars), conf) && s' == Checkpointed(h, conf, s, vars, run[t].meta);
    hide *;
    EveryCheckpointComplete(h, conf, states, run, t);
    RunKeepsOrder(h, conf, states, run, t + 1);
    RecoveryRestores(h, conf, s', vars, mem);
    SavedLayout(h, conf, s', vars);
    SizesLineUp(s'.dbs, vars, conf);
    SomeBlocks(s'.dbs, vars);
    SavedFileDescribes(h, conf, s, Before(run, t), vars, run[t].meta);
  }
}
