/** The block list of a running process and the update before every checkpoint. */
module BlockList {
  import opened BlockHashes
  import opened Layout
  import opened LayoutInvariants

  ghost predicate Distinct(vars: seq<Dataset>) {
    forall p, q :: 0 <= p < q < |vars| ==> vars[p].id != vars[q].id
  }

  /** What an update knows about one variable: the bytes left, and the containers it already has. */
  datatype Tally = Tally(overflow: nat, validBlock: bool, nbContainers: nat, containerSizesAccu: nat)

  /** The right tally for variable `p` after the containers in `done`. */
  function TallyOf(done: seq<DbVar>, vars: seq<Dataset>, p: nat): Tally
    requires p < |vars|
  {
    var held := Capacity(done, p);
    Tally(if vars[p].size <= held then 0 else vars[p].size - held, held < vars[p].size, Containers(done, p), held)
  }

  lemma TallyElsewhere(done: seq<DbVar>, e: DbVar, vars: seq<Dataset>, p: nat)
    requires p < |vars| && e.idx != p
    ensures TallyOf(done + [e], vars, p) == TallyOf(done, vars, p)
  {
    assert (done + [e])[..|done|] == done;
  }

  lemma {:induction false} TallyHere(done: seq<DbVar>, e: DbVar, vars: seq<Dataset>)
    requires e.idx < |vars|
    ensures var held := Capacity(done, e.idx);
            && Capacity(done + [e], e.idx) == held + e.containersize
            && Containers(done + [e], e.idx) == Containers(done, e.idx) + 1
  {
    assert (done + [e])[..|done|] == done;
  }

  /** The chunk and the hashes of a container whose variable has `left` bytes for it and the containers after it. */
  method FillContainer(e: DbVar, left: nat, ghost size: nat, conf: DcpConf) returns (e': DbVar)
    requires ValidConf(conf) && HashesFit(e, conf) && 0 < e.chunksize + e.containersize
             && e.chunksize <= e.containersize
    requires e.dptr < size && left == size - e.dptr
    ensures e' == Resize(e, size, conf)
  {
    var chunksizeOld := e.chunksize;
    var chunk := if left > e.containersize then e.containersize else left;
    e' := e.(chunksize := chunk);
    if !e.hascontent {
      e' := e'.(hascontent := true);
      if conf.Dcp? {
        var hashes := InitBlockHashArray(chunk, conf.blockSize);
        e' := e'.(hashes := hashes);
      }
    } else if conf.Dcp? {
      FittingHashes(e, conf);
      if chunk < chunksizeOld {
        var hashes := CollapseBlockHashArray(e.hashes, chunksizeOld, chunk, conf.blockSize);
        e' := e'.(hashes := hashes);
      }
      if chunk > chunksizeOld {
        NumHashesMonotone(chunksizeOld, chunk, conf.blockSize);
        var hashes := ExpandBlockHashArray(e.hashes, chunk, conf.blockSize);
        e' := e'.(hashes := hashes);
      }
    }
  }

  /** One container: find its variable by id, count the container, and give the chunk its new size. */
  method AdjustChunk(e: DbVar, vars: seq<Dataset>, ghost done: seq<DbVar>, tally: array<Tally>, conf: DcpConf)
    returns (e': DbVar)
    requires ValidConf(conf) && Distinct(vars) && tally.Length <= |vars|
    requires HashesFit(e, conf) && 0 < e.containersize && e.chunksize <= e.containersize
    requires e.idx < tally.Length && e.id == vars[e.idx].id && e.dptr == Capacity(done, e.idx)
    requires forall p :: 0 <= p < tally.Length ==> tally[p] == TallyOf(done, vars, p)
    modifies tally
    ensures e' == Resize(e, vars[e.idx].size, conf)
    ensures forall p :: 0 <= p < tally.Length ==> tally[p] == TallyOf(done + [e], vars, p)
  {
    hide Resize, HashesFit, Capacity, Containers;
    e' := e;
    for pvarIdx := 0 to tally.Length
      invariant e' == if pvarIdx <= e.idx then e else Resize(e, vars[e.idx].size, conf)
      invariant forall p :: 0 <= p < pvarIdx ==> tally[p] == TallyOf(done + [e], vars, p)
      invariant forall p :: pvarIdx <= p < tally.Length ==> tally[p] == TallyOf(done, vars, p)
    {
      if e.id == vars[pvarIdx].id {
        assert pvarIdx == e.idx;
        TallyHere(done, e, vars);
        var t := tally[pvarIdx];
        t := t.(containerSizesAccu := t.containerSizesAccu + e.containersize, nbContainers := t.nbContainers + 1);
        if !t.validBlock {
          e' := EmptyContainer(e, vars[pvarIdx].size, conf);
        } else {
          e' := FillContainer(e, t.overflow, vars[pvarIdx].size, conf);
          if t.overflow > e.containersize {
            t := t.(overflow := t.overflow - e.containersize);
          } else {
            t := t.(validBlock := false, overflow := 0);
          }
        }
        tally[pvarIdx] := t;
      } else {
        TallyElsewhere(done, e, vars, pvarIdx);
      }
    }
  }

  /** The variable ends before this container. */
  method EmptyContainer(e: DbVar, ghost size: nat, conf: DcpConf) returns (e': DbVar)
    requires ValidConf(conf) && HashesFit(e, conf) && 0 < e.containersize && size <= e.dptr
    ensures e' == Resize(e, size, conf)
  {
    e' := e;
    if e.hascontent {
      e' := e'.(hascontent := false);
      if conf.Dcp? {
        e' := e'.(hashes := []);
      }
    }
    e' := e'.(chunksize := 0);
  }

  // ------------------------------------------------------------------ which variables need a new container

  lemma {:induction false} GrowingPrefix(es: seq<DbVar>, vars: seq<Dataset>, n: nat, m: nat)
    requires n <= m <= |vars|
    ensures Growing(es, vars, n) <= Growing(es, vars, m)
    decreases m - n
  {
    hide Capacity;
    if n < m {
      GrowingPrefix(es, vars, n, m - 1);
    }
  }

  /** All variables without a container grow. */
  lemma {:induction false} NewVariablesGrow(es: seq<DbVar>, vars: seq<Dataset>, stored: nat, n: nat)
    requires stored <= n <= |vars| && Sized(vars) && forall i :: 0 <= i < |es| ==> es[i].idx < stored
    ensures |Growing(es, vars, n)| == |Growing(es, vars, stored)| + (n - stored)
    decreases n - stored
  {
    hide Capacity, Containers;
    if stored < n {
      NewVariablesGrow(es, vars, stored, n - 1);
      NoContainers(es, n - 1);
    }
  }

  /** What the next growing variable adds to the new block. */
  lemma NextNewEntry(es: seq<DbVar>, vars: seq<Dataset>, n: nat, at: nat, conf: DcpConf)
    requires ValidConf(conf) && n < |vars|
    ensures var grow := Growing(es, vars, |vars|);
            && |Growing(es, vars, n + 1)| <= |grow|
            && NewPart(es, vars, n + 1, at, conf) ==
               NewPart(es, vars, n, at, conf) +
               if Capacity(es, n) < vars[n].size
                 then [NewEntry(es, vars, n, at + TotalSize(NewPart(es, vars, n, at, conf)), conf)] else []
    ensures TotalSize(NewPart(es, vars, n + 1, at, conf)) ==
            TotalSize(NewPart(es, vars, n, at, conf))
              + if Capacity(es, n) < vars[n].size then vars[n].size - Capacity(es, n) else 0
  {
    hide Capacity, Containers, InitialHashes;
    var grow, m := Growing(es, vars, |vars|), |Growing(es, vars, n)|;
    GrowingPrefix(es, vars, n, |vars|);
    GrowingPrefix(es, vars, n + 1, |vars|);
    if Capacity(es, n) < vars[n].size {
      assert grow[m] == n;
      var part := NewPart(es, vars, n, at, conf);
      assert (part + [NewEntry(es, vars, n, at + TotalSize(part), conf)])[..|part|] == part;
    }
  }

  /** The entries of the new block for the variables below `n`. */
  function NewPart(es: seq<DbVar>, vars: seq<Dataset>, n: nat, at: nat, conf: DcpConf): seq<DbVar>
    requires ValidConf(conf) && n <= |vars|
  {
    GrowingPrefix(es, vars, n, |vars|);
    GrowingVariablesGrow(es, vars, |vars|);
    NewEntries(es, vars, Growing(es, vars, |vars|), |Growing(es, vars, n)|, at, conf)
  }

  method MakeEntry(vars: seq<Dataset>, p: nat, t: Tally, fptr: nat, ghost es: seq<DbVar>, conf: DcpConf)
    returns (e: DbVar)
    requires ValidConf(conf) && p < |vars| && t == TallyOf(es, vars, p) && t.overflow > 0
    ensures e == NewEntry(es, vars, p, fptr, conf) && e.containersize == vars[p].size - Capacity(es, p)
  {
    var hashes := [];
    if conf.Dcp? {
      hashes := InitBlockHashArray(t.overflow, conf.blockSize);
    }
    e := DbVar(vars[p].id, p, t.nbContainers, true, false, t.containerSizesAccu, fptr, t.overflow, t.overflow, true, [],
               hashes);
  }

  /** 1 for a new variable, 2 for one that has bytes left, 0 for one that fits. */
  function EditFlag(vars: seq<Dataset>, es: seq<DbVar>, stored: nat, p: nat): nat
    requires p < |vars|
  {
    if stored <= p then 1 else if Capacity(es, p) < vars[p].size then 2 else 0
  }

  method FlagVariables(vars: seq<Dataset>, stored: nat, tally: array<Tally>, ghost es: seq<DbVar>)
    returns (editflags: array<nat>, num: nat)
    requires stored == tally.Length <= |vars| && Sized(vars)
    requires forall i :: 0 <= i < |es| ==> es[i].idx < stored
    requires forall p :: 0 <= p < stored ==> tally[p] == TallyOf(es, vars, p)
    ensures num == |Growing(es, vars, |vars|)|
    ensures fresh(editflags) && editflags.Length == |vars|
    ensures forall p :: 0 <= p < |vars| ==> editflags[p] == EditFlag(vars, es, stored, p)
  {
    hide Capacity, Containers, Growing;
    editflags := new nat[|vars|](_ => 0);
    num := 0;
    for p := stored to |vars|
      invariant num == p - stored
      invariant forall q :: 0 <= q < |vars| ==> editflags[q] == if stored <= q < p then 1 else 0
    {
      editflags[p] := 1;
      num := num + 1;
    }
    NothingBelow(es, vars);
    for p := 0 to stored
      invariant num == |vars| - stored + |Growing(es, vars, p)|
      invariant forall q :: p <= q < stored ==> editflags[q] == 0
      invariant forall q :: 0 <= q < |vars| && (q < p || stored <= q) ==> editflags[q] == EditFlag(vars, es, stored, q)
    {
      GrowingStep(es, vars, p);
      if tally[p].overflow > 0 {
        editflags[p] := 2;
        num := num + 1;
      }
    }
    NewVariablesGrow(es, vars, stored, |vars|);
  }

  /** The block for the variables that have bytes left. */
  method AppendBlock(vars: seq<Dataset>, stored: nat, tally: array<Tally>, end: nat, ghost es: seq<DbVar>,
                     conf: DcpConf)
    returns (num: nat, db: Db)
    requires ValidConf(conf) && stored == tally.Length <= |vars| && Sized(vars)
    requires forall i :: 0 <= i < |es| ==> es[i].idx < stored
    requires forall p :: 0 <= p < stored ==> tally[p] == TallyOf(es, vars, p)
    ensures num == |Growing(es, vars, |vars|)|
    ensures num != 0 ==> db == NewBlock(es, vars, end, conf)
  {
    hide Capacity, Containers, Growing, NewEntry, NewPart, NewBlock, NewEntries, TotalSize;
    var editflags;
    editflags, num := FlagVariables(vars, stored, tally, es);
    var dbsize := BLOCK_META + CHUNK_META * num;
    var dbvars := [];
    db := Db(dbsize, true, dbvars);
    if num != 0 {
      ghost var at := end + dbsize;
      NoEntries(es, vars, at, conf);
      for p := 0 to |vars|
        invariant dbvars == NewPart(es, vars, p, at, conf)
        invariant end + dbsize == at + TotalSize(dbvars)
        invariant forall q :: 0 <= q < |vars| ==> editflags[q] == EditFlag(vars, es, stored, q)
      {
        NextNewEntry(es, vars, p, at, conf);
        if editflags[p] == 1 {
          NoContainers(es, p);
          var e := MakeEntry(vars, p, Tally(vars[p].size, true, 0, 0), end + dbsize, es, conf);
          dbvars := dbvars + [e];
          dbsize := dbsize + e.containersize;
        } else if editflags[p] == 2 {
          var e := MakeEntry(vars, p, tally[p], end + dbsize, es, conf);
          dbvars := dbvars + [e];
          dbsize := dbsize + e.containersize;
        }
      }
      AllParts(es, vars, end, conf);
      db := Db(dbsize, true, dbvars);
    }
  }

  lemma {:induction false} AllParts(es: seq<DbVar>, vars: seq<Dataset>, end: nat, conf: DcpConf)
    requires ValidConf(conf)
    ensures var db, at := NewBlock(es, vars, end, conf), end + BLOCK_META + CHUNK_META * |Growing(es, vars, |vars|)|;
            db.dbvars == NewPart(es, vars, |vars|, at, conf) && end + db.dbsize == at + TotalSize(db.dbvars)
              && db.update
  {
    hide Growing, NewEntries, TotalSize, Capacity;
  }

  lemma GrowingStep(es: seq<DbVar>, vars: seq<Dataset>, n: nat)
    requires n < |vars|
    ensures |Growing(es, vars, n + 1)| == |Growing(es, vars, n)| + if Capacity(es, n) < vars[n].size then 1 else 0
  {
  }

  lemma {:induction false} NothingBelow(es: seq<DbVar>, vars: seq<Dataset>)
    ensures Growing(es, vars, 0) == []
  {
  }

  lemma NoEntries(es: seq<DbVar>, vars: seq<Dataset>, at: nat, conf: DcpConf)
    requires ValidConf(conf)
    ensures NewPart(es, vars, 0, at, conf) == [] && TotalSize([]) == 0
  {
  }

  /** The first block: one container for every variable. */
  method FirstBlock(vars: seq<Dataset>, conf: DcpConf) returns (db: Db)
    requires ValidConf(conf) && Sized(vars)
    ensures db == NewBlock([], vars, FILE_META, conf)
  {
    hide Growing, NewEntry, NewPart, NewBlock, NewEntries, TotalSize;
    NothingBelow([], vars);
    NewVariablesGrow([], vars, 0, |vars|);
    var dbsize := BLOCK_META + CHUNK_META * |vars|;
    var dbvars := [];
    ghost var at := FILE_META + dbsize;
    NoEntries([], vars, at, conf);
    for p := 0 to |vars|
      invariant dbvars == NewPart([], vars, p, at, conf)
      invariant FILE_META + dbsize == at + TotalSize(dbvars)
    {
      NextNewEntry([], vars, p, at, conf);
      var e := MakeEntry(vars, p, Tally(vars[p].size, true, 0, 0), FILE_META + dbsize, [], conf);
      dbvars := dbvars + [e];
      dbsize := dbsize + e.containersize;
    }
    AllParts([], vars, FILE_META, conf);
    db := Db(dbsize, true, dbvars);
  }

  // ------------------------------------------------------------------ the update

  /** What the update relies on for container `j` of block `k`. */
  lemma EntryFacts(dbs: seq<Db>, k: nat, j: nat, stored: seq<Dataset>, vars: seq<Dataset>, conf: DcpConf)
    requires ValidConf(conf) && LayoutOk(dbs, stored, conf) && Grows(stored, vars) && k < |dbs| && j < |dbs[k].dbvars|
    ensures var e := dbs[k].dbvars[j];
            && HashesFit(e, conf) && 0 < e.containersize && e.chunksize <= e.containersize
            && e.idx < |stored| && e.id == vars[e.idx].id
            && e.dptr == Capacity(Entries(dbs[..k]) + dbs[k].dbvars[..j], e.idx)
  {
    hide HashesFit, Capacity, Containers, BlocksOk, Entries;
    EntryOf(dbs, k, j);
    assert SlotOk(Entries(dbs), |Entries(dbs[..k])| + j, stored, conf);
  }

  /** All chunks of block `k`. */
  method AdjustBlock(dbs: seq<Db>, k: nat, vars: seq<Dataset>, ghost stored: seq<Dataset>, tally: array<Tally>,
                     conf: DcpConf)
    returns (db: Db)
    requires ValidConf(conf) && LayoutOk(dbs, stored, conf) && Grows(stored, vars) && Distinct(vars)
             && tally.Length == |stored|
    requires k < |dbs| && Resizable(dbs[k].dbvars, vars, conf)
    requires forall p :: 0 <= p < tally.Length ==> tally[p] == TallyOf(Entries(dbs[..k]), vars, p)
    modifies tally
    ensures db == ResizeBlock(dbs[k], vars, conf)
    ensures forall p :: 0 <= p < tally.Length ==> tally[p] == TallyOf(Entries(dbs[..k]) + dbs[k].dbvars, vars, p)
  {
    hide LayoutOk, HashesFit, Resize, TallyOf, Entries, Capacity;
    var es := dbs[k].dbvars;
    ghost var before := Entries(dbs[..k]);
    assert before + es[..0] == before;
    var dbvars := [];
    for j := 0 to |es|
      invariant dbvars == ResizeAll(es, vars, conf)[..j]
      invariant forall p :: 0 <= p < tally.Length ==> tally[p] == TallyOf(before + es[..j], vars, p)
    {
      EntryFacts(dbs, k, j, stored, vars, conf);
      var e := AdjustChunk(es[j], vars, before + es[..j], tally, conf);
      dbvars := dbvars + [e];
      assert before + es[..j] + [es[j]] == before + es[..j + 1];
    }
    assert es[..|es|] == es;
    db := dbs[k].(dbvars := dbvars);
  }

  lemma NothingHeld(vars: seq<Dataset>, p: nat)
    requires p < |vars| && 0 < vars[p].size
    ensures TallyOf([], vars, p) == Tally(vars[p].size, true, 0, 0)
  {
  }

  /** Every entry belongs to a variable of the last checkpoint. */
  lemma {:induction false} EntriesBelow(dbs: seq<Db>, stored: seq<Dataset>, conf: DcpConf)
    requires ValidConf(conf) && LayoutOk(dbs, stored, conf)
    ensures forall i :: 0 <= i < |Entries(dbs)| ==> Entries(dbs)[i].idx < |stored|
    ensures dbs == [] && Sized(stored) ==> stored == []
  {
    hide HashesFit, Containers, BlocksOk;
    forall i | 0 <= i < |Entries(dbs)|
      ensures Entries(dbs)[i].idx < |stored|
    {
      assert SlotOk(Entries(dbs), i, stored, conf);
    }
    if dbs == [] && stored != [] {
      assert stored[0].size <= Capacity(Entries(dbs), 0);
    }
  }

  lemma {:induction false} UpdateUnfolds(dbs: seq<Db>, vars: seq<Dataset>, conf: DcpConf)
    requires ValidConf(conf) && ResizableBlocks(dbs, vars, conf)
    ensures var es, resized := Entries(dbs), ResizeBlocks(dbs, vars, conf);
            Updated(dbs, vars, conf) ==
            if |Growing(es, vars, |vars|)| == 0 then resized else resized + [NewBlock(es, vars, End(dbs), conf)]
  {
  }

  lemma EmptyList()
    ensures Entries([]) == [] && End([]) == FILE_META
  {
  }

  lemma {:induction false} AllNew(vars: seq<Dataset>)
    requires Sized(vars)
    ensures |Growing([], vars, |vars|)| == |vars|
  {
    hide Growing;
    NothingBelow([], vars);
    NewVariablesGrow([], vars, 0, |vars|);
  }

  /** The part of the process state that describes the checkpoint file. */
  class FileLayout {
    var dbs: seq<Db>
    var nbVarStored: nat
    ghost var stored: seq<Dataset>

    /** The list is in order for the variables of the last checkpoint. */
    ghost predicate Valid(conf: DcpConf)
      requires ValidConf(conf)
      reads this
    {
      LayoutOk(dbs, stored, conf) && nbVarStored == |stored| && Sized(stored)
    }

    constructor ()
      ensures dbs == [] && stored == [] && nbVarStored == 0
      ensures Valid(NoDcp) && forall bs: nat :: 0 < bs ==> Valid(Dcp(bs))
    {
      dbs, nbVarStored, stored := [], 0, [];
    }

    /** Fits the list to the present sizes of the variables.  Without variables there is nothing to write. */
    method UpdateDatastruct(vars: seq<Dataset>, conf: DcpConf) returns (ok: bool)
      requires ValidConf(conf) && Valid(conf) && Grows(stored, vars) && Sized(vars) && Distinct(vars)
      modifies this
      ensures ok <==> vars != []
      ensures !ok ==> dbs == old(dbs) && stored == old(stored) && Valid(conf)
      ensures ok ==> ResizableBlocks(old(dbs), vars, conf) && dbs == Updated(old(dbs), vars, conf)
      ensures ok ==> Valid(conf) && stored == vars && AppendsOnly(old(dbs), dbs)
    {
      hide LayoutOk, Updated, ResizableBlocks, AppendsOnly, ResizeBlock, NewBlock, Growing, Entries, End, TallyOf,
           Distinct, Capacity;
      if |vars| == 0 {
        return false;
      }
      UpdateKeepsLayout(dbs, stored, vars, conf);
      UpdateUnfolds(dbs, vars, conf);
      EntriesBelow(dbs, stored, conf);
      EmptyList();
      if dbs == [] {
        AllNew(vars);
        var first := FirstBlock(vars, conf);
        dbs := [first];
      } else {
        dbs := AppendToList(dbs, nbVarStored, stored, vars, conf);
      }
      nbVarStored, stored := |vars|, vars;
      ok := true;
    }
  }

  /** The update of a list with blocks in it. */
  method AppendToList(dbs: seq<Db>, nbVarStored: nat, ghost stored: seq<Dataset>, vars: seq<Dataset>, conf: DcpConf)
    returns (dbs': seq<Db>)
    requires ValidConf(conf) && LayoutOk(dbs, stored, conf) && nbVarStored == |stored|
    requires Grows(stored, vars) && Sized(vars) && Distinct(vars) && ResizableBlocks(dbs, vars, conf)
    ensures dbs' == Updated(dbs, vars, conf)
  {
    hide LayoutOk, Updated, ResizeBlock, NewBlock, Growing, Entries, End, TallyOf, Distinct, Capacity, Resizable;
    UpdateUnfolds(dbs, vars, conf);
    EntriesBelow(dbs, stored, conf);
    EmptyList();
    var tally := new Tally[nbVarStored](p requires 0 <= p < nbVarStored <= |vars| => Tally(vars[p].size, true, 0, 0));
    forall p | 0 <= p < nbVarStored
      ensures TallyOf([], vars, p) == Tally(vars[p].size, true, 0, 0)
    {
      NothingHeld(vars, p);
    }
    var offset := FILE_META;
    dbs' := [];
    for k := 0 to |dbs|
      invariant dbs' == ResizeBlocks(dbs, vars, conf)[..k]
      invariant offset == End(dbs[..k])
      invariant forall p :: 0 <= p < nbVarStored ==> tally[p] == TallyOf(Entries(dbs[..k]), vars, p)
    {
      EntriesStep(dbs, k);
      var db := AdjustBlock(dbs, k, vars, stored, tally, conf);
      dbs' := dbs' + [db];
      offset := offset + dbs[k].dbsize;
    }
    assert dbs[..|dbs|] == dbs;
    var num, added := AppendBlock(vars, nbVarStored, tally, offset, Entries(dbs), conf);
    if num != 0 {
      dbs' := dbs' + [added];
    }
  }
}
