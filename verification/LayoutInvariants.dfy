/** What every update of the block list keeps, over one update and over whole runs. */
module LayoutInvariants {
  import opened BlockHashes
  import opened Layout

  // ------------------------------------------------------------------ sums over entries

  /** The same containers for the same variables. */
  ghost predicate SameContainers(es: seq<DbVar>, es': seq<DbVar>) {
    |es| == |es'|
      && forall i :: 0 <= i < |es| ==> es[i].idx == es'[i].idx && es[i].containersize == es'[i].containersize
  }

  lemma {:induction false} SameSums(es: seq<DbVar>, es': seq<DbVar>, p: nat)
    requires SameContainers(es, es')
    ensures Capacity(es, p) == Capacity(es', p) && Containers(es, p) == Containers(es', p)
            && TotalSize(es) == TotalSize(es')
    decreases |es|
  {
    if es != [] {
      SameSums(es[..|es| - 1], es'[..|es| - 1], p);
    }
  }

  lemma {:induction false} SumsAppend(es: seq<DbVar>, more: seq<DbVar>, p: nat)
    ensures Capacity(es + more, p) == Capacity(es, p) + Capacity(more, p)
    ensures Containers(es + more, p) == Containers(es, p) + Containers(more, p)
    ensures TotalSize(es + more) == TotalSize(es) + TotalSize(more)
    decreases |more|
  {
    if more == [] {
      assert es + more == es;
    } else {
      var front := more[..|more| - 1];
      SumsAppend(es, front, p);
      assert (es + more)[..|es + more| - 1] == es + front;
    }
  }

  lemma {:induction false} SumsMonotone(es: seq<DbVar>, i: nat, j: nat, p: nat)
    requires i <= j <= |es|
    ensures Capacity(es[..i], p) <= Capacity(es[..j], p) && TotalSize(es[..i]) <= TotalSize(es[..j])
    decreases j - i
  {
    if i < j {
      SumsMonotone(es, i, j - 1, p);
      assert es[..j][..j - 1] == es[..j - 1];
    }
  }

  lemma {:induction false} SumsStep(es: seq<DbVar>, i: nat, p: nat)
    requires i < |es|
    ensures Capacity(es[..i + 1], p) == Capacity(es[..i], p) + if es[i].idx == p then es[i].containersize else 0
    ensures Containers(es[..i + 1], p) == Containers(es[..i], p) + if es[i].idx == p then 1 else 0
    ensures TotalSize(es[..i + 1]) == TotalSize(es[..i]) + es[i].containersize
  {
    assert es[..i + 1][..i] == es[..i];
  }

  lemma {:induction false} NoContainers(es: seq<DbVar>, p: nat)
    requires forall i :: 0 <= i < |es| ==> es[i].idx != p
    ensures Capacity(es, p) == 0 && Containers(es, p) == 0
    decreases |es|
  {
    if es != [] {
      NoContainers(es[..|es| - 1], p);
    }
  }

  // ------------------------------------------------------------------ blocks and the flat list of entries

  lemma {:induction false} EntryOf(dbs: seq<Db>, k: nat, j: nat)
    requires k < |dbs| && j < |dbs[k].dbvars|
    ensures |Entries(dbs[..k])| + j < |Entries(dbs)|
    ensures Entries(dbs)[|Entries(dbs[..k])| + j] == dbs[k].dbvars[j]
    ensures Entries(dbs)[..|Entries(dbs[..k])| + j] == Entries(dbs[..k]) + dbs[k].dbvars[..j]
    decreases |dbs|
  {
    var front := dbs[..|dbs| - 1];
    if k < |dbs| - 1 {
      EntryOf(front, k, j);
      assert front[..k] == dbs[..k];
    } else {
      assert front == dbs[..k];
    }
  }

  lemma EntriesStep(dbs: seq<Db>, k: nat)
    requires k < |dbs|
    ensures Entries(dbs[..k + 1]) == Entries(dbs[..k]) + dbs[k].dbvars
            && End(dbs[..k + 1]) == End(dbs[..k]) + dbs[k].dbsize
  {
    assert dbs[..k + 1][..k] == dbs[..k];
  }

  lemma {:induction false} FitsBlocks(dbs: seq<Db>, vars: seq<Dataset>, conf: DcpConf)
    requires ValidConf(conf) && Resizable(Entries(dbs), vars, conf)
    ensures ResizableBlocks(dbs, vars, conf)
  {
    hide HashesFit;
    forall k | 0 <= k < |dbs|
      ensures Resizable(dbs[k].dbvars, vars, conf)
    {
      forall j | 0 <= j < |dbs[k].dbvars|
        ensures dbs[k].dbvars[j] in Entries(dbs)
      {
        EntryOf(dbs, k, j);
      }
    }
  }

  lemma {:induction false} ResizedEntries(dbs: seq<Db>, vars: seq<Dataset>, conf: DcpConf)
    requires ValidConf(conf) && Resizable(Entries(dbs), vars, conf) && ResizableBlocks(dbs, vars, conf)
    ensures Entries(ResizeBlocks(dbs, vars, conf)) == ResizeAll(Entries(dbs), vars, conf)
    ensures End(ResizeBlocks(dbs, vars, conf)) == End(dbs)
    decreases |dbs|
  {
    hide HashesFit, Resize;
    if dbs != [] {
      var front := dbs[..|dbs| - 1];
      FrontResizable(dbs, |dbs| - 1, vars, conf);
      ResizedEntries(front, vars, conf);
      assert ResizeBlocks(dbs, vars, conf)[..|dbs| - 1] == ResizeBlocks(front, vars, conf);
    }
  }

  lemma ResizeKeepsPlace(e: DbVar, size: nat, conf: DcpConf)
    requires ValidConf(conf) && HashesFit(e, conf) && 0 < e.containersize
    ensures SamePlace(e, Resize(e, size, conf))
    ensures Resize(e, size, conf).chunksize == Clip(size, e.dptr, e.containersize)
    ensures Resize(e, size, conf).update == e.update && Resize(e, size, conf).hash == e.hash
    ensures Resize(e, size, conf).hasCkpt == e.hasCkpt
  {
  }

  /** The same container for the same variable, at the same place of the file and of the variable. */
  ghost predicate SamePlace(e: DbVar, e': DbVar) {
    && e'.id == e.id && e'.idx == e.idx && e'.containerid == e.containerid
    && e'.dptr == e.dptr && e'.fptr == e.fptr && e'.containersize == e.containersize
  }

  // ------------------------------------------------------------------ the resized chunks

  lemma ResizedSlot(es: seq<DbVar>, i: nat, vars: seq<Dataset>, vars': seq<Dataset>, conf: DcpConf)
    requires ValidConf(conf) && SlotsOk(es, vars, conf) && Grows(vars, vars') && Resizable(es, vars', conf) && i < |es|
    ensures SlotOk(ResizeAll(es, vars', conf), i, vars', conf)
  {
    hide HashesFit, Resize, Capacity, Containers;
    var es' := ResizeAll(es, vars', conf);
    var size := vars'[es[i].idx].size;
    assert SlotOk(es, i, vars, conf);
    ResizeKeepsPlace(es[i], size, conf);
    ResizeFits(es[i], size, conf);
    forall m | 0 <= m < i
      ensures es[..i][m].idx == es'[..i][m].idx && es[..i][m].containersize == es'[..i][m].containersize
    {
      ResizeKeepsPlace(es[m], vars'[es[m].idx].size, conf);
    }
    SameSums(es[..i], es'[..i], es[i].idx);
  }

  lemma AllResizable(es: seq<DbVar>, vars: seq<Dataset>, vars': seq<Dataset>, conf: DcpConf)
    requires ValidConf(conf) && SlotsOk(es, vars, conf) && Grows(vars, vars')
    ensures Resizable(es, vars', conf)
  {
    hide HashesFit, Capacity, Containers, Clip;
    forall i | 0 <= i < |es|
      ensures es[i].idx < |vars'| && HashesFit(es[i], conf) && 0 < es[i].containersize
    {
      assert SlotOk(es, i, vars, conf);
    }
  }

  lemma ResizedContainers(es: seq<DbVar>, vars: seq<Dataset>, conf: DcpConf)
    requires ValidConf(conf) && Resizable(es, vars, conf)
    ensures SameContainers(es, ResizeAll(es, vars, conf))
  {
    hide HashesFit, Resize;
    forall i | 0 <= i < |es|
      ensures SamePlace(es[i], ResizeAll(es, vars, conf)[i])
    {
      ResizeKeepsPlace(es[i], vars[es[i].idx].size, conf);
    }
  }

  // ------------------------------------------------------------------ the new block

  lemma NewEntriesStep(es: seq<DbVar>, vars: seq<Dataset>, grow: seq<nat>, n: nat, at: nat, conf: DcpConf)
    requires ValidConf(conf) && n < |grow| && AllGrow(es, vars, grow)
    ensures grow[n] < |vars| && Capacity(es, grow[n]) < vars[grow[n]].size
    ensures var before := NewEntries(es, vars, grow, n, at, conf);
            NewEntries(es, vars, grow, n + 1, at, conf) ==
              before + [NewEntry(es, vars, grow[n], at + TotalSize(before), conf)]
  {
    hide NewEntry, Capacity, TotalSize;
  }

  lemma {:induction false} NewEntryAt(es: seq<DbVar>, vars: seq<Dataset>, grow: seq<nat>, n: nat, j: nat, at: nat,
                                      conf: DcpConf)
    requires ValidConf(conf) && j < n <= |grow| && AllGrow(es, vars, grow)
    ensures grow[j] < |vars| && Capacity(es, grow[j]) < vars[grow[j]].size
    ensures var new' := NewEntries(es, vars, grow, n, at, conf);
            new'[j] == NewEntry(es, vars, grow[j], at + TotalSize(new'[..j]), conf)
    decreases n
  {
    hide *;
    var new', front := NewEntries(es, vars, grow, n, at, conf), NewEntries(es, vars, grow, n - 1, at, conf);
    NewEntriesStep(es, vars, grow, n - 1, at, conf);
    if j < n - 1 {
      NewEntryAt(es, vars, grow, n - 1, j, at, conf);
      assert front[..j] == new'[..j];
    } else {
      assert front == new'[..j];
    }
  }

  lemma {:induction false} NewEntryFits(es: seq<DbVar>, vars: seq<Dataset>, p: nat, fptr: nat, conf: DcpConf)
    requires ValidConf(conf) && p < |vars| && Capacity(es, p) < vars[p].size
    ensures HashesFit(NewEntry(es, vars, p, fptr, conf), conf)
  {
    hide Tiles, Fresh;
    if conf.Dcp? {
      FreshTiles(vars[p].size - Capacity(es, p), conf.blockSize);
    }
  }

  lemma {:induction false} GrowingIncreases(es: seq<DbVar>, vars: seq<Dataset>, n: nat, i: nat, j: nat)
    requires n <= |vars| && i <= j < |Growing(es, vars, n)|
    ensures Growing(es, vars, n)[j] < n
    ensures i < j ==> Growing(es, vars, n)[i] < Growing(es, vars, n)[j]
    decreases n
  {
    hide Capacity;
    if n != 0 {
      if j < |Growing(es, vars, n - 1)| {
        GrowingIncreases(es, vars, n - 1, i, j);
      } else if i < j {
        GrowingIncreases(es, vars, n - 1, i, i);
      }
    }
  }

  lemma {:induction false} GrowingIndex(es: seq<DbVar>, vars: seq<Dataset>, n: nat, p: nat) returns (j: nat)
    requires p < n <= |vars| && Capacity(es, p) < vars[p].size
    ensures j < |Growing(es, vars, n)| && Growing(es, vars, n)[j] == p
    decreases n
  {
    hide Capacity;
    if p == n - 1 {
      j := |Growing(es, vars, n - 1)|;
    } else {
      j := GrowingIndex(es, vars, n - 1, p);
    }
  }

  /** Entry `j` of the new block is for variable `p`. */
  ghost predicate GrowsAt(es: seq<DbVar>, vars: seq<Dataset>, j: nat, p: nat) {
    && p < |vars| && Capacity(es, p) < vars[p].size
    && j < |Growing(es, vars, |vars|)| && Growing(es, vars, |vars|)[j] == p
  }

  lemma {:induction false} NewBlockEntry(es: seq<DbVar>, vars: seq<Dataset>, j: nat, p: nat, end: nat, conf: DcpConf)
    requires ValidConf(conf) && GrowsAt(es, vars, j, p)
    ensures var db := NewBlock(es, vars, end, conf);
            && j < |db.dbvars| == |Growing(es, vars, |vars|)|
            && db.dbvars[j] == NewEntry(es, vars, p, end + HeadSize(db) + TotalSize(db.dbvars[..j]), conf)
  {
    hide NewEntry, Capacity, Containers, TotalSize, Growing;
    var grow := Growing(es, vars, |vars|);
    GrowingVariablesGrow(es, vars, |vars|);
    NewEntryAt(es, vars, grow, |grow|, j, end + BLOCK_META + CHUNK_META * |grow|, conf);
  }

  lemma {:induction false} NewEntryIsInOrder(es: seq<DbVar>, vars: seq<Dataset>, p: nat, fptr: nat, conf: DcpConf)
    requires ValidConf(conf) && p < |vars| && Capacity(es, p) < vars[p].size
    ensures var e := NewEntry(es, vars, p, fptr, conf);
            && e.idx == p && e.id == vars[p].id && e.dptr == Capacity(es, p) && e.containerid == Containers(es, p)
            && e.fptr == fptr && 0 < e.containersize == vars[p].size - Capacity(es, p)
            && e.chunksize == Clip(vars[p].size, e.dptr, e.containersize)
  {
    hide Capacity, Containers, InitialHashes;
  }

  lemma {:induction false} NewEntryAnywhere(es: seq<DbVar>, vars: seq<Dataset>, j: nat, p: nat, end: nat, conf: DcpConf)
    requires ValidConf(conf) && GrowsAt(es, vars, j, p)
    ensures var added := NewBlock(es, vars, end, conf).dbvars;
            && j < |added|
            && added[j].idx == p && added[j].containersize == vars[p].size - Capacity(es, p)
  {
    var db := NewBlock(es, vars, end, conf);
    assert p < |vars| && Capacity(es, p) < vars[p].size;
    hide *;
    NewBlockEntry(es, vars, j, p, end, conf);
    NewEntryIsInOrder(es, vars, p, end + HeadSize(db) + TotalSize(db.dbvars[..j]), conf);
  }

  lemma {:induction false} AGrowingVariable(es: seq<DbVar>, vars: seq<Dataset>, j: nat)
    requires j < |Growing(es, vars, |vars|)|
    ensures GrowsAt(es, vars, j, Growing(es, vars, |vars|)[j])
  {
    hide Growing, Capacity;
    GrowingVariablesGrow(es, vars, |vars|);
  }

  lemma OtherNewEntries(es: seq<DbVar>, vars: seq<Dataset>, j: nat, p: nat, end: nat, conf: DcpConf)
    requires ValidConf(conf) && GrowsAt(es, vars, j, p)
    ensures var added := NewBlock(es, vars, end, conf).dbvars;
            j < |added| && forall i :: 0 <= i < j ==> added[..j][i].idx != p
  {
    var grow, added := Growing(es, vars, |vars|), NewBlock(es, vars, end, conf).dbvars;
    assert j < |grow| && grow[j] == p;
    hide *;
    NewEntryAnywhere(es, vars, j, p, end, conf);
    forall i | 0 <= i < j
      ensures added[i].idx != p
    {
      AGrowingVariable(es, vars, i);
      NewEntryAnywhere(es, vars, i, grow[i], end, conf);
      GrowingIncreases(es, vars, |vars|, i, j);
    }
  }

  /** Entry `j` of the new block is in order in the longer list. */
  lemma {:induction false} NewSlot(es: seq<DbVar>, es': seq<DbVar>, vars: seq<Dataset>, j: nat, end: nat, conf: DcpConf)
    requires ValidConf(conf) && SameContainers(es, es') && j < |Growing(es, vars, |vars|)|
    ensures j < |NewBlock(es, vars, end, conf).dbvars|
    ensures SlotOk(es' + NewBlock(es, vars, end, conf).dbvars, |es'| + j, vars, conf)
  {
    var p, db := Growing(es, vars, |vars|)[j], NewBlock(es, vars, end, conf);
    var added := db.dbvars;
    AGrowingVariable(es, vars, j);
    assert p < |vars| && Capacity(es, p) < vars[p].size;
    hide Growing, GrowsAt, NewBlock, NewEntry, HashesFit, Capacity, Containers, TotalSize, Clip;
    NewBlockEntry(es, vars, j, p, end, conf);
    var fptr := end + HeadSize(db) + TotalSize(added[..j]);
    NewEntryIsInOrder(es, vars, p, fptr, conf);
    NewEntryFits(es, vars, p, fptr, conf);
    OtherNewEntries(es, vars, j, p, end, conf);
    NoContainers(added[..j], p);
    SumsAppend(es', added[..j], p);
    SameSums(es, es', p);
    assert (es' + added)[..|es'| + j] == es' + added[..j];
  }

  lemma {:induction false} OneContainer(es: seq<DbVar>, j: nat, p: nat)
    requires j < |es| && es[j].idx == p
    ensures es[j].containersize <= Capacity(es, p)
  {
    hide Capacity;
    SumsStep(es, j, p);
    SumsMonotone(es, j + 1, |es|, p);
    assert es[..|es|] == es;
  }

  /** With the new block every variable fits. */
  lemma {:induction false} NewCapacity(es: seq<DbVar>, vars: seq<Dataset>, p: nat, end: nat, conf: DcpConf)
    requires ValidConf(conf) && p < |vars|
    ensures Capacity(es, p) + Capacity(NewBlock(es, vars, end, conf).dbvars, p) >= vars[p].size
  {
    hide *;
    if Capacity(es, p) < vars[p].size {
      var j := GrowingIndex(es, vars, |vars|, p);
      AGrowingVariable(es, vars, j);
      NewEntryAnywhere(es, vars, j, p, end, conf);
      OneContainer(NewBlock(es, vars, end, conf).dbvars, j, p);
    }
  }

  lemma {:induction false} NewBlockOk(es: seq<DbVar>, vars: seq<Dataset>, end: nat, conf: DcpConf)
    requires ValidConf(conf) && Growing(es, vars, |vars|) != []
    ensures BlockOk(NewBlock(es, vars, end, conf), end)
  {
    var grow, db := Growing(es, vars, |vars|), NewBlock(es, vars, end, conf);
    NewBlockSize(es, vars, end, conf);
    hide Growing, NewBlock, NewEntry, HashesFit, Capacity, Containers, TotalSize, Clip;
    forall j | 0 <= j < |db.dbvars|
      ensures PlacedAt(db, end, j)
    {
      AGrowingVariable(es, vars, j);
      NewBlockEntry(es, vars, j, grow[j], end, conf);
      NewEntryIsInOrder(es, vars, grow[j], end + HeadSize(db) + TotalSize(db.dbvars[..j]), conf);
    }
  }

  // ------------------------------------------------------------------ one update

  lemma ResizedBlockOk(db: Db, vars: seq<Dataset>, at: nat, conf: DcpConf)
    requires ValidConf(conf) && Resizable(db.dbvars, vars, conf) && BlockOk(db, at)
    ensures BlockOk(ResizeBlock(db, vars, conf), at)
  {
    hide HashesFit, Resize, TotalSize, Capacity, Containers;
    var db' := ResizeBlock(db, vars, conf);
    ResizedContainers(db.dbvars, vars, conf);
    SameSums(db.dbvars, db'.dbvars, 0);
    forall j | 0 <= j < |db'.dbvars|
      ensures PlacedAt(db', at, j)
    {
      assert PlacedAt(db, at, j);
      ResizeKeepsPlace(db.dbvars[j], vars[db.dbvars[j].idx].size, conf);
      SameSums(db.dbvars[..j], db'.dbvars[..j], 0);
    }
  }

  lemma {:induction false} ResizedBlocksOk(dbs: seq<Db>, vars: seq<Dataset>, conf: DcpConf)
    requires ValidConf(conf) && Resizable(Entries(dbs), vars, conf) && ResizableBlocks(dbs, vars, conf) && BlocksOk(dbs)
    ensures BlocksOk(ResizeBlocks(dbs, vars, conf))
  {
    hide HashesFit, Resize, TotalSize, Capacity, Containers, BlockOk, ResizeBlock, Resizable;
    var dbs' := ResizeBlocks(dbs, vars, conf);
    forall k | 0 <= k < |dbs'|
      ensures BlockOk(dbs'[k], End(dbs'[..k]))
    {
      ResizedBlockOk(dbs[k], vars, End(dbs[..k]), conf);
      FrontResizable(dbs, k, vars, conf);
      ResizedEntries(dbs[..k], vars, conf);
      assert dbs'[..k] == ResizeBlocks(dbs[..k], vars, conf);
    }
  }

  lemma {:induction false} FrontResizable(dbs: seq<Db>, k: nat, vars: seq<Dataset>, conf: DcpConf)
    requires ValidConf(conf) && Resizable(Entries(dbs), vars, conf) && k <= |dbs|
    ensures Resizable(Entries(dbs[..k]), vars, conf)
  {
    hide HashesFit;
    EntriesPrefix(dbs, k);
    var es, front := Entries(dbs), Entries(dbs[..k]);
    forall i | 0 <= i < |front|
      ensures front[i] == es[i]
    {
    }
  }

  lemma {:induction false} EntriesPrefix(dbs: seq<Db>, k: nat)
    requires k <= |dbs|
    ensures Entries(dbs[..k]) <= Entries(dbs)
    decreases |dbs|
  {
    if k < |dbs| {
      var front := dbs[..|dbs| - 1];
      EntriesPrefix(front, k);
      assert front[..k] == dbs[..k];
    } else {
      assert dbs[..k] == dbs;
    }
  }

  /**
   * One update leaves a list for the new sizes: the chunks of a variable still continue each other, everything fits,
   * and the blocks still follow each other in the file.
   */
  lemma UpdateKeepsLayout(dbs: seq<Db>, vars: seq<Dataset>, vars': seq<Dataset>, conf: DcpConf)
    requires ValidConf(conf) && LayoutOk(dbs, vars, conf) && Grows(vars, vars')
    ensures ResizableBlocks(dbs, vars', conf) && LayoutOk(Updated(dbs, vars', conf), vars', conf)
    ensures AppendsOnly(dbs, Updated(dbs, vars', conf))
  {
    hide HashesFit, Resize, Capacity, Containers, BlockOk, ResizeBlock, NewBlock, SlotOk;
    var es := Entries(dbs);
    AllResizable(es, vars, vars', conf);
    FitsBlocks(dbs, vars', conf);
    var resized, es' := ResizeBlocks(dbs, vars', conf), ResizeAll(es, vars', conf);
    var dbs' := Updated(dbs, vars', conf);
    ResizedEntries(dbs, vars', conf);
    ResizedContainers(es, vars', conf);
    ResizedBlocksOk(dbs, vars', conf);
    forall i | 0 <= i < |es|
      ensures SlotOk(es', i, vars', conf) && SamePlace(es[i], es'[i])
    {
      ResizedSlot(es, i, vars, vars', conf);
      ResizeKeepsPlace(es[i], vars'[es[i].idx].size, conf);
    }
    forall k | 0 <= k < |dbs|
      ensures resized[k].dbsize == dbs[k].dbsize && |resized[k].dbvars| == |dbs[k].dbvars|
    {
      ResizedBlockShape(dbs[k], vars', conf);
    }
    if Growing(es, vars', |vars'|) == [] {
      forall p | 0 <= p < |vars'|
        ensures vars'[p].size <= Capacity(es', p)
      {
        if Capacity(es, p) < vars'[p].size {
          var j := GrowingIndex(es, vars', |vars'|, p);
          assert false;
        }
        SameSums(es, es', p);
      }
    } else {
      AppendedLayout(dbs, vars', conf);
    }
  }

  /** The update appends: blocks stay where they are, and so do the containers in them. */
  ghost predicate AppendsOnly(dbs: seq<Db>, dbs': seq<Db>) {
    && |dbs| <= |dbs'| && |Entries(dbs)| <= |Entries(dbs')|
    && (forall i :: 0 <= i < |Entries(dbs)| ==> SamePlace(Entries(dbs)[i], Entries(dbs')[i]))
    && (forall k :: 0 <= k < |dbs| ==> dbs'[k].dbsize == dbs[k].dbsize && |dbs'[k].dbvars| == |dbs[k].dbvars|)
  }

  lemma {:induction false} AppendedLayout(dbs: seq<Db>, vars: seq<Dataset>, conf: DcpConf)
    requires ValidConf(conf) && Resizable(Entries(dbs), vars, conf) && ResizableBlocks(dbs, vars, conf)
    requires Growing(Entries(dbs), vars, |vars|) != []
    requires BlocksOk(ResizeBlocks(dbs, vars, conf))
    requires forall i :: 0 <= i < |Entries(dbs)| ==> SlotOk(ResizeAll(Entries(dbs), vars, conf), i, vars, conf)
    ensures LayoutOk(Updated(dbs, vars, conf), vars, conf)
    ensures ResizeAll(Entries(dbs), vars, conf) <= Entries(Updated(dbs, vars, conf))
  {
    var es, end := Entries(dbs), End(dbs);
    var resized, es' := ResizeBlocks(dbs, vars, conf), ResizeAll(es, vars, conf);
    var added := NewBlock(es, vars, end, conf);
    assert Updated(dbs, vars, conf) == resized + [added];
    ResizedEntries(dbs, vars, conf);
    ResizedContainers(es, vars, conf);
    NewBlockOk(es, vars, end, conf);
    hide *;
    AppendedBlock(resized, added);
    AppendedSlots(es, es', vars, end, conf);
    LayoutParts(resized + [added], vars, conf);
  }

  lemma {:induction false} LayoutParts(dbs: seq<Db>, vars: seq<Dataset>, conf: DcpConf)
    requires ValidConf(conf) && BlocksOk(dbs) && SlotsOk(Entries(dbs), vars, conf)
    ensures LayoutOk(dbs, vars, conf)
  {
  }

  lemma {:induction false} AppendedBlock(dbs: seq<Db>, added: Db)
    requires BlocksOk(dbs) && BlockOk(added, End(dbs))
    ensures BlocksOk(dbs + [added]) && Entries(dbs + [added]) == Entries(dbs) + added.dbvars
  {
    hide BlockOk;
    var dbs' := dbs + [added];
    assert dbs'[..|dbs|] == dbs;
    forall k | 0 <= k < |dbs'|
      ensures BlockOk(dbs'[k], End(dbs'[..k]))
    {
      if k < |dbs| {
        assert dbs'[..k] == dbs[..k];
      }
    }
  }

  lemma AppendedSlots(es: seq<DbVar>, es': seq<DbVar>, vars: seq<Dataset>, end: nat, conf: DcpConf)
    requires ValidConf(conf) && SameContainers(es, es')
    requires forall i :: 0 <= i < |es'| ==> SlotOk(es', i, vars, conf)
    ensures SlotsOk(es' + NewBlock(es, vars, end, conf).dbvars, vars, conf)
  {
    var more, n := NewBlock(es, vars, end, conf).dbvars, |Growing(es, vars, |vars|)|;
    NewBlockSize(es, vars, end, conf);
    hide *;
    forall i | 0 <= i < |es' + more|
      ensures SlotOk(es' + more, i, vars, conf)
    {
      if i < |es'| {
        PrefixSlot(es', more, i, vars, conf);
      } else {
        NewSlot(es, es', vars, i - |es'|, end, conf);
      }
    }
    forall p | 0 <= p < |vars|
      ensures vars[p].size <= Capacity(es' + more, p)
    {
      NewCapacity(es, vars, p, end, conf);
      SumsAppend(es', more, p);
      SameSums(es, es', p);
    }
    SlotsParts(es' + more, vars, conf);
  }

  lemma {:induction false} SlotsParts(es: seq<DbVar>, vars: seq<Dataset>, conf: DcpConf)
    requires ValidConf(conf) && forall i :: 0 <= i < |es| ==> SlotOk(es, i, vars, conf)
    requires forall p :: 0 <= p < |vars| ==> vars[p].size <= Capacity(es, p)
    ensures SlotsOk(es, vars, conf)
  {
  }

  lemma {:induction false} NewBlockSize(es: seq<DbVar>, vars: seq<Dataset>, end: nat, conf: DcpConf)
    requires ValidConf(conf)
    ensures var db := NewBlock(es, vars, end, conf);
            && |db.dbvars| == |Growing(es, vars, |vars|)|
            && db.dbsize == HeadSize(db) + TotalSize(db.dbvars)
  {
    hide Growing, NewEntry, Capacity, TotalSize;
  }

  lemma ResizedBlockShape(db: Db, vars: seq<Dataset>, conf: DcpConf)
    requires ValidConf(conf) && Resizable(db.dbvars, vars, conf)
    ensures ResizeBlock(db, vars, conf).dbsize == db.dbsize && |ResizeBlock(db, vars, conf).dbvars| == |db.dbvars|
  {
  }

  lemma PrefixSlot(es: seq<DbVar>, more: seq<DbVar>, i: nat, vars: seq<Dataset>, conf: DcpConf)
    requires ValidConf(conf) && i < |es| && SlotOk(es, i, vars, conf)
    ensures SlotOk(es + more, i, vars, conf)
  {
    hide HashesFit, Capacity, Containers, Clip;
    assert (es + more)[..i] == es[..i];
  }
}
