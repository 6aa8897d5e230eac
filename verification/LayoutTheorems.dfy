/** What a block list in order means for the file and for the variables, after any history of sizes. */
module LayoutTheorems {
  import opened BlockHashes
  import opened Layout
  import opened LayoutInvariants

  // ------------------------------------------------------------------ the chunks of a variable

  /** Chunk `i` holds byte `x` of variable `p`. */
  ghost predicate Holds(es: seq<DbVar>, i: nat, p: nat, x: nat)
    requires i < |es|
  {
    es[i].idx == p && es[i].dptr <= x < es[i].dptr + es[i].chunksize
  }

  lemma SlotFacts(es: seq<DbVar>, i: nat, vars: seq<Dataset>, conf: DcpConf)
    requires ValidConf(conf) && SlotsOk(es, vars, conf) && i < |es|
    ensures var e := es[i];
            && e.idx < |vars| && e.dptr == Capacity(es[..i], e.idx) && 0 < e.containersize
            && e.chunksize == Clip(vars[e.idx].size, e.dptr, e.containersize)
            && (e.hascontent <==> 0 < e.chunksize)
  {
    hide Capacity, Containers;
    assert SlotOk(es, i, vars, conf);
  }

  /** The container in which the capacity of a variable passes `x`. */
  lemma {:induction false} FindChunk(es: seq<DbVar>, n: nat, p: nat, x: nat) returns (i: nat)
    requires n <= |es| && x < Capacity(es[..n], p)
    ensures i < n && es[i].idx == p && Capacity(es[..i], p) <= x < Capacity(es[..i], p) + es[i].containersize
    decreases n
  {
    hide Capacity;
    if n == 0 {
      EmptyCapacity(es[..0], p);
      assert false;
    }
    SumsStep(es, n - 1, p);
    if x < Capacity(es[..n - 1], p) {
      i := FindChunk(es, n - 1, p, x);
    } else {
      i := n - 1;
    }
  }

  lemma {:induction false} EmptyCapacity(es: seq<DbVar>, p: nat)
    requires es == []
    ensures Capacity(es, p) == 0
  {
  }

  /** Every byte of every variable lies in exactly one chunk. */
  lemma ChunksTileVariables(es: seq<DbVar>, vars: seq<Dataset>, conf: DcpConf, p: nat, x: nat) returns (i: nat)
    requires ValidConf(conf) && SlotsOk(es, vars, conf) && p < |vars| && x < vars[p].size
    ensures i < |es| && Holds(es, i, p, x)
    ensures forall m :: 0 <= m < |es| && Holds(es, m, p, x) ==> m == i
  {
    assert es[..|es|] == es;
    i := FindChunk(es, |es|, p, x);
    SlotFacts(es, i, vars, conf);
    forall m | 0 <= m < |es| && Holds(es, m, p, x)
      ensures m == i
    {
      SlotFacts(es, m, vars, conf);
      if m < i {
        ChunksFollow(es, m, i, vars, conf);
      } else if i < m {
        ChunksFollow(es, i, m, vars, conf);
      }
    }
  }

  lemma ChunksFollow(es: seq<DbVar>, i: nat, m: nat, vars: seq<Dataset>, conf: DcpConf)
    requires ValidConf(conf) && SlotsOk(es, vars, conf) && i < m < |es| && es[i].idx == es[m].idx
    ensures es[i].dptr + es[i].chunksize <= es[i].dptr + es[i].containersize <= es[m].dptr
  {
    hide SlotsOk, Capacity;
    SlotFacts(es, i, vars, conf);
    SlotFacts(es, m, vars, conf);
    SumsStep(es, i, es[i].idx);
    SumsMonotone(es, i + 1, m, es[i].idx);
  }

  /** No chunk reaches past its variable. */
  lemma ChunksStayInside(es: seq<DbVar>, i: nat, vars: seq<Dataset>, conf: DcpConf)
    requires ValidConf(conf) && SlotsOk(es, vars, conf) && i < |es|
    ensures es[i].idx < |vars| && es[i].chunksize <= es[i].containersize
    ensures 0 < es[i].chunksize ==> es[i].dptr + es[i].chunksize <= vars[es[i].idx].size
  {
    hide SlotsOk, Capacity;
    SlotFacts(es, i, vars, conf);
  }

  /** A chunk has content only if all earlier containers of its variable are full. */
  lemma FullBeforeNext(es: seq<DbVar>, i: nat, m: nat, vars: seq<Dataset>, conf: DcpConf)
    requires ValidConf(conf) && SlotsOk(es, vars, conf) && i < m < |es| && es[i].idx == es[m].idx && es[m].hascontent
    ensures es[i].hascontent && es[i].chunksize == es[i].containersize
  {
    hide SlotsOk, Capacity;
    SlotFacts(es, i, vars, conf);
    SlotFacts(es, m, vars, conf);
    ChunksFollow(es, i, m, vars, conf);
  }

  // ------------------------------------------------------------------ places in the file

  /** Two stretches of a file have no byte in common. */
  predicate Apart(at: nat, size: nat, at': nat, size': nat) {
    at + size <= at' || at' + size' <= at
  }

  lemma {:induction false} BlocksFollow(dbs: seq<Db>, k: nat, k': nat)
    requires k <= k' <= |dbs|
    ensures End(dbs[..k]) <= End(dbs[..k'])
    decreases k'
  {
    hide End, Entries;
    if k < k' {
      BlocksFollow(dbs, k, k' - 1);
      EntriesStep(dbs, k' - 1);
    }
  }

  lemma {:induction false} BlocksStart(dbs: seq<Db>)
    ensures FILE_META <= End(dbs)
  {
    assert dbs[..|dbs|] == dbs;
    BlocksFollow(dbs, 0, |dbs|);
  }

  lemma ContainerInBlock(dbs: seq<Db>, k: nat, j: nat)
    requires BlocksOk(dbs) && k < |dbs| && j < |dbs[k].dbvars|
    ensures End(dbs[..k]) + HeadSize(dbs[k]) <= dbs[k].dbvars[j].fptr
    ensures dbs[k].dbvars[j].fptr + dbs[k].dbvars[j].containersize <= End(dbs[..k + 1])
  {
    hide End, Entries, TotalSize, Capacity, Containers;
    var es := dbs[k].dbvars;
    assert BlockOk(dbs[k], End(dbs[..k]));
    assert PlacedAt(dbs[k], End(dbs[..k]), j);
    EntriesStep(dbs, k);
    SumsStep(es, j, 0);
    SumsMonotone(es, j + 1, |es|, 0);
    assert es[..|es|] == es;
  }

  lemma ContainersFollow(dbs: seq<Db>, k: nat, j: nat, j': nat)
    requires BlocksOk(dbs) && k < |dbs| && j < j' < |dbs[k].dbvars|
    ensures dbs[k].dbvars[j].fptr + dbs[k].dbvars[j].containersize <= dbs[k].dbvars[j'].fptr
  {
    hide End, Entries, TotalSize, Capacity, Containers;
    var es := dbs[k].dbvars;
    assert BlockOk(dbs[k], End(dbs[..k]));
    assert PlacedAt(dbs[k], End(dbs[..k]), j) && PlacedAt(dbs[k], End(dbs[..k]), j');
    SumsStep(es, j, 0);
    SumsMonotone(es, j + 1, j', 0);
  }

  /** No two containers share a byte of the file. */
  lemma ContainersApart(dbs: seq<Db>, k: nat, j: nat, k': nat, j': nat)
    requires BlocksOk(dbs) && k < |dbs| && j < |dbs[k].dbvars| && k' < |dbs| && j' < |dbs[k'].dbvars|
    requires k != k' || j != j'
    ensures Apart(dbs[k].dbvars[j].fptr, dbs[k].dbvars[j].containersize, dbs[k'].dbvars[j'].fptr,
                  dbs[k'].dbvars[j'].containersize)
  {
    hide End, BlocksOk, TotalSize;
    ContainerInBlock(dbs, k, j);
    ContainerInBlock(dbs, k', j');
    if k < k' {
      BlocksFollow(dbs, k + 1, k');
    } else if k' < k {
      BlocksFollow(dbs, k' + 1, k);
    } else if j < j' {
      ContainersFollow(dbs, k, j, j');
    } else {
      ContainersFollow(dbs, k, j', j);
    }
  }

  /** No container shares a byte with the metadata of the file or of a block. */
  lemma ContainerClearOfMetadata(dbs: seq<Db>, k: nat, j: nat, k': nat)
    requires BlocksOk(dbs) && k < |dbs| && j < |dbs[k].dbvars| && k' < |dbs|
    ensures FILE_META <= dbs[k].dbvars[j].fptr
    ensures Apart(dbs[k].dbvars[j].fptr, dbs[k].dbvars[j].containersize, End(dbs[..k']), HeadSize(dbs[k']))
  {
    hide End, BlocksOk, TotalSize;
    ContainerInBlock(dbs, k, j);
    BlocksStart(dbs[..k]);
    if k < k' {
      BlocksFollow(dbs, k + 1, k');
    } else if k' < k {
      HeadInBlock(dbs, k');
      BlocksFollow(dbs, k' + 1, k);
    }
  }

  lemma HeadInBlock(dbs: seq<Db>, k: nat)
    requires BlocksOk(dbs) && k < |dbs|
    ensures End(dbs[..k]) + HeadSize(dbs[k]) <= End(dbs[..k + 1])
  {
    hide End, Entries, TotalSize;
    assert BlockOk(dbs[k], End(dbs[..k]));
    EntriesStep(dbs, k);
  }

  /** The metadata of different blocks do not meet. */
  lemma HeadsApart(dbs: seq<Db>, k: nat, k': nat)
    requires BlocksOk(dbs) && k < |dbs| && k' < |dbs| && k != k'
    ensures Apart(End(dbs[..k]), HeadSize(dbs[k]), End(dbs[..k']), HeadSize(dbs[k']))
  {
    hide End, BlocksOk, TotalSize;
    HeadInBlock(dbs, k);
    HeadInBlock(dbs, k');
    if k < k' {
      BlocksFollow(dbs, k + 1, k');
    } else {
      BlocksFollow(dbs, k' + 1, k);
    }
  }

  // ------------------------------------------------------------------ histories

  /** The sizes at every checkpoint of a run: variables keep their ids, more may be added, no size is zero. */
  ghost predicate History(sizes: seq<seq<Dataset>>) {
    && (forall t :: 0 <= t < |sizes| ==> Sized(sizes[t]))
    && (forall t :: 0 < t < |sizes| ==> Grows(sizes[t - 1], sizes[t]))
  }

  /** The variables of the last checkpoint. */
  function Latest(sizes: seq<seq<Dataset>>): seq<Dataset> {
    if sizes == [] then [] else sizes[|sizes| - 1]
  }

  /** The block list after all checkpoints of a run. */
  ghost function After(sizes: seq<seq<Dataset>>, conf: DcpConf): (dbs: seq<Db>)
    requires ValidConf(conf) && History(sizes)
    ensures LayoutOk(dbs, Latest(sizes), conf)
  {
    if sizes == [] then []
    else
      var before := sizes[..|sizes| - 1];
      var dbs := After(before, conf);
      UpdateKeepsLayout(dbs, Latest(before), Latest(sizes), conf);
      Updated(dbs, Latest(sizes), conf)
  }

  lemma AppendsTransitive(a: seq<Db>, b: seq<Db>, c: seq<Db>)
    requires AppendsOnly(a, b) && AppendsOnly(b, c)
    ensures AppendsOnly(a, c)
  {
    hide Entries;
  }

  lemma AppendsReflexive(a: seq<Db>)
    ensures AppendsOnly(a, a)
  {
    hide Entries;
  }

  /** Over any run, no container ever moves or changes its size, and no block changes its size. */
  lemma {:induction false} NothingMoves(sizes: seq<seq<Dataset>>, t: nat, conf: DcpConf)
    requires ValidConf(conf) && History(sizes) && t <= |sizes|
    ensures AppendsOnly(After(sizes[..t], conf), After(sizes, conf))
    decreases |sizes|
  {
    hide AppendsOnly, LayoutOk, Updated, Entries;
    if t == |sizes| {
      assert sizes[..t] == sizes;
      AppendsReflexive(After(sizes, conf));
    } else {
      var before := sizes[..|sizes| - 1];
      NothingMoves(before, t, conf);
      assert before[..t] == sizes[..t];
      UpdateKeepsLayout(After(before, conf), Latest(before), Latest(sizes), conf);
      AppendsTransitive(After(sizes[..t], conf), After(before, conf), After(sizes, conf));
    }
  }
}
