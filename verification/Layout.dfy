/**
 * The block list of an FTI-FF checkpoint file.  Every checkpoint resizes the data chunks that exist to the current
 * sizes of the protected variables and appends one block with a container for everything that no longer fits.
 */
module Layout {
  import opened BlockHashes
  import opened FileBytes

  const FILE_META: nat := 90
  const BLOCK_META: nat := 12
  const CHUNK_META: nat := 62

  /** A protected variable as the layout sees it. */
  datatype Dataset = Dataset(id: nat, size: nat)

  /** One container of the file and the data chunk in it. */
  datatype DbVar = DbVar(
    id: nat, idx: nat, containerid: nat, hascontent: bool, hasCkpt: bool,
    dptr: nat, fptr: nat, chunksize: nat, containersize: nat,
    update: bool, hash: seq<Byte>, hashes: seq<DiffHash>)

  /** A block: metadata followed by its containers. */
  datatype Db = Db(dbsize: nat, update: bool, dbvars: seq<DbVar>)

  predicate ValidConf(conf: DcpConf) {
    conf.Dcp? ==> 0 < conf.blockSize
  }

  function Entries(dbs: seq<Db>): seq<DbVar> {
    if dbs == [] then [] else Entries(dbs[..|dbs| - 1]) + dbs[|dbs| - 1].dbvars
  }

  /** Where the block after `dbs` starts in the file. */
  function End(dbs: seq<Db>): nat {
    if dbs == [] then FILE_META else End(dbs[..|dbs| - 1]) + dbs[|dbs| - 1].dbsize
  }

  /** The bytes of variable `p` that the containers in `es` can hold. */
  function Capacity(es: seq<DbVar>, p: nat): nat {
    if es == [] then 0
    else Capacity(es[..|es| - 1], p) + if es[|es| - 1].idx == p then es[|es| - 1].containersize else 0
  }

  function Containers(es: seq<DbVar>, p: nat): nat {
    if es == [] then 0
    else Containers(es[..|es| - 1], p) + if es[|es| - 1].idx == p then 1 else 0
  }

  function TotalSize(es: seq<DbVar>): nat {
    if es == [] then 0 else TotalSize(es[..|es| - 1]) + es[|es| - 1].containersize
  }

  /** The metadata at the start of a block. */
  function HeadSize(db: Db): nat {
    BLOCK_META + CHUNK_META * |db.dbvars|
  }

  /** The part of a variable of `size` bytes that lies in a container for the bytes from `dptr` on. */
  function Clip(size: nat, dptr: nat, containersize: nat): nat {
    if size <= dptr then 0 else if size - dptr < containersize then size - dptr else containersize
  }

  // ------------------------------------------------------------------ what one update does

  function InitialHashes(chunk: nat, conf: DcpConf): seq<DiffHash>
    requires ValidConf(conf)
  {
    if conf.Dcp? then Fresh(chunk, conf.blockSize) else []
  }

  function ResizedHashes(e: DbVar, chunk: nat, conf: DcpConf): seq<DiffHash>
    requires ValidConf(conf)
    requires conf.Dcp? && e.hascontent && 0 < chunk < e.chunksize ==> Tiles(e.hashes, e.chunksize, conf.blockSize)
    requires conf.Dcp? && e.hascontent && chunk != e.chunksize ==> 0 < chunk && 0 < |e.hashes|
  {
    if conf.NoDcp? then e.hashes
    else if !e.hascontent then Fresh(chunk, conf.blockSize)
    else if chunk < e.chunksize then (
      CollapseIsExact(e.hashes, e.chunksize, chunk, conf.blockSize);
      Collapsed(e.hashes, chunk, conf.blockSize)
    ) else if e.chunksize < chunk then Expanded(e.hashes, chunk, conf.blockSize)
    else e.hashes
  }

  /** The hash array fits the chunk. */
  ghost predicate HashesFit(e: DbVar, conf: DcpConf)
    requires ValidConf(conf)
  {
    && (e.hascontent <==> 0 < e.chunksize)
    && (conf.Dcp? && e.hascontent ==> Tiles(e.hashes, e.chunksize, conf.blockSize))
    && (!e.hascontent || conf.NoDcp? ==> e.hashes == [])
  }

  lemma FittingHashes(e: DbVar, conf: DcpConf)
    requires ValidConf(conf) && HashesFit(e, conf) && conf.Dcp? && e.hascontent
    ensures 0 < |e.hashes|
  {
    NumHashesCovers(e.chunksize, conf.blockSize);
  }

  /** The chunk of an existing container after its variable got `size` bytes. */
  function Resize(e: DbVar, size: nat, conf: DcpConf): DbVar
    requires ValidConf(conf) && HashesFit(e, conf) && 0 < e.containersize
  {
    if size <= e.dptr then e.(hascontent := false, chunksize := 0, hashes := [])
    else
      var chunk := Clip(size, e.dptr, e.containersize);
      assert conf.Dcp? && e.hascontent ==> 0 < |e.hashes| by {
        if conf.Dcp? && e.hascontent {
          FittingHashes(e, conf);
        }
      }
      e.(hascontent := true, chunksize := chunk, hashes := ResizedHashes(e, chunk, conf))
  }

  lemma ResizeFits(e: DbVar, size: nat, conf: DcpConf)
    requires ValidConf(conf) && HashesFit(e, conf) && 0 < e.containersize
    ensures HashesFit(Resize(e, size, conf), conf)
  {
    hide Tiles, Fresh, Expanded, Collapsed;
    if e.dptr < size && conf.Dcp? {
      var chunk := Clip(size, e.dptr, e.containersize);
      if !e.hascontent {
        FreshTiles(chunk, conf.blockSize);
      } else if chunk < e.chunksize {
        CollapseIsExact(e.hashes, e.chunksize, chunk, conf.blockSize);
      } else if e.chunksize < chunk {
        ExpandIsConservative(e.hashes, e.chunksize, chunk, conf.blockSize);
      }
    }
  }

  /** Every existing chunk with the current size of its variable. */
  function ResizeAll(es: seq<DbVar>, vars: seq<Dataset>, conf: DcpConf): (r: seq<DbVar>)
    requires ValidConf(conf) && Resizable(es, vars, conf)
    ensures |r| == |es| && forall i :: 0 <= i < |es| ==> r[i] == Resize(es[i], vars[es[i].idx].size, conf)
  {
    seq(|es|, i requires 0 <= i < |es| => Resize(es[i], vars[es[i].idx].size, conf))
  }

  ghost predicate Resizable(es: seq<DbVar>, vars: seq<Dataset>, conf: DcpConf)
    requires ValidConf(conf)
  {
    forall i :: 0 <= i < |es| ==> es[i].idx < |vars| && HashesFit(es[i], conf) && 0 < es[i].containersize
  }

  /** The variables below `n` whose bytes do not all fit. */
  function Growing(es: seq<DbVar>, vars: seq<Dataset>, n: nat): seq<nat>
    requires n <= |vars|
  {
    if n == 0 then []
    else if Capacity(es, n - 1) < vars[n - 1].size then Growing(es, vars, n - 1) + [n - 1]
    else Growing(es, vars, n - 1)
  }

  ghost predicate AllGrow(es: seq<DbVar>, vars: seq<Dataset>, grow: seq<nat>) {
    forall i :: 0 <= i < |grow| ==> grow[i] < |vars| && Capacity(es, grow[i]) < vars[grow[i]].size
  }

  lemma {:induction false} GrowingVariablesGrow(es: seq<DbVar>, vars: seq<Dataset>, n: nat)
    requires n <= |vars|
    ensures AllGrow(es, vars, Growing(es, vars, n))
  {
    hide Capacity;
    if n != 0 {
      GrowingVariablesGrow(es, vars, n - 1);
    }
  }

  function NewEntry(es: seq<DbVar>, vars: seq<Dataset>, p: nat, fptr: nat, conf: DcpConf): DbVar
    requires ValidConf(conf) && p < |vars| && Capacity(es, p) < vars[p].size
  {
    var size := vars[p].size - Capacity(es, p);
    DbVar(vars[p].id, p, Containers(es, p), true, false, Capacity(es, p), fptr, size, size, true, [],
          InitialHashes(size, conf))
  }

  /** The entries for the first `n` growing variables, the first container being at `at`. */
  function NewEntries(es: seq<DbVar>, vars: seq<Dataset>, grow: seq<nat>, n: nat, at: nat,
                      conf: DcpConf): (r: seq<DbVar>)
    requires ValidConf(conf) && n <= |grow| && AllGrow(es, vars, grow)
    ensures |r| == n
  {
    if n == 0 then []
    else
      var before := NewEntries(es, vars, grow, n - 1, at, conf);
      before + [NewEntry(es, vars, grow[n - 1], at + TotalSize(before), conf)]
  }

  function NewBlock(es: seq<DbVar>, vars: seq<Dataset>, end: nat, conf: DcpConf): Db
    requires ValidConf(conf)
  {
    var grow := Growing(es, vars, |vars|);
    GrowingVariablesGrow(es, vars, |vars|);
    var meta := BLOCK_META + CHUNK_META * |grow|;
    var added := NewEntries(es, vars, grow, |grow|, end + meta, conf);
    Db(meta + TotalSize(added), true, added)
  }

  ghost predicate ResizableBlocks(dbs: seq<Db>, vars: seq<Dataset>, conf: DcpConf)
    requires ValidConf(conf)
  {
    forall k :: 0 <= k < |dbs| ==> Resizable(dbs[k].dbvars, vars, conf)
  }

  function ResizeBlocks(dbs: seq<Db>, vars: seq<Dataset>, conf: DcpConf): (r: seq<Db>)
    requires ValidConf(conf) && ResizableBlocks(dbs, vars, conf)
    ensures |r| == |dbs| && forall k :: 0 <= k < |dbs| ==> r[k] == ResizeBlock(dbs[k], vars, conf)
  {
    seq(|dbs|, k requires 0 <= k < |dbs| => ResizeBlock(dbs[k], vars, conf))
  }

  function ResizeBlock(db: Db, vars: seq<Dataset>, conf: DcpConf): Db
    requires ValidConf(conf) && Resizable(db.dbvars, vars, conf)
  {
    db.(dbvars := ResizeAll(db.dbvars, vars, conf))
  }

  /** The block list after an update. */
  function Updated(dbs: seq<Db>, vars: seq<Dataset>, conf: DcpConf): seq<Db>
    requires ValidConf(conf) && ResizableBlocks(dbs, vars, conf)
  {
    var es := Entries(dbs);
    var resized := ResizeBlocks(dbs, vars, conf);
    if Growing(es, vars, |vars|) == [] then resized else resized + [NewBlock(es, vars, End(dbs), conf)]
  }

  // ------------------------------------------------------------------ what every update keeps

  /** Container `i` continues its variable where the containers before it end, and holds its share of the bytes. */
  ghost predicate SlotOk(es: seq<DbVar>, i: nat, vars: seq<Dataset>, conf: DcpConf)
    requires ValidConf(conf) && i < |es|
  {
    var e := es[i];
    && e.idx < |vars| && e.id == vars[e.idx].id
    && e.dptr == Capacity(es[..i], e.idx)
    && e.containerid == Containers(es[..i], e.idx)
    && 0 < e.containersize
    && e.chunksize == Clip(vars[e.idx].size, e.dptr, e.containersize)
    && HashesFit(e, conf)
  }

  ghost predicate SlotsOk(es: seq<DbVar>, vars: seq<Dataset>, conf: DcpConf)
    requires ValidConf(conf)
  {
    && (forall i :: 0 <= i < |es| ==> SlotOk(es, i, vars, conf))
    && (forall p :: 0 <= p < |vars| ==> vars[p].size <= Capacity(es, p))
  }

  /** Container `j` of a block at `at` follows the metadata and the containers before it. */
  ghost predicate PlacedAt(db: Db, at: nat, j: nat)
    requires j < |db.dbvars|
  {
    db.dbvars[j].fptr == at + HeadSize(db) + TotalSize(db.dbvars[..j])
  }

  ghost predicate BlockOk(db: Db, at: nat) {
    && db.dbvars != []
    && db.dbsize == HeadSize(db) + TotalSize(db.dbvars)
    && forall j :: 0 <= j < |db.dbvars| ==> PlacedAt(db, at, j)
  }

  ghost predicate BlocksOk(dbs: seq<Db>) {
    forall k :: 0 <= k < |dbs| ==> BlockOk(dbs[k], End(dbs[..k]))
  }

  /** The list describes variables of these sizes. */
  ghost predicate LayoutOk(dbs: seq<Db>, vars: seq<Dataset>, conf: DcpConf)
    requires ValidConf(conf)
  {
    BlocksOk(dbs) && SlotsOk(Entries(dbs), vars, conf)
  }

  /** The same variables, perhaps with other sizes, and perhaps more of them. */
  ghost predicate Grows(vars: seq<Dataset>, vars': seq<Dataset>) {
    |vars| <= |vars'| && forall p :: 0 <= p < |vars| ==> vars'[p].id == vars[p].id
  }

  ghost predicate Sized(vars: seq<Dataset>) {
    forall p :: 0 <= p < |vars| ==> 0 < vars[p].size
  }
}
