/** Level 3 recovery: the surviving files of a group restore all of its files. */
module GroupRecovery {
  import opened Arithmetic
  import opened Words
  import opened Fields
  import opened LinearAlgebra
  import opened Survivors
  import opened RingEncoding

  /** The entries of a row that are one, and the ones that are neither zero nor one. */
  function Ones(row: Row): (r: Row)
    ensures |r| == |row| && forall i :: 0 <= i < |row| ==> r[i] == if row[i] == ONE then ONE else ZERO
  {
    seq(|row|, i requires 0 <= i < |row| => if row[i] == ONE then ONE else ZERO)
  }

  function Others(row: Row): (r: Row)
    ensures |r| == |row| && forall i :: 0 <= i < |row| ==> r[i] == if row[i] == ONE then ZERO else row[i]
  {
    seq(|row|, i requires 0 <= i < |row| => if row[i] == ONE then ZERO else row[i])
  }

  lemma {:induction false} OnesAndOthers(f: Field, row: Row, v: Row)
    requires f.IsField() && |row| == |v|
    ensures f.add(Dot(f, Ones(row), v, |v|), Dot(f, Others(row), v, |v|)) == Dot(f, row, v, |v|)
  {
    forall i | 0 <= i < |row| ensures AddScaled(f, Ones(row), ONE, Others(row))[i] == row[i] {
      MulOne(f, Others(row)[i]);
      AddZero(f, row[i]);
    }
    DotAddScaled(f, Ones(row), ONE, Others(row), v, |v|);
    MulOne(f, Dot(f, Others(row), v, |v|));
    DotCongruent(f, AddScaled(f, Ones(row), ONE, Others(row)), row, v, v, |v|);
  }

  /** What a word of the destination is worth before the first contribution and after it. */
  function Value(init: bool, w: Word): Word {
    if init then w else ZERO
  }

  /** The destination holds `base` plus the products of the first `i` sources. */
  ghost predicate Accumulated(f: Field, row: Row, sources: seq<seq<Word>>, n: nat, i: nat, base: seq<Word>, init: bool,
                              dest: seq<Word>)
    requires Rectangular(sources, |row|, n) && i <= |row| && |base| == n && n <= |dest|
  {
    forall x :: 0 <= x < n ==> Value(init, dest[x]) == f.add(base[x], Dot(f, row, Column(sources, x), i))
  }

  lemma NothingAdded(f: Field, row: Row, sources: seq<seq<Word>>, n: nat, base: seq<Word>, init: bool, dest: seq<Word>)
    requires f.IsField() && Rectangular(sources, |row|, n) && |base| == n && n <= |dest|
    requires forall x :: 0 <= x < n ==> base[x] == Value(init, dest[x])
    ensures Accumulated(f, row, sources, n, 0, base, init, dest)
  {
    forall x | 0 <= x < n ensures f.add(base[x], ZERO) == base[x] {
      AddZero(f, base[x]);
    }
  }

  lemma SkipSource(f: Field, row: Row, sources: seq<seq<Word>>, n: nat, i: nat, base: seq<Word>, init: bool,
                   dest: seq<Word>)
    requires f.IsField() && Rectangular(sources, |row|, n) && i < |row| && |base| == n && n <= |dest|
    requires Accumulated(f, row, sources, n, i, base, init, dest) && row[i] == ZERO
    ensures Accumulated(f, row, sources, n, i + 1, base, init, dest)
  {
    forall x | 0 <= x < n
      ensures Dot(f, row, Column(sources, x), i + 1) == Dot(f, row, Column(sources, x), i)
    {
      MulZero(f, sources[i][x]);
      AddZero(f, Dot(f, row, Column(sources, x), i));
    }
  }

  lemma TakeSource(f: Field, row: Row, sources: seq<seq<Word>>, n: nat, i: nat, base: seq<Word>, init: bool,
                   dest: seq<Word>, dest': seq<Word>)
    requires f.IsField() && Rectangular(sources, |row|, n) && i < |row| && |base| == n && n <= |dest| == |dest'|
    requires Accumulated(f, row, sources, n, i, base, init, dest)
    requires forall x :: 0 <= x < n ==> dest'[x] == f.add(Value(init, dest[x]), f.mul(row[i], sources[i][x]))
    ensures Accumulated(f, row, sources, n, i + 1, base, true, dest')
  {
    forall x | 0 <= x < n
      ensures dest'[x] == f.add(base[x], Dot(f, row, Column(sources, x), i + 1))
    {
      assert f.AddAssociatesAt(base[x], Dot(f, row, Column(sources, x), i), f.mul(row[i], sources[i][x]));
    }
  }

  /** Adds every source with a nonzero factor. */
  method AddSources(f: Field, row: Row, sources: seq<seq<Word>>, n: nat, dest: array<Word>, before: bool,
                    ghost base: seq<Word>)
    returns (init: bool)
    requires f.IsField() && Rectangular(sources, |row|, n) && n <= dest.Length && |base| == n
    requires forall x :: 0 <= x < n ==> base[x] == Value(before, dest[x])
    modifies dest
    ensures Accumulated(f, row, sources, n, |row|, base, init, dest[..])
    ensures init <==> before || exists j :: 0 <= j < |row| && row[j] != ZERO
  {
    hide Accumulated, Column;
    init := before;
    NothingAdded(f, row, sources, n, base, init, dest[..]);
    for i := 0 to |row|
      invariant init <==> before || exists j :: 0 <= j < i && row[j] != ZERO
      invariant Accumulated(f, row, sources, n, i, base, init, dest[..])
    {
      ghost var was := dest[..];
      if row[i] != ZERO {
        Contribute(f, row[i], sources[i], dest, init);
        TakeSource(f, row, sources, n, i, base, init, was, dest[..]);
        init := true;
      } else {
        SkipSource(f, row, sources, n, i, base, init, dest[..]);
      }
    }
  }

  /** The row product of the sources: first the blocks that need no factor, then the others. */
  method DotProduct(f: Field, row: Row, sources: seq<seq<Word>>, n: nat, dest: array<Word>)
    requires f.IsField() && Rectangular(sources, |row|, n) && n <= dest.Length
    requires exists i :: 0 <= i < |row| && row[i] != ZERO
    modifies dest
    ensures dest[..n] == Encoded(f, row, sources, n)
  {
    ghost var zeros, k := seq(n, x => ZERO), |row|;
    var init := AddSources(f, Ones(row), sources, n, dest, false, zeros);
    ghost var sum := dest[..];
    ghost var ones := seq(n, x requires 0 <= x < n => Value(init, sum[x]));
    init := AddSources(f, Others(row), sources, n, dest, init, ones);
    ghost var j :| 0 <= j < k && row[j] != ZERO;
    assert init by {
      assert Ones(row)[j] != ZERO || Others(row)[j] != ZERO;
    }
    forall x | 0 <= x < n ensures dest[x] == Dot(f, row, Column(sources, x), k) {
      AddZero(f, Dot(f, Ones(row), Column(sources, x), k));
      OnesAndOthers(f, row, Column(sources, x));
    }
  }

  /** The first k indices that are not erased; the search needs no bound of its own, because k survivors exist. */
  method ChooseSurvivors(erased: seq<bool>, k: nat) returns (ids: seq<nat>)
    requires |erased| == 2 * k && k <= |Surviving(erased, 2 * k)|
    ensures ids == Chosen(erased, k)
  {
    var i := 0;
    ids := [];
    while |ids| < k
      invariant i <= 2 * k && ids == Surviving(erased, i) && |ids| <= k
      decreases 2 * k - i
    {
      if !erased[i] {
        ids := ids + [i];
      }
      i := i + 1;
    }
    SurvivingPrefix(erased, i, 2 * k);
  }

  /** The blocks the decoder reads: a data block for a checkpoint, a coding block for an encoded file. */
  function Sources(k: nat, ids: seq<nat>, data: seq<seq<Word>>, coding: seq<seq<Word>>): (s: seq<seq<Word>>)
    requires |data| == |coding| == k && forall x :: 0 <= x < |ids| ==> ids[x] < 2 * k
    ensures |s| == |ids|
    ensures forall x :: 0 <= x < |ids| ==> s[x] == if ids[x] < k then data[ids[x]] else coding[ids[x] - k]
  {
    seq(|ids|, x requires 0 <= x < |ids| => if ids[x] < k then data[ids[x]] else coding[ids[x] - k])
  }

  /** The coding blocks that belong to the data blocks. */
  function Codes(f: Field, k: nat, data: seq<seq<Word>>, n: nat): (c: seq<seq<Word>>)
    requires GroupSize(k) && Rectangular(data, k, n)
    ensures Rectangular(c, k, n) && forall i :: 0 <= i < k ==> c[i] == Encoded(f, EncodingMatrix(f, k)[i], data, n)
  {
    seq(k, i requires 0 <= i < k => Encoded(f, EncodingMatrix(f, k)[i], data, n))
  }

  /** What is left of the originals: the files that are not erased. */
  ghost predicate Intact(lost: seq<bool>, have: seq<seq<Word>>, orig: seq<seq<Word>>)
    requires |have| == |orig| == |lost|
  {
    forall i :: 0 <= i < |lost| && !lost[i] ==> have[i] == orig[i]
  }

  /** A surviving file holds its row of the code. */
  lemma {:induction false} SourceWord(f: Field, k: nat, erased: seq<bool>, have: seq<seq<Word>>, codes: seq<seq<Word>>,
                                      orig: seq<seq<Word>>, n: nat, x: nat, id: nat)
    requires f.IsField() && GroupSize(k) && |erased| == 2 * k && id < 2 * k && !erased[id]
    requires Rectangular(have, k, n) && Rectangular(codes, k, n) && Rectangular(orig, k, n) && x < n
    requires Intact(erased[..k], have, orig) && Intact(erased[k..], codes, Codes(f, k, orig, n))
    ensures (if id < k then have[id] else codes[id - k])[x] == Dot(f, FileRow(f, k, id), Column(orig, x), k)
  {
    if id < k {
      assert !erased[..k][id];
      DotUnit(f, k, id, Column(orig, x), k);
    } else {
      assert !erased[k..][id - k];
    }
  }

  /** Read from survivors, a column of the sources is the survivor matrix applied to the column of the data. */
  lemma {:induction false} SourceColumn(f: Field, k: nat, erased: seq<bool>, have: seq<seq<Word>>,
                                        codes: seq<seq<Word>>, orig: seq<seq<Word>>,
                     n: nat, x: nat)
    requires f.IsField() && GroupSize(k) && |erased| == 2 * k && k <= |Surviving(erased, 2 * k)|
    requires Rectangular(have, k, n) && Rectangular(codes, k, n) && Rectangular(orig, k, n) && x < n
    requires Intact(erased[..k], have, orig) && Intact(erased[k..], codes, Codes(f, k, orig, n))
    ensures var ids := Chosen(erased, k);
            Column(Sources(k, ids, have, codes), x) == Apply(f, FileRows(f, k, ids), Column(orig, x))
  {
    hide Intact, Codes, FileRow, Dot, Surviving;
    var ids := Chosen(erased, k);
    forall i | 0 <= i < k
      ensures Sources(k, ids, have, codes)[i][x] == Dot(f, FileRow(f, k, ids[i]), Column(orig, x), k)
    {
      SourceWord(f, k, erased, have, codes, orig, n, x, ids[i]);
    }
  }

  /** A row of an inverse is not zero, so the row product always writes its destination. */
  lemma InverseRowNonzero(f: Field, inv: Matrix, m: Matrix, n: nat, i: nat)
    requires f.IsField() && Square(inv, n) && Square(m, n) && Inverts(f, inv, m, n) && i < n
    ensures exists j :: 0 <= j < n && inv[i][j] != ZERO
  {
    if forall j :: 0 <= j < n ==> inv[i][j] == ZERO {
      assert InvertsAt(f, inv, m, n, Unit(n, i), i);
      DotZero(f, inv[i], Apply(f, m, Unit(n, i)), n);
    }
  }

  /** The decoding row of rank `r` applied to the sources is the block of rank `r`. */
  lemma {:induction false} DecodedBlock(f: Field, k: nat, erased: seq<bool>, inv: Matrix, have: seq<seq<Word>>,
                                        codes: seq<seq<Word>>,
                     orig: seq<seq<Word>>, n: nat, r: nat)
    requires f.IsField() && GroupSize(k) && |erased| == 2 * k && k <= |Surviving(erased, 2 * k)| && r < k
    requires Rectangular(have, k, n) && Rectangular(codes, k, n) && Rectangular(orig, k, n)
    requires Intact(erased[..k], have, orig) && Intact(erased[k..], codes, Codes(f, k, orig, n))
    requires Square(inv, k) && Inverts(f, inv, FileRows(f, k, Chosen(erased, k)), k)
    ensures Encoded(f, inv[r], Sources(k, Chosen(erased, k), have, codes), n) == orig[r]
  {
    hide Intact, Codes, Chosen, FileRows;
    var ids := Chosen(erased, k);
    forall x | 0 <= x < n
      ensures Dot(f, inv[r], Column(Sources(k, ids, have, codes), x), k) == orig[r][x]
    {
      SourceColumn(f, k, erased, have, codes, orig, n, x);
      assert InvertsAt(f, inv, FileRows(f, k, ids), k, Column(orig, x), r);
    }
  }

  /** Every rank with a lost checkpoint decodes its block; then the blocks are gathered. */
  method DecodeLost(f: Field, k: nat, erased: seq<bool>, ids: seq<nat>, inv: Matrix, data: seq<seq<Word>>,
                    coding: seq<seq<Word>>, n: nat, ghost orig: seq<seq<Word>>)
    returns (data': seq<seq<Word>>)
    requires f.IsField() && GroupSize(k) && |erased| == 2 * k && k <= |Surviving(erased, 2 * k)|
    requires ids == Chosen(erased, k) && Square(inv, k) && Inverts(f, inv, FileRows(f, k, ids), k)
    requires Rectangular(data, k, n) && Rectangular(coding, k, n) && Rectangular(orig, k, n)
    requires Intact(erased[..k], data, orig) && Intact(erased[k..], coding, Codes(f, k, orig, n))
    ensures data' == orig
  {
    hide Codes, Chosen, FileRows, Inverts, Surviving, Encoded;
    data' := [];
    var buffer := new Word[n];
    for r := 0 to k
      invariant data' == orig[..r]
    {
      if erased[r] {
        InverseRowNonzero(f, inv, FileRows(f, k, ids), k, r);
        DotProduct(f, inv[r], Sources(k, ids, data, coding), n, buffer);
        DecodedBlock(f, k, erased, inv, data, coding, orig, n, r);
        data' := data' + [buffer[..n]];
      } else {
        assert !erased[..k][r];
        data' := data' + [data[r]];
      }
    }
  }

  /** Every rank with a lost encoded file encodes its block again. */
  method EncodeLost(f: Field, k: nat, erased: seq<bool>, data: seq<seq<Word>>, coding: seq<seq<Word>>, n: nat)
    returns (coding': seq<seq<Word>>)
    requires f.IsField() && GroupSize(k) && |erased| == 2 * k
    requires Rectangular(data, k, n) && Rectangular(coding, k, n)
    requires Intact(erased[k..], coding, Codes(f, k, data, n))
    ensures coding' == Codes(f, k, data, n)
  {
    hide Codes, Encoded, EncodingMatrix;
    coding' := [];
    var buffer := new Word[n];
    for r := 0 to k
      invariant coding' == Codes(f, k, data, n)[..r]
    {
      if erased[r + k] {
        EntriesNonzero(f, k, r, 0);
        DotProduct(f, EncodingMatrix(f, k)[r], data, n, buffer);
        coding' := coding' + [buffer[..n]];
      } else {
        assert !erased[k..][r];
        coding' := coding' + [coding[r]];
      }
    }
  }

  /** What a rank contributes to the exchange: its part of the file, or zeros if the file is lost. */
  function BlocksAt(lost: seq<bool>, files: seq<seq<Word>>, lo: nat, hi: nat): (b: seq<seq<Word>>)
    requires lo <= hi && |files| == |lost|
    requires forall i :: 0 <= i < |files| && !lost[i] ==> hi <= |files[i]|
    ensures Rectangular(b, |files|, hi - lo)
    ensures forall i :: 0 <= i < |files| && !lost[i] ==> b[i] == files[i][lo..hi]
  {
    seq(|files|, i requires 0 <= i < |files| =>
      if lost[i] then seq(hi - lo, x => ZERO) else files[i][lo..hi])
  }

  function Prefixes(files: seq<seq<Word>>, n: nat): (p: seq<seq<Word>>)
    requires forall i :: 0 <= i < |files| ==> n <= |files[i]|
    ensures |p| == |files| && forall i :: 0 <= i < |files| ==> p[i] == files[i][..n]
  {
    seq(|files|, i requires 0 <= i < |files| => files[i][..n])
  }

  function Appended(files: seq<seq<Word>>, blocks: seq<seq<Word>>): (a: seq<seq<Word>>)
    requires |files| == |blocks|
    ensures |a| == |files| && forall i :: 0 <= i < |files| ==> a[i] == files[i] + blocks[i]
  {
    seq(|files|, i requires 0 <= i < |files| => files[i] + blocks[i])
  }

  lemma PrefixGrows(files: seq<seq<Word>>, lo: nat, hi: nat)
    requires lo <= hi && forall i :: 0 <= i < |files| ==> hi <= |files[i]|
    ensures Appended(Prefixes(files, lo), Slices(files, lo, hi)) == Prefixes(files, hi)
  {
    forall i | 0 <= i < |files| ensures files[i][..lo] + files[i][lo..hi] == files[i][..hi] {
    }
  }

  lemma WholePrefix(files: seq<seq<Word>>, k: nat, n: nat)
    requires Rectangular(files, k, n)
    ensures Prefixes(files, n) == files
  {
    forall i | 0 <= i < k ensures files[i][..n] == files[i] {
    }
  }

  lemma SlicesOfCodes(f: Field, k: nat, orig: seq<seq<Word>>, n: nat, lo: nat, hi: nat)
    requires GroupSize(k) && Rectangular(orig, k, n) && lo <= hi <= n
    ensures Rectangular(Slices(orig, lo, hi), k, hi - lo)
    ensures Codes(f, k, Slices(orig, lo, hi), hi - lo) == Slices(Codes(f, k, orig, n), lo, hi)
  {
    forall i | 0 <= i < k
      ensures Codes(f, k, Slices(orig, lo, hi), hi - lo)[i] == Codes(f, k, orig, n)[i][lo..hi]
    {
      EncodedSlice(f, EncodingMatrix(f, k)[i], orig, n, lo, hi);
    }
  }

  lemma BlocksIntact(lost: seq<bool>, k: nat, files: seq<seq<Word>>, orig: seq<seq<Word>>, n: nat, lo: nat, hi: nat)
    requires |lost| == |files| == k && Rectangular(orig, k, n) && lo <= hi <= n
    requires Intact(lost, files, orig)
    ensures forall i :: 0 <= i < k && !lost[i] ==> |files[i]| == n
    ensures Rectangular(Slices(orig, lo, hi), k, hi - lo)
    ensures Intact(lost, BlocksAt(lost, files, lo, hi), Slices(orig, lo, hi))
  {
  }

  /**
   * Decoding, block by block with a short last block; sizes are in words.  A file that is not erased is left alone,
   * an erased one is written from the decoded blocks.
   */
  method Decode(f: Field, k: nat, erased: seq<bool>, data: seq<seq<Word>>, coding: seq<seq<Word>>, maxFs: nat, bs: nat,
                ghost orig: seq<seq<Word>>)
    returns (ok: bool, data': seq<seq<Word>>, coding': seq<seq<Word>>)
    requires f.IsField() && GroupSize(k) && |erased| == 2 * k && k <= |Surviving(erased, 2 * k)| && 0 < bs
    requires |data| == |coding| == k && Rectangular(orig, k, maxFs)
    requires Intact(erased[..k], data, orig) && Intact(erased[k..], coding, Codes(f, k, orig, maxFs))
    ensures ok && data' == orig && coding' == Codes(f, k, orig, maxFs)
  {
    hide Codes, Chosen, Surviving, Encoded, Singular, Inverts, Reaches, PaddedSize, Slices, Prefixes, Appended,
         BlocksAt, EncodingMatrix;
    var ids := ChooseSurvivors(erased, k);
    var inv;
    SurvivorMatrixRegular(f, erased, k);
    ok, inv := InvertMatrix(f, FileRows(f, k, ids), k);
    if !ok {
      return ok, data, coding;
    }
    ghost var codes := Codes(f, k, orig, maxFs);
    var remBsize, ps, pos := bs, PaddedSize(maxFs, bs), 0;
    ghost var done := 0;
    var newData, newCoding := seq(k, i => []), seq(k, i => []);
    while pos < ps
      invariant pos <= ps && Reaches(pos, ps, bs)
      invariant remBsize == bs || maxFs <= pos
      invariant done == if pos < maxFs then pos else maxFs
      invariant newData == Prefixes(orig, done) && newCoding == Prefixes(codes, done)
    {
      NextBlock(pos, ps, bs);
      if maxFs - pos < bs {
        remBsize := maxFs - pos;
      }
      assert done == pos && pos + remBsize <= maxFs;
      var blocks, codeBlocks := DecodeFileBlock(f, k, erased, ids, inv, data, coding, maxFs, pos, pos + remBsize, orig);
      PrefixGrows(orig, pos, pos + remBsize);
      PrefixGrows(codes, pos, pos + remBsize);
      newData, newCoding := Appended(newData, blocks), Appended(newCoding, codeBlocks);
      done := pos + remBsize;
      pos := pos + bs;
    }
    WholePrefix(orig, k, maxFs);
    WholePrefix(codes, k, maxFs);
    data' := seq(k, i requires 0 <= i < k => if erased[i] then newData[i] else data[i]);
    coding' := seq(k, i requires 0 <= i < k => if erased[k + i] then newCoding[i] else coding[i]);
    forall i | 0 <= i < k && !erased[i] ensures data[i] == orig[i] {
      assert !erased[..k][i];
    }
    forall i | 0 <= i < k && !erased[k..][i] ensures coding[i] == codes[i] {
    }
  }

  /** The step of the decoding loop for the words from `lo` to `hi`. */
  method DecodeFileBlock(f: Field, k: nat, erased: seq<bool>, ids: seq<nat>, inv: Matrix, data: seq<seq<Word>>,
                         coding: seq<seq<Word>>, maxFs: nat, lo: nat, hi: nat, ghost orig: seq<seq<Word>>)
    returns (blocks: seq<seq<Word>>, codeBlocks: seq<seq<Word>>)
    requires f.IsField() && GroupSize(k) && |erased| == 2 * k && k <= |Surviving(erased, 2 * k)|
    requires ids == Chosen(erased, k) && Square(inv, k) && Inverts(f, inv, FileRows(f, k, ids), k)
    requires |data| == |coding| == k && Rectangular(orig, k, maxFs) && lo <= hi <= maxFs
    requires Intact(erased[..k], data, orig) && Intact(erased[k..], coding, Codes(f, k, orig, maxFs))
    ensures blocks == Slices(orig, lo, hi) && codeBlocks == Slices(Codes(f, k, orig, maxFs), lo, hi)
  {
    hide Codes, Chosen, Surviving, Encoded, Inverts, Slices, Intact, BlocksAt, FileRows;
    SlicesOfCodes(f, k, orig, maxFs, lo, hi);
    BlocksIntact(erased[..k], k, data, orig, maxFs, lo, hi);
    BlocksIntact(erased[k..], k, coding, Codes(f, k, orig, maxFs), maxFs, lo, hi);
    var mine, codes := BlocksAt(erased[..k], data, lo, hi), BlocksAt(erased[k..], coding, lo, hi);
    blocks := DecodeLost(f, k, erased, ids, inv, mine, codes, hi - lo, Slices(orig, lo, hi));
    codeBlocks := EncodeLost(f, k, erased, blocks, codes, hi - lo);
  }
}
