/** Every step of a rank and every delivery keeps the invariant of the encoding group. */
module RingSteps {
  import opened Arithmetic
  import opened Words
  import opened Fields
  import opened LinearAlgebra
  import opened RingEncoding
  import opened RingRanks
  import opened RingInvariant

  // ----- Blocks of a file -----

  /** A block that is left starts inside the file, and only the last one is short. */
  lemma MoreMeans(job: Job, b: nat)
    requires 0 < job.bs && More(job, b)
    ensures BlocksLength(b, job.bs) < job.maxFs && Start(job, b) == BlocksLength(b, job.bs)
    ensures Start(job, b + 1) ==
            if job.maxFs - BlocksLength(b, job.bs) < job.bs then job.maxFs else BlocksLength(b, job.bs) + job.bs
  {
    var ps := PaddedSize(job.maxFs, job.bs);
    var m: nat :| ps == 0 + BlocksLength(m, job.bs);
    BlocksLengthStep(b, job.bs);
    hide BlocksLength, PaddedSize;
    if m <= b {
      BlocksLengthMonotone(m, b, job.bs);
    } else {
      BlocksLengthMonotone(b, m, job.bs);
    }
  }

  lemma NoMoreMeans(job: Job, b: nat)
    requires 0 < job.bs && !More(job, b)
    ensures Start(job, b) == job.maxFs
  {
  }

  lemma FillReady(job: Job, r: nat, x: Rank)
    requires RankInv(job, r, x) && x.phase == Fill
    ensures CanFill(job, x) && NextSize(job, x) == Start(job, x.block + 1) - Start(job, x.block)
  {
    MoreMeans(job, x.block);
    hide BlocksLength, PaddedSize, Encoded;
  }

  lemma FillKeeps(job: Job, r: nat, x: Rank)
    requires RankInv(job, r, x) && x.phase == Fill && CanFill(job, x)
    ensures RankInv(job, r, FillBlock(job, r, x))
  {
    FillReady(job, r, x);
    MoreMeans(job, x.block);
    hide BlocksLength, PaddedSize, Encoded, More;
    var next := FillBlock(job, r, x);
    assert next.myData[..next.remBsize] == Blk(job, r, x.block);
    assert HalfHolds(job, next.data, 0, Blk(job, r, x.block));
  }

  lemma AwaitKeeps(job: Job, r: nat, x: Rank)
    requires RankInv(job, r, x) && x.phase == Await && x.recv.NoRecv?
    ensures RankInv(job, r, AwaitBoth(x))
  {
    hide job.f.IsField, Full, More, Start, BlocksLength, HalfHolds, SourceOf, Destination, Partial, Blk, BlkFor;
  }

  /** Within a block the file is left alone. */
  lemma SameFile(job: Job, r: nat, x: Rank, y: Rank)
    requires job.Valid() && r < |job.rows| && FileFits(job, r, x) && !Between(x) && !Between(y)
    requires y.block == x.block && y.remBsize == x.remBsize && y.encoded == x.encoded
    ensures FileFits(job, r, y)
  {
    hide job.f.IsField, Full, More, Start, BlocksLength;
  }

  lemma ValidParts(job: Job, r: nat)
    requires job.Valid() && r < |job.rows|
    ensures 0 < job.bs && |job.rows[r]| == |job.rows|
  {
  }

  lemma PostKeeps(job: Job, r: nat, x: Rank)
    requires RankInv(job, r, x) && x.phase == Post
    ensures RankInv(job, r, PostBoth(job, x))
  {
    NextSource(|job.rows|, r, x.cnt);
    ValidParts(job, r);
    hide job.Valid, FileFits, SumFits, Start, HalfHolds, SourceOf, Destination, Blk, BlkFor;
    OwnBlock(job, r, x);
    SameFile(job, r, x, PostBoth(job, x));
    SameSum(job, r, x, PostBoth(job, x));
  }

  lemma NextSource(k: nat, r: nat, cnt: nat)
    requires r < k
    ensures SourceOf(k, r, cnt + 1) == (SourceOf(k, r, cnt) + 1) % k
    ensures Destination(k, r, cnt) == (LatestDest(k, r, cnt) + k - 1) % k
  {
  }

  lemma OwnBlock(job: Job, r: nat, x: Rank)
    requires RankInv(job, r, x) && x.phase == Post
    ensures HalfHolds(job, x.data, x.offset, BlkFor(job, r, x.block, x.cnt))
  {
  }

  lemma MultiplyKeeps(job: Job, r: nat, x: Rank)
    requires RankInv(job, r, x) && x.phase == Multiply
    ensures x.i < |job.rows[r]| && RankInv(job, r, MultiplyOne(job, r, x))
  {
    hide job.Valid, FileFits, SumFits, StepFits, Start, SourceOf, Destination, Blk, Contributed, LatestDest,
         PostedSteps;
    NextSource(|job.rows|, r, x.cnt);
    ValidParts(job, r);
    TermsAdded(job, r, x);
    MultiplyStepFits(job, r, x);
    MultiplyShape(job, r, x);
    SameFile(job, r, x, MultiplyOne(job, r, x));
  }

  lemma MultiplyShape(job: Job, r: nat, x: Rank)
    requires RankInv(job, r, x) && x.phase == Multiply && x.i < |job.rows[r]|
    ensures x.cnt < |job.rows| && PostedSteps(|job.rows|, MultiplyOne(job, r, x)) == PostedSteps(|job.rows|, x)
  {
    hide job.Valid, FileFits, BlockFits, HalfHolds, Start, SourceOf, Destination, Blk, BlkFor, Contributed, Expects;
  }

  lemma MultiplyStepFits(job: Job, r: nat, x: Rank)
    requires RankInv(job, r, x) && x.phase == Multiply
    ensures x.i < |job.rows[r]| && Sized(job, MultiplyOne(job, r, x)) && StepFits(job, r, MultiplyOne(job, r, x))
  {
    ValidParts(job, r);
    hide job.Valid, FileFits, SumFits, HalfHolds, Start, SourceOf, Destination, Blk, BlkFor, Contributed;
  }

  lemma TermsAdded(job: Job, r: nat, x: Rank)
    requires RankInv(job, r, x) && x.phase == Multiply
    ensures SumFits(job, r, MultiplyOne(job, r, x))
  {
    hide job.f.IsField, Full, More, Start, BlocksLength, HalfHolds, SourceOf, Destination, Partial, Blk, BlkFor,
         Contributed;
    forall w | 0 <= w < x.remBsize ensures MultiplyOne(job, r, x).coding[w] == Partial(job, r, x.block, x.cnt + 1, w) {
      OneMoreTerm(job, r, x, w);
    }
  }

  lemma OneMoreTerm(job: Job, r: nat, x: Rank, w: nat)
    requires RankInv(job, r, x) && x.phase == Multiply && w < x.remBsize
    ensures MultiplyOne(job, r, x).coding[w] == Partial(job, r, x.block, x.cnt + 1, w)
  {
    hide job.f.IsField, job.Valid, FileFits, SourceOf, Destination, RingSum, Start, Blk, BlkFor, Partial, LatestDest,
         PostedSteps;
    ValidParts(job, r);
    var words, at := BlkFor(job, r, x.block, x.cnt), At(job, x.offset);
    BlkForIs(job, r, x);
    SameWord(x.data, at, words, job.bs, w);
    WordOf(job, x.i, x.block, w);
    TermAdded(job, r, x.block, x.cnt, w);
  }

  lemma BlkForIs(job: Job, r: nat, x: Rank)
    requires RankInv(job, r, x) && x.phase == Multiply
    ensures BlkFor(job, r, x.block, x.cnt) == Blk(job, x.i, x.block) && |Blk(job, x.i, x.block)| == x.remBsize
  {
    hide job.f.IsField, FileFits, SourceOf;
  }

  lemma WordOf(job: Job, i: nat, b: nat, w: nat)
    requires job.Valid() && i < |job.rows| && w < |Blk(job, i, b)|
    ensures w < Start(job, b + 1) - Start(job, b) && Column(Blks(job, b), w)[i] == Blk(job, i, b)[w]
  {
    hide job.f.IsField, Start;
  }

  lemma SameWord(data: Row, at: nat, words: seq<Word>, bs: nat, w: nat)
    requires w < |words| <= bs && at + bs <= |data| && data[at..at + |words|] == words
    ensures data[at..at + bs][w] == words[w]
  {
    assert data[at..at + |words|][w] == data[at + w];
  }

  lemma TermAdded(job: Job, r: nat, b: nat, cnt: nat, w: nat)
    requires job.Valid() && r < |job.rows| && w < Start(job, b + 1) - Start(job, b)
    ensures var i, v := SourceOf(|job.rows|, r, cnt), Column(Blks(job, b), w);
      Partial(job, r, b, cnt + 1, w) ==
        job.f.add(if cnt > 0 then Partial(job, r, b, cnt, w) else ZERO, job.f.mul(job.rows[r][i], v[i]))
  {
    hide job.f.IsField, Start, SourceOf, Blks;
    var row, v := job.rows[r], Column(Blks(job, b), w);
    assert RingSum(job.f, row, v, r, 0) == ZERO;
    var i := SourceOf(|row|, r, cnt);
    assert RingSum(job.f, row, v, r, cnt + 1) == job.f.add(RingSum(job.f, row, v, r, cnt), job.f.mul(row[i], v[i]));
  }

  lemma WriteKeeps(job: Job, r: nat, x: Rank)
    requires RankInv(job, r, x) && x.phase == Write
    ensures RankInv(job, r, WriteBlock(job, x))
  {
    BlockDone(job, r, x);
    SliceAppends(Full(job, r), Start(job, x.block), Start(job, x.block + 1));
    WholeBefore(job, r, x);
    hide job.f.IsField, Full, Partial, SourceOf, Destination, BlocksLength, More, Start, SumFits, Blk;
  }

  lemma SliceAppends(s: seq<Word>, lo: nat, hi: nat)
    requires lo <= hi <= |s|
    ensures s[..lo] + s[lo..hi] == s[..hi]
  {
  }

  /** Before another whole block this one was whole. */
  lemma WholeBefore(job: Job, r: nat, x: Rank)
    requires RankInv(job, r, x) && x.phase == Write
    ensures BlocksLength(x.block + 1, job.bs) + job.bs <= job.maxFs ==> x.remBsize == job.bs
  {
    hide job.f.IsField, Full, SumFits, StepFits, More;
    MoreMeans(job, x.block);
    BlocksLengthStep(x.block, job.bs);
    hide BlocksLength;
  }

  /** After a whole turn the coding words are those of the encoded file. */
  lemma BlockDone(job: Job, r: nat, x: Rank)
    requires RankInv(job, r, x) && x.phase == Write
    ensures x.cnt == |job.rows|
    ensures Start(job, x.block) <= Start(job, x.block + 1) <= job.maxFs
    ensures x.coding[..x.remBsize] == Full(job, r)[Start(job, x.block)..Start(job, x.block + 1)]
  {
    var b, lo := x.block, Start(job, x.block);
    StartsAscend(job, b);
    hide job.f.IsField, More, BlocksLength, Full, Partial, SourceOf, Destination, Start, Blk;
    forall w | 0 <= w < x.remBsize ensures x.coding[w] == Full(job, r)[lo + w] {
      assert x.coding[w] == Partial(job, r, b, x.cnt, w);
      WholeTurn(job, r, b, w);
    }
  }

  lemma WholeTurn(job: Job, r: nat, b: nat, w: nat)
    requires job.Valid() && r < |job.rows| && w < Start(job, b + 1) - Start(job, b)
    ensures Start(job, b) + w < job.maxFs && Partial(job, r, b, |job.rows|, w) == Full(job, r)[Start(job, b) + w]
  {
    var column := Column(Blks(job, b), w);
    RingSumIsDot(job.f, job.rows[r], column, r);
    hide job.f.IsField, RingSum, Dot;
    assert column == Column(job.files, Start(job, b) + w);
  }

  /** A block that arrives where it is expected. */
  lemma ArrivedKeeps(job: Job, r: nat, x: Rank)
    requires RankInv(job, r, x) && x.recv.Posted? && x.recv.src < |job.rows|
    ensures |Blk(job, x.recv.src, x.block)| <= job.bs
    ensures RankInv(job, r, Arrived(job, x, Blk(job, x.recv.src, x.block)))
  {
    StartsAscend(job, x.block);
    var words := Blk(job, x.recv.src, x.block);
    ArrivedStepFits(job, r, x, words);
    hide job.f.IsField, Full, More, Start, BlocksLength, SourceOf, Destination, Partial, Blk, BlkFor, At, Overwritten,
         StepFits, SumFits;
    SameSum(job, r, x, Arrived(job, x, words));
    assert x.phase == Await || x.phase == Multiply by {
      ExpectedHere(job, r, x);
    }
  }

  lemma ArrivedStepFits(job: Job, r: nat, x: Rank, words: seq<Word>)
    requires RankInv(job, r, x) && x.recv.Posted? && x.recv.src < |job.rows|
    requires words == Blk(job, x.recv.src, x.block) && |words| <= job.bs
    ensures StepFits(job, r, Arrived(job, x, words))
  {
    hide job.Valid, Full, More, Start, BlocksLength, SumFits, SourceOf, Destination, FileFits, HalfHolds, Blk, BlkFor,
         At, Overwritten;
    ExpectedHere(job, r, x);
    ArrivedHolds(job, x, words);
    if x.phase == Multiply {
      OtherHalf(job, x, words, BlkFor(job, r, x.block, x.cnt));
    }
  }

  lemma SameSum(job: Job, r: nat, x: Rank, y: Rank)
    requires job.Valid() && r < |job.rows| && Sized(job, x) && Sized(job, y) && SumFits(job, r, x)
    requires y.init == x.init && y.cnt == x.cnt && y.remBsize == x.remBsize && y.block == x.block
             && y.coding == x.coding
    ensures SumFits(job, r, y)
  {
    hide job.f.IsField, Partial;
  }

  /** A posted receive is for the block that the next step needs. */
  lemma ExpectedHere(job: Job, r: nat, x: Rank)
    requires RankInv(job, r, x) && x.recv.Posted? && x.recv.src < |job.rows|
    ensures x.phase == Await || x.phase == Multiply
    ensures Blk(job, x.recv.src, x.block) == BlkFor(job, r, x.block, if x.phase == Await then x.cnt else x.cnt + 1)
    ensures x.phase == Multiply ==> x.recv.half == 1 - x.offset
  {
    hide job.f.IsField, Full, More, Start, BlocksLength, SumFits, SourceOf, Destination;
  }

  lemma ArrivedHolds(job: Job, x: Rank, words: seq<Word>)
    requires Sized(job, x) && x.recv.Posted? && |words| <= job.bs
    ensures HalfHolds(job, Arrived(job, x, words).data, x.recv.half, words)
  {
  }

  /** What is being multiplied is not touched by what arrives. */
  lemma OtherHalf(job: Job, x: Rank, words: seq<Word>, own: seq<Word>)
    requires Sized(job, x) && x.recv.Posted? && x.recv.half == 1 - x.offset && |words| <= job.bs
    requires |own| <= job.bs && HalfHolds(job, x.data, x.offset, own)
    ensures HalfHolds(job, Arrived(job, x, words).data, x.offset, own)
  {
    var next, at := Arrived(job, x, words), At(job, x.offset);
    assert next.data[at..at + |own|] == x.data[at..at + |own|];
  }
}
