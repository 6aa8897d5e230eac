/** What every step of the encoding group keeps. */
module RingInvariant {
  import opened Arithmetic
  import opened Words
  import opened Fields
  import opened LinearAlgebra
  import opened RingEncoding
  import opened RingRanks

  // ----- What a block should come to -----

  /** Block `b` of the file of rank `s`. */
  ghost function Blk(job: Job, s: nat, b: nat): (w: seq<Word>)
    requires job.Valid() && s < |job.rows|
    ensures |w| == Start(job, b + 1) - Start(job, b)
  {
    StartsAscend(job, b);
    job.files[s][Start(job, b)..Start(job, b + 1)]
  }

  lemma StartsAscend(job: Job, b: nat)
    ensures Start(job, b) <= Start(job, b + 1) <= Start(job, b) + job.bs
  {
    BlocksLengthStep(b, job.bs);
  }

  /** Block `b` of every rank. */
  ghost function Blks(job: Job, b: nat): (w: seq<seq<Word>>)
    requires job.Valid()
    ensures Rectangular(w, |job.rows|, Start(job, b + 1) - Start(job, b))
    ensures forall s :: 0 <= s < |job.rows| ==> w[s] == Blk(job, s, b)
  {
    seq(|job.rows|, s requires 0 <= s < |job.rows| => Blk(job, s, b))
  }

  ghost function Full(job: Job, r: nat): (e: seq<Word>)
    requires job.Valid() && r < |job.rows|
    ensures |e| == job.maxFs
  {
    Encoded(job.f, job.rows[r], job.files, job.maxFs)
  }

  // ----- One rank -----

  ghost predicate HalfHolds(job: Job, data: Row, half: nat, words: seq<Word>)
    requires |data| == 2 * job.bs && half <= 1 && |words| <= job.bs
  {
    data[At(job, half)..At(job, half) + |words|] == words
  }

  /** What the rank has of the block that step `c` needs: it has arrived, or a receive into the right half is posted. */
  ghost predicate Expects(job: Job, r: nat, x: Rank, c: nat, half: nat)
    requires job.Valid() && r < |job.rows| && Sized(job, x) && half <= 1
  {
    if x.recv.Posted? then x.recv == Posted(SourceOf(|job.rows|, r, c), half)
    else HalfHolds(job, x.data, half, BlkFor(job, r, x.block, c))
  }

  ghost predicate Between(x: Rank) {
    x.phase == Fill || x.phase == Done
  }

  ghost predicate FileFits(job: Job, r: nat, x: Rank)
    requires job.Valid() && r < |job.rows|
  {
    && (x.phase == Done <==> !More(job, x.block)) && (x.block > 0 ==> More(job, x.block - 1))
    && (x.phase == Fill && BlocksLength(x.block, job.bs) + job.bs <= job.maxFs ==> x.remBsize == job.bs)
    && x.encoded == Full(job, r)[..Start(job, x.block)]
  }

  ghost predicate SumFits(job: Job, r: nat, x: Rank)
    requires job.Valid() && r < |job.rows| && Sized(job, x)
  {
    && x.init == (x.cnt > 0)
    && (x.init ==> forall w :: 0 <= w < x.remBsize ==> x.coding[w] == Partial(job, r, x.block, x.cnt, w))
  }

  /** Word `w` of the coding words after `cnt` contributions. */
  ghost function Partial(job: Job, r: nat, b: nat, cnt: nat, w: nat): Word
    requires job.Valid() && r < |job.rows|
  {
    if w < Start(job, b + 1) - Start(job, b) then RingSum(job.f, job.rows[r], Column(Blks(job, b), w), r, cnt) else ZERO
  }

  ghost predicate BlockFits(job: Job, r: nat, x: Rank)
    requires job.Valid() && r < |job.rows| && Sized(job, x)
  {
    var k := |job.rows|;
    && x.remBsize == Start(job, x.block + 1) - Start(job, x.block)
    && x.myData[..x.remBsize] == Blk(job, r, x.block)
    && x.cnt <= k && x.i == SourceOf(k, r, x.cnt)
    && SumFits(job, r, x)
  }

  /** The rank that the latest message went to, before and after the exchange of step `cnt` was posted. */
  function LatestDest(k: nat, r: nat, posted: nat): nat
    requires r < k
  {
    if posted == 0 then r else Destination(k, r, posted - 1)
  }

  ghost predicate StepFits(job: Job, r: nat, x: Rank)
    requires job.Valid() && r < |job.rows| && Sized(job, x)
  {
    var k := |job.rows|;
    match x.phase
    case Fill => x.recv.NoRecv?
    case Await => 0 < x.cnt < k && Expects(job, r, x, x.cnt, x.offset)
    case Post => x.cnt < k && x.recv.NoRecv? && Expects(job, r, x, x.cnt, x.offset)
    case Multiply =>
      && x.cnt < k && HalfHolds(job, x.data, x.offset, BlkFor(job, r, x.block, x.cnt))
      && if x.cnt == k - 1 then x.recv.NoRecv? else Expects(job, r, x, x.cnt + 1, 1 - x.offset)
    case Write => x.cnt == k && x.recv.NoRecv?
    case Done => x.recv.NoRecv?
  }

  /** The block that the present step multiplies. */
  ghost function BlkFor(job: Job, r: nat, b: nat, cnt: nat): (w: seq<Word>)
    requires job.Valid() && r < |job.rows|
    ensures |w| <= job.bs
  {
    StartsAscend(job, b);
    Blk(job, SourceOf(|job.rows|, r, cnt), b)
  }

  /** How many exchanges of its block the rank has posted, and how many blocks have arrived. */
  function PostedSteps(k: nat, x: Rank): nat
    requires 0 < k
  {
    match x.phase
    case Fill => 0
    case Await => x.cnt
    case Post => x.cnt
    case Multiply => if x.cnt + 1 < k then x.cnt + 1 else k - 1
    case Write => k - 1
    case Done => 0
  }

  ghost predicate RankInv(job: Job, r: nat, x: Rank) {
    && job.Valid() && r < |job.rows| && Sized(job, x)
    && x.dest < |job.rows| && x.i < |job.rows|
    && FileFits(job, r, x)
    && (!Between(x) ==> BlockFits(job, r, x) && x.dest == LatestDest(|job.rows|, r, PostedSteps(|job.rows|, x)))
    && StepFits(job, r, x)
  }

  // ----- The messages -----

  /** The step in which `r` receives from `s`, which is the step in which `s` sends to `r`. */
  function StepOf(k: nat, r: nat, s: nat): (c: nat)
    requires r < k && s < k && r != s
    ensures c + 1 < k
  {
    if r < s then s - r - 1 else s + k - r - 1
  }

  lemma {:induction false} StepOfIs(k: nat, r: nat, s: nat, c: nat)
    requires r < k && s < k && r != s && c + 1 < k
    ensures SourceOf(k, r, c + 1) == s <==> c == StepOf(k, r, s)
    ensures Destination(k, s, c) == r <==> c == StepOf(k, r, s)
  {
    SourceIs(k, r, StepOf(k, r, s) + 1);
    EveryBlockArrivesOnce(k, r, s);
    ExchangePairsUp(k, r, s, c);
  }

  function SentTo(k: nat, s: nat, x: Rank, r: nat): nat
    requires r < k && s < k && r != s
  {
    x.block + if StepOf(k, r, s) < PostedSteps(k, x) then 1 else 0
  }

  function ReceivedFrom(k: nat, r: nat, x: Rank, s: nat): nat
    requires r < k && s < k && r != s
  {
    x.block + if StepOf(k, r, s) + (if x.recv.Posted? then 1 else 0) < PostedSteps(k, x) then 1 else 0
  }

  ghost function Messages(job: Job, s: nat, from: nat, to: nat): (m: seq<seq<Word>>)
    requires job.Valid() && s < |job.rows| && from <= to
    ensures |m| == to - from
    ensures forall j :: 0 <= j < |m| ==> m[j] == Blk(job, s, from + j)
  {
    seq(to - from, j requires 0 <= j < to - from => Blk(job, s, from + j))
  }

  /** Every message from `s` to `r` is a block of `s`, and they are under way in order. */
  ghost predicate ChanFits(job: Job, s: nat, r: nat, x: Rank, y: Rank, chan: seq<seq<Word>>)
    requires job.Valid() && s < |job.rows| && r < |job.rows|
  {
    if s == r then
      chan == []
    else
      var sent, received := SentTo(|job.rows|, s, x, r), ReceivedFrom(|job.rows|, r, y, s);
      received <= sent && chan == Messages(job, s, received, sent)
  }

  ghost predicate Inv(job: Job, s: State) {
    && job.Valid() && Shape(job, s)
    && (forall r :: 0 <= r < |s.ranks| ==> RankInv(job, r, s.ranks[r]))
    && (forall a, r :: 0 <= a < |s.ranks| && 0 <= r < |s.ranks| ==>
          ChanFits(job, a, r, s.ranks[a], s.ranks[r], s.chan[a][r]))
  }
}
