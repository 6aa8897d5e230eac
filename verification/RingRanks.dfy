/** The ranks of a group while they encode: their buffers, their pending requests, and the messages under way. */
module RingRanks {
  import opened Arithmetic
  import opened Words
  import opened Fields
  import opened LinearAlgebra
  import opened RingEncoding

  /** One encoding: the rows of the code, and the files of all ranks padded to `maxFs` words. */
  datatype Job = Job(f: Field, rows: seq<Row>, files: seq<seq<Word>>, maxFs: nat, bs: nat) {
    ghost predicate Valid() {
      && f.IsField() && 0 < |rows| && 0 < bs && Rectangular(files, |rows|, maxFs)
      && forall r :: 0 <= r < |rows| ==> |rows[r]| == |rows| && NoZeros(rows[r])
    }
  }

  predicate NoZeros(row: Row) {
    forall i :: 0 <= i < |row| ==> row[i] != ZERO
  }

  /** Where block `b` starts in a file; the end of the file past the last block. */
  function Start(job: Job, b: nat): (x: nat)
    ensures x <= job.maxFs
  {
    var pos := BlocksLength(b, job.bs);
    if pos < job.maxFs then pos else job.maxFs
  }

  /** Some block is left to encode. */
  predicate More(job: Job, b: nat)
    requires 0 < job.bs
  {
    BlocksLength(b, job.bs) < PaddedSize(job.maxFs, job.bs)
  }

  // ----- One rank -----

  datatype Phase = Fill | Await | Post | Multiply | Write | Done

  /** A posted receive: from whom, and into which half of `data`. */
  datatype Recv = NoRecv | Posted(src: nat, half: nat)

  datatype Rank = Rank(
    phase: Phase, block: nat, remBsize: nat, cnt: nat, i: nat, dest: nat, offset: nat, init: bool,
    myData: Row, data: Row, coding: Row, recv: Recv, encoded: seq<Word>)

  ghost predicate Sized(job: Job, x: Rank) {
    && |x.myData| == job.bs && |x.data| == 2 * job.bs && |x.coding| == job.bs
    && x.offset <= 1 && (x.recv.Posted? ==> x.recv.half <= 1)
    && x.remBsize <= job.bs
  }

  /** The index in `data` of a half. */
  function At(job: Job, half: nat): nat {
    if half == 0 then 0 else job.bs
  }

  function Overwritten(buffer: Row, at: nat, words: seq<Word>): (r: Row)
    requires at + |words| <= |buffer|
    ensures |r| == |buffer|
    ensures forall x :: 0 <= x < |r| ==> r[x] == if at <= x < at + |words| then words[x - at] else buffer[x]
  {
    buffer[..at] + words + buffer[at + |words|..]
  }

  /** The size of the next block: the last one may be short. */
  function NextSize(job: Job, x: Rank): nat
    requires BlocksLength(x.block, job.bs) <= job.maxFs
  {
    var pos := BlocksLength(x.block, job.bs);
    if job.maxFs - pos < job.bs then job.maxFs - pos else x.remBsize
  }

  predicate CanFill(job: Job, x: Rank) {
    var pos := BlocksLength(x.block, job.bs);
    pos <= job.maxFs && NextSize(job, x) <= job.bs && pos + NextSize(job, x) <= job.maxFs
  }

  /** The next block is read, and copied to the first half. */
  function FillBlock(job: Job, r: nat, x: Rank): Rank
    requires job.Valid() && r < |job.rows| && Sized(job, x) && CanFill(job, x)
  {
    var pos, n := BlocksLength(x.block, job.bs), NextSize(job, x);
    var words := job.files[r][pos..pos + n];
    var myData := Overwritten(x.myData, 0, words);
    x.(phase := Post, remBsize := n, cnt := 0, i := r, dest := r, offset := 0, init := false,
       myData := myData, data := Overwritten(x.data, 0, words))
  }

  /** Both requests of the step before are complete. */
  function AwaitBoth(x: Rank): Rank {
    x.(phase := Post)
  }

  /** In every step but the last one, the own block is sent on and another one is to arrive in the other half. */
  function PostBoth(job: Job, x: Rank): Rank
    requires 0 < |job.rows| && x.offset <= 1
  {
    var k := |job.rows|;
    if x.cnt != k - 1 then
      x.(phase := Multiply, dest := (x.dest + k - 1) % k, recv := Posted((x.i + 1) % k, 1 - x.offset))
    else
      x.(phase := Multiply)
  }

  /** The coding words with `c` times a block; the first block is copied over whatever is there. */
  function Contributed(f: Field, c: Word, block: seq<Word>, coding: Row, init: bool): (r: Row)
    requires |block| == |coding|
    ensures |r| == |coding|
    ensures forall x :: 0 <= x < |r| ==> r[x] == f.add(if init then coding[x] else ZERO, f.mul(c, block[x]))
  {
    seq(|coding|, x requires 0 <= x < |coding| => f.add(if init then coding[x] else ZERO, f.mul(c, block[x])))
  }

  /** The block in the current half is multiplied into the coding words; then the halves are swapped. */
  function MultiplyOne(job: Job, r: nat, x: Rank): Rank
    requires r < |job.rows| && x.i < |job.rows[r]| && Sized(job, x)
  {
    var k := |job.rows|;
    var at := At(job, x.offset);
    x.(phase := if x.cnt + 1 < k then Await else Write,
       coding := Contributed(job.f, job.rows[r][x.i], x.data[at..at + job.bs], x.coding, x.init),
       init := true, i := (x.i + 1) % k, offset := 1 - x.offset, cnt := x.cnt + 1)
  }

  /** The coding words of the block are written. */
  function WriteBlock(job: Job, x: Rank): Rank
    requires 0 < job.bs && Sized(job, x)
  {
    x.(phase := if More(job, x.block + 1) then Fill
       else Done, block := x.block + 1, encoded := x.encoded + x.coding[..x.remBsize])
  }

  /** A message arrives in the half that the receive names. */
  function Arrived(job: Job, x: Rank, words: seq<Word>): Rank
    requires Sized(job, x) && x.recv.Posted? && |words| <= job.bs
  {
    x.(recv := NoRecv, data := Overwritten(x.data, At(job, x.recv.half), words))
  }

  // ----- The group -----

  /** `chan[s][r]` are the messages from `s` to `r` that were sent and not received, oldest first. */
  datatype State = State(ranks: seq<Rank>, chan: seq<seq<seq<seq<Word>>>>)

  datatype Step = RankStep(r: nat) | Deliver(s: nat, r: nat)

  ghost predicate Shape(job: Job, s: State) {
    && |s.ranks| == |job.rows| == |s.chan|
    && (forall a :: 0 <= a < |s.chan| ==> |s.chan[a]| == |job.rows|)
  }

  /** A rank does not wait for its send to be received: the message may be buffered. */
  predicate Can(job: Job, s: State, step: Step) {
    match step
    case RankStep(r) =>
      r < |s.ranks| && s.ranks[r].phase != Done && (s.ranks[r].phase == Await ==> s.ranks[r].recv.NoRecv?)
    case Deliver(a, r) =>
      && r < |s.ranks| && a < |s.chan| && r < |s.chan[a]| && s.chan[a][r] != []
      && s.ranks[r].recv.Posted? && s.ranks[r].recv.src == a
  }

  /** A step that is also possible when nothing is buffered: a send is complete once its message was received. */
  predicate CanUnbuffered(job: Job, s: State, step: Step)
    requires |s.chan| == |s.ranks| && forall a :: 0 <= a < |s.chan| ==> |s.chan[a]| == |s.ranks|
  {
    && Can(job, s, step)
    && (step.RankStep? && s.ranks[step.r].phase == Await ==>
          s.ranks[step.r].dest < |s.ranks| && s.chan[step.r][s.ranks[step.r].dest] == [])
  }

  ghost predicate RankReady(job: Job, r: nat, x: Rank) {
    && job.Valid() && r < |job.rows| && Sized(job, x) && x.i < |job.rows| && x.dest < |job.rows|
    && (x.phase == Fill ==> CanFill(job, x))
  }

  ghost function RankNext(job: Job, r: nat, x: Rank): Rank
    requires RankReady(job, r, x)
  {
    match x.phase
    case Fill => FillBlock(job, r, x)
    case Await => AwaitBoth(x)
    case Post => PostBoth(job, x)
    case Multiply => MultiplyOne(job, r, x)
    case Write => WriteBlock(job, x)
    case Done => x
  }

  ghost predicate Ready(job: Job, s: State) {
    && Shape(job, s)
    && (forall r :: 0 <= r < |s.ranks| ==> RankReady(job, r, s.ranks[r]))
    && (forall a, r, m :: 0 <= a < |s.chan| && 0 <= r < |s.chan[a]| && 0 <= m < |s.chan[a][r]| ==>
          |s.chan[a][r][m]| <= job.bs)
  }

  /** A posted exchange puts the block on its way; every other step of a rank is its own affair. */
  ghost function After(job: Job, s: State, step: Step): State
    requires Ready(job, s) && Can(job, s, step)
  {
    match step
    case RankStep(r) =>
      var x := s.ranks[r];
      var next := RankNext(job, r, x);
      s.(ranks := s.ranks[r := next],
         chan := if x.phase == Post && x.cnt != |job.rows| - 1
                 then Put(s.chan, r, next.dest, s.chan[r][next.dest] + [x.myData[..x.remBsize]]) else s.chan)
    case Deliver(a, r) =>
      State(s.ranks[r := Arrived(job, s.ranks[r], s.chan[a][r][0])], Put(s.chan, a, r, s.chan[a][r][1..]))
  }

  function Put<T>(chan: seq<seq<T>>, a: nat, r: nat, v: T): (c: seq<seq<T>>)
    requires a < |chan| && r < |chan[a]|
    ensures |c| == |chan|
    ensures forall p :: 0 <= p < |chan| ==> |c[p]| == |chan[p]|
    ensures forall p, q :: 0 <= p < |chan| && 0 <= q < |chan[p]| ==>
            c[p][q] == if p == a && q == r then v else chan[p][q]
  {
    chan[a := chan[a][r := v]]
  }

  ghost predicate IsStart(job: Job, s: State)
    requires 0 < job.bs
  {
    && Shape(job, s)
    && (forall r :: 0 <= r < |s.ranks| ==> StartsAt(job, s.ranks[r]))
    && (forall a, r :: 0 <= a < |s.chan| && 0 <= r < |s.chan[a]| ==> s.chan[a][r] == [])
  }

  /** Before the first block; the buffers hold anything. */
  ghost predicate StartsAt(job: Job, x: Rank)
    requires 0 < job.bs
  {
    && Sized(job, x) && x.phase == (if More(job, 0) then Fill else Done) && x.block == 0 && x.remBsize == job.bs
    && x.i < |job.rows| && x.dest < |job.rows| && x.recv == NoRecv && x.encoded == []
  }

  /** Any interleaving of the ranks and the deliveries. */
  ghost predicate IsRun(job: Job, states: seq<State>, steps: seq<Step>) {
    && job.Valid() && |states| == |steps| + 1 && IsStart(job, states[0])
    && forall k :: 0 <= k < |steps| ==>
         Ready(job, states[k]) && Can(job, states[k], steps[k]) && states[k + 1] == After(job, states[k], steps[k])
  }
}
