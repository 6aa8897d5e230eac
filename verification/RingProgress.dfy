/** No interleaving of the encoding group gets stuck, or goes on for ever. */
module RingProgress {
  import opened Arithmetic
  import opened Words
  import opened RingEncoding
  import opened RingRanks
  import opened RingInvariant
  import opened RingSteps
  import opened RingRuns

  // ----- The rank that is furthest behind -----

  predicate Behind(k: nat, x: Rank, y: Rank)
    requires 0 < k
  {
    x.block < y.block || (x.block == y.block && PostedSteps(k, x) <= PostedSteps(k, y))
  }

  lemma {:induction false} Last(k: nat, ranks: seq<Rank>, n: nat) returns (m: nat)
    requires 0 < k && 0 < n <= |ranks|
    ensures m < n && forall r :: 0 <= r < n ==> Behind(k, ranks[m], ranks[r])
  {
    m := 0;
    if n > 1 {
      m := Last(k, ranks, n - 1);
      if !Behind(k, ranks[m], ranks[n - 1]) {
        m := n - 1;
      }
    }
  }

  lemma NoMoreLater(job: Job, b: nat, c: nat)
    requires 0 < job.bs && b <= c && More(job, c)
    ensures More(job, b)
  {
    BlocksLengthMonotone(b, c, job.bs);
  }

  /** If it waits for a block, the block was sent. */
  lemma SentToLast(job: Job, s: State, m: nat)
    requires Inv(job, s) && m < |s.ranks| && s.ranks[m].phase == Await && s.ranks[m].recv.Posted?
    requires forall r :: 0 <= r < |s.ranks| ==> Behind(|job.rows|, s.ranks[m], s.ranks[r])
    ensures s.ranks[m].recv.src < |s.ranks| && Can(job, s, Deliver(s.ranks[m].recv.src, m))
  {
    var x := s.ranks[m];
    var a := x.recv.src;
    assert RankInv(job, m, x);
    AwaitedSource(job, m, x);
    hide RankInv, Behind;
    MustHaveSent(job, m, x, a, s.ranks[a], s.chan[a][m]);
  }

  lemma {:induction false} AwaitedSource(job: Job, m: nat, x: Rank)
    requires RankInv(job, m, x) && x.phase == Await && x.recv.Posted?
    ensures 0 < x.cnt < |job.rows| && x.recv.src < |job.rows| && x.recv.src == SourceOf(|job.rows|, m, x.cnt)
  {
    hide job.f.IsField, FileFits, SumFits, BlkFor, SourceOf;
  }

  lemma MustHaveSent(job: Job, m: nat, x: Rank, a: nat, y: Rank, chan: seq<seq<Word>>)
    requires RankInv(job, m, x) && x.phase == Await && x.recv.Posted? && a == x.recv.src < |job.rows|
    requires Behind(|job.rows|, x, y) && ChanFits(job, a, m, y, x, chan)
    ensures chan != []
  {
    var k := |job.rows|;
    AwaitedSource(job, m, x);
    ArrivedCounts(job, m, x, [], if m == 0 && 1 < k then 1 else 0);
    hide RankInv, Messages, SourceOf, ReceivedFrom;
    StepOfIs(k, m, a, x.cnt - 1);
  }

  /** If it waits for its own block to be received, the receive is posted. */
  lemma ReceivedFromLast(job: Job, s: State, m: nat)
    requires Inv(job, s) && m < |s.ranks| && s.ranks[m].phase == Await
    requires forall r :: 0 <= r < |s.ranks| ==> Behind(|job.rows|, s.ranks[m], s.ranks[r])
    requires forall r :: 0 <= r < |s.ranks| ==> s.ranks[r].phase == Done || s.ranks[r].phase == Await
    requires s.ranks[m].dest < |s.ranks| && s.chan[m][s.ranks[m].dest] != []
    ensures Can(job, s, Deliver(m, s.ranks[m].dest))
  {
    var k, x := |job.rows|, s.ranks[m];
    var d := x.dest;
    var y := s.ranks[d];
    assert RankInv(job, m, x) && RankInv(job, d, y);
    assert ChanFits(job, m, d, x, y, s.chan[m][d]);
    assert 0 < x.cnt < k && d == Destination(k, m, x.cnt - 1) && More(job, x.block);
    assert y.phase == Done <==> !More(job, y.block);
    assert y.phase == Await ==> y.cnt < k && (y.recv.Posted? ==> y.recv.src == SourceOf(k, d, y.cnt));
    hide RankInv, SourceOf, Destination, Messages, More;
    StepOfIs(k, d, m, x.cnt - 1);
    assert Behind(k, x, y);
  }

  /** As long as a rank is not done some step is possible, even if nothing is buffered. */
  lemma NeverStuck(job: Job, states: seq<State>, steps: seq<Step>, n: nat, w: nat) returns (step: Step)
    requires IsRun(job, states, steps) && n < |states| && w < |states[n].ranks| && states[n].ranks[w].phase != Done
    ensures Shape(job, states[n]) && CanUnbuffered(job, states[n], step)
  {
    RunInv(job, states, steps, n);
    var s := states[n];
    if r :| 0 <= r < |s.ranks| && s.ranks[r].phase != Done && s.ranks[r].phase != Await {
      return RankStep(r);
    }
    var k := |job.rows|;
    var m := Last(k, s.ranks, |s.ranks|);
    assert RankInv(job, m, s.ranks[m]) && RankInv(job, w, s.ranks[w]) && Behind(k, s.ranks[m], s.ranks[w]);
    NotDone(job, m, w, s.ranks[m], s.ranks[w]);
    hide Inv, Ready, RankInv, Behind, More;
    if s.ranks[m].recv.Posted? {
      SentToLast(job, s, m);
      step := Deliver(s.ranks[m].recv.src, m);
    } else {
      assert s.ranks[m].dest < k by {
        assert RankReady(job, m, s.ranks[m]) by { RunInv(job, states, steps, n); RanksReady(job, s, m); }
      }
      if s.chan[m][s.ranks[m].dest] == [] {
        step := RankStep(m);
      } else {
        ReceivedFromLast(job, s, m);
        step := Deliver(m, s.ranks[m].dest);
      }
    }
  }

  lemma RanksReady(job: Job, s: State, m: nat)
    requires Ready(job, s) && m < |s.ranks|
    ensures RankReady(job, m, s.ranks[m])
  {
  }

  lemma NotDone(job: Job, m: nat, w: nat, x: Rank, y: Rank)
    requires RankInv(job, m, x) && RankInv(job, w, y) && Behind(|job.rows|, x, y) && y.phase != Done
    ensures x.phase != Done
  {
    hide BlockFits, StepFits, More;
    NoMoreLater(job, x.block, y.block);
  }

  // ----- Without buffering -----

  /** What a rank has sent and what was not received is the one block in its buffer, and it waits for it. */
  ghost predicate InBuffer(job: Job, s: State) {
    Shape(job, s) &&
    forall a, r :: 0 <= a < |s.ranks| && 0 <= r < |s.ranks| && s.chan[a][r] != [] ==>
      Holds(job, s.ranks[a], s.chan[a][r], r)
  }

  ghost predicate Holds(job: Job, x: Rank, chan: seq<seq<Word>>, r: nat) {
    && x.remBsize <= |x.myData| && chan == [x.myData[..x.remBsize]] && x.dest == r
    && (x.phase == Await || (x.phase == Multiply && x.cnt + 1 < |job.rows|))
  }

  lemma StepKeepsBuffer(job: Job, s: State, step: Step)
    requires Inv(job, s) && Ready(job, s) && InBuffer(job, s) && CanUnbuffered(job, s, step)
    ensures InBuffer(job, After(job, s, step))
  {
    hide Ready, After, Holds, Can, RankInv, ChanFits;
    StepKeepsInv(job, s, step);
    var s' := After(job, s, step);
    hide Inv, CanUnbuffered;
    forall a, r | 0 <= a < |s'.ranks| && 0 <= r < |s'.ranks| && s'.chan[a][r] != []
      ensures Holds(job, s'.ranks[a], s'.chan[a][r], r)
    {
      if step.RankStep? && step.r == a {
        OwnStep(job, s, a, r);
      } else {
        OtherStep(job, s, step, a, r);
      }
    }
  }

  lemma OtherStep(job: Job, s: State, step: Step, a: nat, r: nat)
    requires Inv(job, s) && Ready(job, s) && InBuffer(job, s) && CanUnbuffered(job, s, step)
    requires a < |s.ranks| && r < |s.ranks| && !(step.RankStep? && step.r == a)
    ensures var s' := After(job, s, step);
      Shape(job, s') && (s'.chan[a][r] != [] ==> Holds(job, s'.ranks[a], s'.chan[a][r], r))
  {
    hide Inv, RankReady, RankNext;
    if s.chan[a][r] != [] {
      assert Holds(job, s.ranks[a], s.chan[a][r], r);
    }
    if step.RankStep? {
      RanksReady(job, s, step.r);
      NextDest(job, s, step.r);
    }
  }

  lemma NextDest(job: Job, s: State, r: nat)
    requires Inv(job, s) && Ready(job, s) && r < |s.ranks|
    ensures RankReady(job, r, s.ranks[r])
    ensures s.ranks[r].phase == Post ==> RankNext(job, r, s.ranks[r]).dest < |s.ranks| && s.ranks[r].cnt < |s.ranks|
    ensures s.ranks[r].dest < |s.ranks|
  {
    RanksReady(job, s, r);
    assert RankInv(job, r, s.ranks[r]);
    hide Inv, CanFill, FileFits, BlockFits, Expects;
  }

  /** A rank with a message that was not received only multiplies. */
  lemma OwnStep(job: Job, s: State, a: nat, r: nat)
    requires Inv(job, s) && Ready(job, s) && InBuffer(job, s) && CanUnbuffered(job, s, RankStep(a))
    requires a < |s.ranks| && r < |s.ranks|
    ensures var s' := After(job, s, RankStep(a));
      Shape(job, s') && (s'.chan[a][r] != [] ==> Holds(job, s'.ranks[a], s'.chan[a][r], r))
  {
    var x := s.ranks[a];
    RanksReady(job, s, a);
    NextDest(job, s, a);
    BufferOf(job, s, a, r);
    BufferOf(job, s, a, x.dest);
    hide Inv, Ready, InBuffer, Holds, RankReady, RankNext;
    AfterOwn(job, s, a);
    if x.phase == Post {
      if x.cnt != |job.rows| - 1 {
        BufferOf(job, s, a, RankNext(job, a, x).dest);
        PostHolds(job, a, x);
      }
    } else if s.chan[a][r] != [] {
      StillMultiplies(job, s, a, r);
    }
  }

  lemma BufferOf(job: Job, s: State, a: nat, r: nat)
    requires InBuffer(job, s) && a < |s.ranks| && r < |s.ranks|
    ensures s.chan[a][r] != [] ==> Holds(job, s.ranks[a], s.chan[a][r], r)
    ensures s.ranks[a].phase == Post ==> s.chan[a][r] == []
  {
  }

  lemma AfterOwn(job: Job, s: State, a: nat)
    requires Ready(job, s) && Can(job, s, RankStep(a)) && RankReady(job, a, s.ranks[a])
    ensures var x, next, s' := s.ranks[a], RankNext(job, a, s.ranks[a]), After(job, s, RankStep(a));
      && s'.ranks == s.ranks[a := next] && |s'.chan| == |s.chan|
      && (forall p :: 0 <= p < |s.chan| ==> |s'.chan[p]| == |s.chan[p]|)
      && forall r :: 0 <= r < |s.ranks| ==>
           s'.chan[a][r] == if x.phase == Post && x.cnt != |job.rows| - 1 && r == next.dest
                            then s.chan[a][r] + [x.myData[..x.remBsize]] else s.chan[a][r]
  {
    hide RankReady, RankNext;
  }

  lemma PostHolds(job: Job, a: nat, x: Rank)
    requires RankReady(job, a, x) && x.phase == Post && x.cnt != |job.rows| - 1 && x.cnt < |job.rows|
    ensures var next := RankNext(job, a, x); Holds(job, next, [x.myData[..x.remBsize]], next.dest)
  {
  }

  lemma StillMultiplies(job: Job, s: State, a: nat, r: nat)
    requires Ready(job, s) && InBuffer(job, s) && CanUnbuffered(job, s, RankStep(a)) && a < |s.ranks| && r < |s.ranks|
    requires RankReady(job, a, s.ranks[a]) && s.chan[a][r] != []
    ensures Holds(job, RankNext(job, a, s.ranks[a]), s.chan[a][r], r)
  {
    assert Holds(job, s.ranks[a], s.chan[a][r], r);
    hide Ready, InBuffer, Contributed, CanFill, FillBlock;
  }

  /** As long as every send completes only when it is received, the send buffer is not touched before. */
  lemma {:induction false} SendBufferUntouched(job: Job, states: seq<State>, steps: seq<Step>, n: nat)
    requires IsRun(job, states, steps) && n < |states|
    requires forall j :: 0 <= j < n ==> Shape(job, states[j]) && CanUnbuffered(job, states[j], steps[j])
    ensures InBuffer(job, states[n])
  {
    hide Inv, Ready, CanUnbuffered, After, job.Valid;
    if n > 0 {
      SendBufferUntouched(job, states, steps, n - 1);
      RunInv(job, states, steps, n - 1);
      StepKeepsBuffer(job, states[n - 1], steps[n - 1]);
    }
  }

  // ----- Every run ends -----

  /** How far a rank is within a block. */
  function Place(k: nat, x: Rank): nat {
    match x.phase
    case Fill => 0
    case Await => 3 * x.cnt
    case Post => 3 * x.cnt + 1
    case Multiply => 3 * x.cnt + 2
    case Write => 3 * k
    case Done => 0
  }

  function Work(k: nat, x: Rank): nat {
    BlocksLength(x.block, 6 * k + 2) + 2 * Place(k, x) + if x.recv.NoRecv? then 1 else 0
  }

  lemma RankWorks(job: Job, r: nat, x: Rank)
    requires RankInv(job, r, x) && RankReady(job, r, x) && x.phase != Done && (x.phase == Await ==> x.recv.NoRecv?)
    ensures Work(|job.rows|, x) < Work(|job.rows|, RankNext(job, r, x))
  {
    hide job.Valid, FileFits, BlockFits, Expects, HalfHolds, SourceOf, Destination, BlkFor, Blk, Contributed,
         Overwritten, More, Start, BlocksLength, CanFill, NextSize;
    BlocksLengthStep(x.block, 6 * |job.rows| + 2);
    ValidParts(job, r);
  }

  lemma ArrivalWorks(job: Job, x: Rank, words: seq<Word>)
    requires Sized(job, x) && x.recv.Posted? && |words| <= job.bs
    ensures Work(|job.rows|, x) < Work(|job.rows|, Arrived(job, x, words))
  {
    hide BlocksLength, Overwritten;
  }

  /** No rank gets further than this. */
  function Most(job: Job): nat {
    BlocksLength(job.maxFs + 1, 6 * |job.rows| + 2)
  }

  lemma {:induction false} AtLeast(b: nat, bs: nat)
    requires 0 < bs
    ensures b <= BlocksLength(b, bs)
  {
    if b > 0 {
      AtLeast(b - 1, bs);
    }
  }

  lemma WorkBounded(job: Job, r: nat, x: Rank)
    requires RankInv(job, r, x)
    ensures Work(|job.rows|, x) <= Most(job)
  {
    var k := |job.rows|;
    var each := 6 * k + 2;
    if x.block > 0 {
      MoreMeans(job, x.block - 1);
      AtLeast(x.block - 1, job.bs);
    }
    if x.phase != Done {
      MoreMeans(job, x.block);
      AtLeast(x.block, job.bs);
    }
    assert x.block <= job.maxFs && Place(k, x) <= 3 * k;
    hide RankInv, BlocksLength, More, Place;
    BlocksLengthMonotone(x.block, job.maxFs, each);
    BlocksLengthStep(job.maxFs, each);
  }

  function TotalWork(k: nat, ranks: seq<Rank>): nat {
    if |ranks| == 0 then 0 else TotalWork(k, ranks[..|ranks| - 1]) + Work(k, ranks[|ranks| - 1])
  }

  lemma {:induction false} OneWorks(k: nat, ranks: seq<Rank>, r: nat, next: Rank)
    requires r < |ranks| && Work(k, ranks[r]) < Work(k, next)
    ensures TotalWork(k, ranks) < TotalWork(k, ranks[r := next])
  {
    var n := |ranks| - 1;
    hide Work;
    if r == n {
      assert ranks[r := next][..n] == ranks[..n];
    } else {
      OneWorks(k, ranks[..n], r, next);
      assert ranks[r := next][..n] == ranks[..n][r := next];
    }
  }

  lemma StepWorks(job: Job, s: State, step: Step)
    requires Inv(job, s) && Ready(job, s) && Can(job, s, step)
    ensures TotalWork(|job.rows|, s.ranks) < TotalWork(|job.rows|, After(job, s, step).ranks)
  {
    var k := |job.rows|;
    if step.RankStep? {
      var r := step.r;
      assert RankInv(job, r, s.ranks[r]) && RankReady(job, r, s.ranks[r]);
      hide RankInv, RankReady, Inv, Work, RankNext, TotalWork;
      RankWorks(job, r, s.ranks[r]);
      OneWorks(k, s.ranks, r, RankNext(job, r, s.ranks[r]));
    } else {
      var a, r := step.s, step.r;
      assert RankReady(job, r, s.ranks[r]) && |s.chan[a][r][0]| <= job.bs;
      hide RankInv, Inv, Work, Arrived, TotalWork;
      ArrivalWorks(job, s.ranks[r], s.chan[a][r][0]);
      OneWorks(k, s.ranks, r, Arrived(job, s.ranks[r], s.chan[a][r][0]));
    }
  }

  lemma {:induction false} TotalBounded(job: Job, ranks: seq<Rank>)
    requires forall r :: 0 <= r < |ranks| ==> RankInv(job, r, ranks[r])
    ensures TotalWork(|job.rows|, ranks) <= BlocksLength(|ranks|, Most(job))
  {
    hide RankInv, Work, Most, job.Valid, BlocksLength;
    if |ranks| > 0 {
      var n := |ranks| - 1;
      TotalBounded(job, ranks[..n]);
      WorkBounded(job, n, ranks[n]);
      BlocksLengthStep(n, Most(job));
    }
  }

  lemma {:induction false} RunWorks(job: Job, states: seq<State>, steps: seq<Step>, n: nat)
    requires IsRun(job, states, steps) && n < |states|
    ensures n <= TotalWork(|job.rows|, states[n].ranks)
  {
    hide Inv, Ready, Can, After, TotalWork, IsStart, job.Valid;
    if n > 0 {
      RunWorks(job, states, steps, n - 1);
      RunInv(job, states, steps, n - 1);
      StepWorks(job, states[n - 1], steps[n - 1]);
    }
  }

  /** No run is longer than this. */
  lemma EveryRunEnds(job: Job, states: seq<State>, steps: seq<Step>)
    requires IsRun(job, states, steps)
    ensures |steps| <= BlocksLength(|job.rows|, Most(job))
  {
    var n := |steps|;
    RunWorks(job, states, steps, n);
    RunInv(job, states, steps, n);
    TotalBounded(job, states[n].ranks);
    hide BlocksLength, TotalWork, Most, RankInv;
  }
}
