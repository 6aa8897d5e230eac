/** Level 3 encoding of a whole group, in any interleaving. */
module RingRuns {
  import opened Arithmetic
  import opened Words
  import opened RingEncoding
  import opened RingRanks
  import opened RingInvariant
  import opened RingSteps

  // ----- Counting messages -----

  ghost predicate SameSent(k: nat, r: nat, x: Rank, y: Rank)
    requires r < k
  {
    forall t :: 0 <= t < k && t != r ==> SentTo(k, r, y, t) == SentTo(k, r, x, t)
  }

  ghost predicate SameReceived(k: nat, r: nat, x: Rank, y: Rank)
    requires r < k
  {
    forall t :: 0 <= t < k && t != r ==> ReceivedFrom(k, r, y, t) == ReceivedFrom(k, r, x, t)
  }

  /** Only posting an exchange sends, and no step of a rank receives. */
  lemma CountsStay(job: Job, r: nat, x: Rank)
    requires RankInv(job, r, x) && RankReady(job, r, x) && (x.phase == Await ==> x.recv.NoRecv?)
    ensures SameReceived(|job.rows|, r, x, RankNext(job, r, x))
    ensures !(x.phase == Post && x.cnt != |job.rows| - 1) ==> SameSent(|job.rows|, r, x, RankNext(job, r, x))
  {
    hide job.f.IsField, FileFits, BlockFits, HalfHolds, SourceOf, Destination, BlkFor, Contributed, Overwritten, More,
         Start, BlocksLength, CanFill;
  }

  /** The posted message is one more to its destination. */
  lemma PostCounts(job: Job, r: nat, x: Rank, t: nat)
    requires RankInv(job, r, x) && x.phase == Post && x.cnt != |job.rows| - 1 && t < |job.rows| && t != r
    ensures var k, next := |job.rows|, PostBoth(job, x);
      && next.dest < k && next.dest != r
      && SentTo(k, r, x, next.dest) == x.block
      && SentTo(k, r, next, t) == SentTo(k, r, x, t) + if t == next.dest then 1 else 0
  {
    var k, next := |job.rows|, PostBoth(job, x);
    assert r < k;
    hide RankInv, SourceOf, Destination, PostedSteps, PostBoth;
    PostShape(job, r, x);
    DestinationIs(k, r, x.cnt);
    StepOfIs(k, t, r, x.cnt);
    StepOfIs(k, next.dest, r, x.cnt);
  }

  lemma {:induction false} PostShape(job: Job, r: nat, x: Rank)
    requires RankInv(job, r, x) && x.phase == Post && x.cnt != |job.rows| - 1
    ensures var k, next := |job.rows|, PostBoth(job, x);
      && x.cnt + 1 < k && next.dest == Destination(k, r, x.cnt) && next.block == x.block
      && PostedSteps(k, x) == x.cnt && PostedSteps(k, next) == x.cnt + 1
  {
    NextSource(|job.rows|, r, x.cnt);
    hide job.Valid, FileFits, Expects, Start, SumFits, SourceOf, Destination, Blk;
  }

  /** A delivery is one more message from its source, the one of the block that the rank is encoding. */
  lemma ArrivedCounts(job: Job, r: nat, x: Rank, words: seq<Word>, t: nat)
    requires RankInv(job, r, x) && x.recv.Posted? && x.recv.src < |job.rows| && |words| <= job.bs && t < |job.rows|
             && t != r
    ensures var k, next := |job.rows|, Arrived(job, x, words);
      && x.recv.src != r
      && ReceivedFrom(k, r, x, x.recv.src) == x.block
      && ReceivedFrom(k, r, next, t) == ReceivedFrom(k, r, x, t) + if t == x.recv.src then 1 else 0
  {
    var k := |job.rows|;
    var c := if x.phase == Await then x.cnt - 1 else x.cnt;
    hide job.Valid, FileFits, BlockFits, HalfHolds, BlkFor, Overwritten, Destination, SourceOf, Blk;
    ExpectedHere(job, r, x);
    assert c + 1 < k && x.recv.src == SourceOf(k, r, c + 1) && PostedSteps(k, x) == c + 1;
    hide RankInv;
    SourceIs(k, r, c + 1);
    StepOfIs(k, r, t, c);
    StepOfIs(k, r, x.recv.src, c);
  }

  // ----- The group -----

  lemma InvReady(job: Job, s: State)
    requires Inv(job, s)
    ensures Ready(job, s)
  {
    forall r | 0 <= r < |s.ranks| ensures RankReady(job, r, s.ranks[r]) {
      if s.ranks[r].phase == Fill {
        FillReady(job, r, s.ranks[r]);
      }
      hide FileFits, BlockFits, StepFits, CanFill;
    }
    forall a, r, m | 0 <= a < |s.chan| && 0 <= r < |s.chan[a]| && 0 <= m < |s.chan[a][r]|
      ensures |s.chan[a][r][m]| <= job.bs
    {
      MessageIs(job, s, a, r, m);
    }
  }

  lemma MessageIs(job: Job, s: State, a: nat, r: nat, m: nat)
    requires Inv(job, s) && a < |job.rows| && r < |job.rows| && m < |s.chan[a][r]|
    ensures a != r
    ensures s.chan[a][r][m] == Blk(job, a, ReceivedFrom(|job.rows|, r, s.ranks[r], a) + m)
    ensures |s.chan[a][r][m]| <= job.bs
  {
    hide RankInv, SentTo, ReceivedFrom, Start;
    assert ChanFits(job, a, r, s.ranks[a], s.ranks[r], s.chan[a][r]);
    StartsAscend(job, ReceivedFrom(|job.rows|, r, s.ranks[r], a) + m);
  }

  lemma RankKeeps(job: Job, r: nat, x: Rank)
    requires RankInv(job, r, x) && RankReady(job, r, x) && (x.phase == Await ==> x.recv.NoRecv?)
    ensures RankInv(job, r, RankNext(job, r, x))
  {
    hide RankInv, Sized, CanFill;
    if x.phase == Fill {
      FillKeeps(job, r, x);
    } else if x.phase == Await {
      AwaitKeeps(job, r, x);
    } else if x.phase == Post {
      PostKeeps(job, r, x);
    } else if x.phase == Multiply {
      MultiplyKeeps(job, r, x);
    } else if x.phase == Write {
      WriteKeeps(job, r, x);
    }
  }

  /** A change of one rank that sends and receives nothing leaves all messages as they were. */
  lemma QuietKeeps(job: Job, s: State, r: nat, next: Rank)
    requires Inv(job, s) && r < |s.ranks| && RankInv(job, r, next)
    requires SameSent(|job.rows|, r, s.ranks[r], next) && SameReceived(|job.rows|, r, s.ranks[r], next)
    ensures Inv(job, s.(ranks := s.ranks[r := next]))
  {
    var s' := s.(ranks := s.ranks[r := next]);
    hide RankInv, SentTo, ReceivedFrom, job.Valid;
    forall a, b | 0 <= a < |s'.ranks| && 0 <= b < |s'.ranks|
      ensures ChanFits(job, a, b, s'.ranks[a], s'.ranks[b], s'.chan[a][b])
    {
      assert ChanFits(job, a, b, s.ranks[a], s.ranks[b], s.chan[a][b]);
    }
  }

  lemma PostedKeeps(job: Job, s: State, r: nat, next: Rank)
    requires Inv(job, s) && r < |s.ranks| && s.ranks[r].phase == Post && s.ranks[r].cnt != |job.rows| - 1
    requires next == PostBoth(job, s.ranks[r]) && RankInv(job, r, next) && next.dest < |job.rows|
    requires SameReceived(|job.rows|, r, s.ranks[r], next)
    ensures Inv(job, s.(ranks := s.ranks[r := next],
                        chan := Put(s.chan, r, next.dest, s.chan[r][next.dest]
                                    + [s.ranks[r].myData[..s.ranks[r].remBsize]])))
  {
    var x := s.ranks[r];
    var words := x.myData[..x.remBsize];
    assert RankInv(job, r, x) && words == Blk(job, r, x.block);
    var s' := s.(ranks := s.ranks[r := next], chan := Put(s.chan, r, next.dest, s.chan[r][next.dest] + [words]));
    hide RankInv, SentTo, ReceivedFrom, job.Valid, PostBoth, Blk, ChanFits;
    forall a, b | 0 <= a < |s'.ranks| && 0 <= b < |s'.ranks|
      ensures ChanFits(job, a, b, s'.ranks[a], s'.ranks[b], s'.chan[a][b])
    {
      PostedPair(job, s, r, next, words, a, b);
    }
  }

  lemma PostedPair(job: Job, s: State, r: nat, next: Rank, words: seq<Word>, a: nat, b: nat)
    requires Inv(job, s) && r < |s.ranks| && s.ranks[r].phase == Post && s.ranks[r].cnt != |job.rows| - 1
    requires next == PostBoth(job, s.ranks[r]) && next.dest < |job.rows|
    requires SameReceived(|job.rows|, r, s.ranks[r], next)
    requires a < |s.ranks| && b < |s.ranks| && words == Blk(job, r, s.ranks[r].block)
    ensures var ranks := s.ranks[r := next];
      ChanFits(job, a, b, ranks[a], ranks[b], if a == r && b == next.dest then s.chan[a][b] + [words] else s.chan[a][b])
  {
    var x := s.ranks[r];
    assert RankInv(job, r, x) && ChanFits(job, a, b, s.ranks[a], s.ranks[b], s.chan[a][b]);
    hide RankInv, SentTo, ReceivedFrom, job.Valid, PostBoth, Blk;
    if a == r && b != r {
      PostCounts(job, r, x, b);
      OneMoreSent(job, r, b, x, s.ranks[b], s.chan[r][b], next);
    } else if a == r {
      PostCounts(job, r, x, if r == 0 then 1 else 0);
    }
  }

  lemma OneMoreSent(job: Job, r: nat, b: nat, x: Rank, y: Rank, chan: seq<seq<Word>>, next: Rank)
    requires job.Valid() && r < |job.rows| && b < |job.rows| && b != r && ChanFits(job, r, b, x, y, chan)
    requires SentTo(|job.rows|, r, next, b) == SentTo(|job.rows|, r, x, b) + if b == next.dest then 1 else 0
    requires b == next.dest ==> SentTo(|job.rows|, r, x, b) == x.block
    ensures ChanFits(job, r, b, next, y, if b == next.dest then chan + [Blk(job, r, x.block)] else chan)
  {
    hide SentTo, ReceivedFrom, job.Valid, Blk;
  }

  lemma RankStepKeeps(job: Job, s: State, r: nat)
    requires Inv(job, s) && Ready(job, s) && Can(job, s, RankStep(r))
    ensures Inv(job, After(job, s, RankStep(r)))
  {
    var x := s.ranks[r];
    assert RankInv(job, r, x) && RankReady(job, r, x);
    RankKeeps(job, r, x);
    CountsStay(job, r, x);
    var next := RankNext(job, r, x);
    hide Inv, RankInv, RankReady, SameSent, SameReceived, job.Valid;
    if x.phase == Post && x.cnt != |job.rows| - 1 {
      PostCounts(job, r, x, if r == 0 then 1 else 0);
      PostedKeeps(job, s, r, next);
    } else {
      QuietKeeps(job, s, r, next);
    }
  }

  /** The message that a posted receive gets is the block of its source that the rank is encoding. */
  lemma MatchedToBlock(job: Job, s: State, a: nat, r: nat)
    requires Inv(job, s) && Can(job, s, Deliver(a, r))
    ensures a < |job.rows| && a != r && s.chan[a][r][0] == Blk(job, a, s.ranks[r].block)
  {
    MessageIs(job, s, a, r, 0);
    ArrivedCounts(job, r, s.ranks[r], [], a);
  }

  lemma DeliverKeeps(job: Job, s: State, a: nat, r: nat)
    requires Inv(job, s) && Ready(job, s) && Can(job, s, Deliver(a, r))
    ensures Inv(job, After(job, s, Deliver(a, r)))
  {
    var x := s.ranks[r];
    var words := s.chan[a][r][0];
    hide RankInv, SentTo, ReceivedFrom, job.Valid, Arrived, Blk, ChanFits, Ready;
    MatchedToBlock(job, s, a, r);
    ArrivedKeeps(job, r, x);
    DeliveredKeeps(job, s, a, r, Arrived(job, x, words));
  }

  lemma DeliveredKeeps(job: Job, s: State, a: nat, r: nat, next: Rank)
    requires Inv(job, s) && Can(job, s, Deliver(a, r)) && RankInv(job, r, next) && a < |s.ranks| && r < |s.ranks|
             && s.chan[a][r] != []
    requires s.ranks[r].recv.Posted? && |s.chan[a][r][0]| <= job.bs && Sized(job, s.ranks[r])
             && next == Arrived(job, s.ranks[r], s.chan[a][r][0])
    ensures Inv(job, State(s.ranks[r := next], Put(s.chan, a, r, s.chan[a][r][1..])))
  {
    hide RankInv, SentTo, ReceivedFrom, job.Valid, Arrived, Blk, ChanFits, Ready, Sized, Can;
    var s' := State(s.ranks[r := next], Put(s.chan, a, r, s.chan[a][r][1..]));
    forall p, q | 0 <= p < |s'.ranks| && 0 <= q < |s'.ranks|
      ensures ChanFits(job, p, q, s'.ranks[p], s'.ranks[q], s'.chan[p][q])
    {
      DeliveredPair(job, s, a, r, next, p, q);
    }
  }

  lemma DeliveredPair(job: Job, s: State, a: nat, r: nat, next: Rank, p: nat, q: nat)
    requires Inv(job, s) && Can(job, s, Deliver(a, r)) && p < |s.ranks| && q < |s.ranks|
    requires |s.chan[a][r][0]| <= job.bs && next == Arrived(job, s.ranks[r], s.chan[a][r][0])
    ensures var ranks := s.ranks[r := next];
      ChanFits(job, p, q, ranks[p], ranks[q], if p == a && q == r then s.chan[p][q][1..] else s.chan[p][q])
  {
    var x := s.ranks[r];
    assert RankInv(job, r, x) && ChanFits(job, p, q, s.ranks[p], s.ranks[q], s.chan[p][q]);
    ArrivedSendsNothing(job, r, x, s.chan[a][r][0]);
    if q == r && p != r {
      ArrivedCounts(job, r, x, s.chan[a][r][0], p);
    }
    hide RankInv, SentTo, ReceivedFrom, job.Valid, Arrived, Blk;
    if q == r && p != r {
      OneMoreReceived(job, p, r, s.ranks[p], x, s.chan[p][r], next, a);
    } else if q == r {
      MatchedToBlock(job, s, a, r);
    }
  }

  lemma ArrivedSendsNothing(job: Job, r: nat, x: Rank, words: seq<Word>)
    requires r < |job.rows| && Sized(job, x) && x.recv.Posted? && |words| <= job.bs
    ensures SameSent(|job.rows|, r, x, Arrived(job, x, words))
  {
    hide Overwritten;
  }

  lemma OneMoreReceived(job: Job, p: nat, r: nat, y: Rank, x: Rank, chan: seq<seq<Word>>, next: Rank, a: nat)
    requires job.Valid() && r < |job.rows| && p < |job.rows| && p != r && ChanFits(job, p, r, y, x, chan)
    requires ReceivedFrom(|job.rows|, r, next, p) == ReceivedFrom(|job.rows|, r, x, p) + if p == a then 1 else 0
    requires p == a ==> chan != []
    ensures ChanFits(job, p, r, y, next, if p == a then chan[1..] else chan)
  {
    hide SentTo, ReceivedFrom, job.Valid, Blk;
  }

  /** Whatever step is taken next, by a rank or a delivery. */
  lemma StepKeepsInv(job: Job, s: State, step: Step)
    requires Inv(job, s) && Ready(job, s) && Can(job, s, step)
    ensures Inv(job, After(job, s, step))
  {
    hide Inv, Ready, Can, After;
    if step.RankStep? {
      RankStepKeeps(job, s, step.r);
    } else {
      DeliverKeeps(job, s, step.s, step.r);
    }
  }

  lemma StartInv(job: Job, s: State)
    requires job.Valid() && IsStart(job, s)
    ensures Inv(job, s)
  {
    assert BlocksLength(0, job.bs) == 0 && Start(job, 0) == 0;
    forall r | 0 <= r < |s.ranks| ensures RankInv(job, r, s.ranks[r]) {
      assert StartsAt(job, s.ranks[r]);
      hide More, Encoded, BlocksLength;
    }
    forall a, r | 0 <= a < |s.ranks| && 0 <= r < |s.ranks|
      ensures ChanFits(job, a, r, s.ranks[a], s.ranks[r], s.chan[a][r])
    {
      assert StartsAt(job, s.ranks[a]) && StartsAt(job, s.ranks[r]);
      hide More, RankInv, Blk;
    }
  }

  lemma {:induction false} RunInv(job: Job, states: seq<State>, steps: seq<Step>, n: nat)
    requires IsRun(job, states, steps) && n < |states|
    ensures Inv(job, states[n]) && Ready(job, states[n])
  {
    hide Inv, Ready, Can, After, IsStart, job.Valid;
    if n == 0 {
      StartInv(job, states[0]);
    } else {
      RunInv(job, states, steps, n - 1);
      StepKeepsInv(job, states[n - 1], steps[n - 1]);
    }
    InvReady(job, states[n]);
  }

  // ----- Results -----

  /** When all ranks are done, every one has written its encoded file: the whole row product, word by word. */
  lemma EveryRankEncodes(job: Job, states: seq<State>, steps: seq<Step>, n: nat, r: nat)
    requires IsRun(job, states, steps) && n < |states| && r < |job.rows|
    ensures r < |states[n].ranks|
    ensures states[n].ranks[r].phase == Done ==>
            states[n].ranks[r].encoded == Encoded(job.f, job.rows[r], job.files, job.maxFs)
  {
    RunInv(job, states, steps, n);
    var x := states[n].ranks[r];
    assert RankInv(job, r, x);
    if x.phase == Done {
      NoMoreMeans(job, x.block);
      hide Encoded, More;
    }
  }

  /** No message is left over. */
  lemma NothingLeft(job: Job, states: seq<State>, steps: seq<Step>, n: nat, a: nat, r: nat)
    requires IsRun(job, states, steps) && n < |states| && a < |job.rows| && r < |job.rows|
    requires forall q :: 0 <= q < |states[n].ranks| ==> states[n].ranks[q].phase == Done
    ensures |states[n].chan| == |job.rows| == |states[n].chan[a]| && states[n].chan[a][r] == []
  {
    RunInv(job, states, steps, n);
    var s := states[n];
    assert ChanFits(job, a, r, s.ranks[a], s.ranks[r], s.chan[a][r]);
    SameBlock(job, s, a, r);
  }

  lemma SameBlock(job: Job, s: State, a: nat, r: nat)
    requires Inv(job, s) && a < |s.ranks| && r < |s.ranks| && s.ranks[a].phase == Done && s.ranks[r].phase == Done
    ensures a != r ==> SentTo(|job.rows|, a, s.ranks[a], r) == s.ranks[a].block
    ensures a != r ==> ReceivedFrom(|job.rows|, r, s.ranks[r], a) == s.ranks[r].block
    ensures s.ranks[a].block == s.ranks[r].block
  {
    assert RankInv(job, a, s.ranks[a]) && RankInv(job, r, s.ranks[r]);
    assert ChanFits(job, a, r, s.ranks[a], s.ranks[r], s.chan[a][r])
           && ChanFits(job, r, a, s.ranks[r], s.ranks[a], s.chan[r][a]);
    hide RankInv, Messages;
  }
}
