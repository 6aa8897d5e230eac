/** Every step of a head, and so of the whole system, keeps the invariant. */
module HeadSteps {
  import opened HeadProtocol
  import opened HeadInvariant
  import opened HeadRounds

  lemma {:induction false} ListenKeeps(plan: Plan, h: nat, start: int, node: Node)
    requires NodeInv(plan, h, start, node) && node.head == Listening && (Requested(node) || EndSeen(node))
    ensures NodeInv(plan, h, start, Listen(node))
  {
    hide AppInv, Offs, AllOffs, VotesOf, LogFits, Heard, Requests, InfoCalls;
    var r := |node.log|;
    var n := |AllOffs(plan)|;
    assert forall i :: CountsOf(plan, h, r, Listening, i) == Counts(r, Heard(plan, h, r), r, false);
    if Requested(node) {
      var i :| 0 <= i < |node.apps| && node.apps[i].up != [];
      PopRequest(plan, h, i, start, node.apps[i], CountsOf(plan, h, r, Listening, i));
      SameCounts(plan, h, start, r, Listening, Receiving([]), node.apps);
    } else {
      var i :| 0 <= i < |node.apps| && node.apps[i].final != [];
      PopFinal(plan, h, i, start, node.apps[i], CountsOf(plan, h, r, Listening, i));
      SameCounts(plan, h, start, r, Listening, Ending([]), node.apps);
    }
    hide AppsFit, CountsOf;
  }

  lemma {:induction false} SameCounts(plan: Plan, h: nat, start: int, r: nat, head: Head, next: Head, apps: seq<App>)
    requires HeadFits(plan, h, r, head) && HeadFits(plan, h, r, next) && AppsFit(plan, h, start, r, head, apps)
    requires forall i :: 0 <= i < |apps| ==> CountsOf(plan, h, r, next, i) == CountsOf(plan, h, r, head, i)
    ensures AppsFit(plan, h, start, r, next, apps)
  {
    hide AppInv, CountsOf, HeadFits;
  }

  /** A head that handles one message of process `i` and stays in its phase. */
  lemma {:induction false} OneMessage(plan: Plan, h: nat, start: int, node: Node, next: Head, i: nat, a: App)
    requires NodeInv(plan, h, start, node) && HeadFits(plan, h, |node.log|, next) && i < |node.apps|
    requires SamePhase(node.head, next)
    requires AppInv(plan, h, i, start, a, CountsOf(plan, h, |node.log|, next, i))
    requires forall k :: 0 <= k < |node.apps| && k != i ==>
             CountsOf(plan, h, |node.log|, next, k) == CountsOf(plan, h, |node.log|, node.head, k)
    ensures NodeInv(plan, h, start, node.(head := next, apps := node.apps[i := a]))
  {
    SameVotes(plan, h, |node.log|, node.head, next, node.votes);
    OneApp(plan, h, start, |node.log|, node.head, next, node.apps, i, a);
    hide AppInv, CountsOf, HeadFits, VotesFit, LogFits, AppsFit;
  }

  predicate SamePhase(head: Head, next: Head) {
    || (head.Receiving? && next.Receiving?)
    || (head.Informed? && next.Informed?)
    || (head.Sending? && next.Sending?)
    || (head.Ending? && next.Ending?)
  }

  lemma {:induction false} ReceiveOne(plan: Plan, h: nat, start: int, node: Node)
    requires NodeInv(plan, h, start, node) && node.head.Receiving? && |node.head.reqs| < |node.apps|
    requires node.apps[|node.head.reqs|].up != []
    ensures NodeInv(plan, h, start, Receive(plan, node))
  {
    var r, reqs := |node.log|, node.head.reqs;
    var i := |reqs|;
    var a := node.apps[i];
    var next := Receiving(reqs + [a.up[0]]);
    assert AppInv(plan, h, i, start, a, CountsOf(plan, h, r, node.head, i));
    PopRequest(plan, h, i, start, a, CountsOf(plan, h, r, node.head, i));
    OneMoreRequest(plan, h, r, reqs, a.up[0]);
    ReceiveCounts(plan, h, r, node.head, next);
    hide NodeInv, AppInv, CountsOf, ReqsFit, Requests, AllOffs;
    OneMessage(plan, h, start, node, next, i, a.(up := a.up[1..]));
  }

  lemma {:induction false} ReceiveCounts(plan: Plan, h: nat, r: nat, head: Head, next: Head)
    requires HeadFits(plan, h, r, head) && HeadFits(plan, h, r, next)
    requires head.Receiving? && next.Receiving? && |next.reqs| == |head.reqs| + 1
    ensures forall k :: k != |head.reqs| ==> CountsOf(plan, h, r, next, k) == CountsOf(plan, h, r, head, k)
    ensures var k := |head.reqs|; var n := CountsOf(plan, h, r, head, k);
      n.reqs == r && CountsOf(plan, h, r, next, k) == n.(reqs := n.reqs + 1)
  {
    hide HeadFits, Heard;
  }

  lemma {:induction false} SameVotes(plan: Plan, h: nat, r: nat, head: Head, next: Head, votes: seq<bool>)
    requires HeadFits(plan, h, r, head) && HeadFits(plan, h, r, next) && VotesFit(plan, h, r, head, votes)
    requires SamePhase(head, next)
    ensures VotesFit(plan, h, r, next, votes)
  {
  }

  lemma {:induction false} OneMoreRequest(plan: Plan, h: nat, r: nat, reqs: seq<Req>, x: Req)
    requires r < |AllOffs(plan)| && ReqsFit(plan, h, r, reqs) && |reqs| < plan.apps
    requires x == Requests(plan, h, |reqs|)[r]
    ensures ReqsFit(plan, h, r, reqs + [x])
  {
    hide Requests, AllOffs;
  }

  /** Requests of one round carry one level, or a reject. */
  lemma {:induction false} LevelFits(plan: Plan, h: nat, r: nat, reqs: seq<Req>, before: int)
    requires plan.Valid() && r < |AllOffs(plan)| && ReqsFit(plan, h, r, reqs) && |reqs| == plan.apps
    ensures LevelOf(Values(reqs), before) == Level(plan, h, r)
    ensures Level(plan, h, r) == 6 <==> !NodeWrote(plan, h, AllOffs(plan)[r])
    ensures Level(plan, h, r) != 5
  {
    OffsInRange(plan, |plan.levels|, r);
    var c := AllOffs(plan)[r];
    forall i | 0 <= i < plan.apps
      ensures Values(reqs)[i] == if Wrote(plan, h, i, c) then FTI_BASE + plan.levels[c] else FTI_REJW
    {
      assert reqs[i] == Requests(plan, h, i)[r];
      assert Requests(plan, h, i)[r] == Request(plan, h, i, c);
    }
    hide AllOffs, Offs, Requests, ReqsFit;
    if !NodeWrote(plan, h, c) {
      var i :| 0 <= i < plan.apps && !Wrote(plan, h, i, c);
      assert Values(reqs)[i] == FTI_REJW;
    } else {
      assert Values(reqs)[0] == FTI_BASE + plan.levels[c];
    }
  }

  lemma {:induction false} ReceiveLast(plan: Plan, h: nat, start: int, node: Node)
    requires plan.Valid() && NodeInv(plan, h, start, node) && node.head.Receiving? && |node.head.reqs| >= |node.apps|
    ensures NodeInv(plan, h, start, Receive(plan, node))
  {
    var r, reqs := |node.log|, node.head.reqs;
    LevelFits(plan, h, r, reqs, node.ckptLvel);
    var level := Level(plan, h, r);
    var next := Receive(plan, node);
    if plan.ftiff && level != 6 {
      assert next.head == Informed(Round(reqs, level, []));
    } else {
      assert next.head == Voting(Round(reqs, level, []));
      assert Heard(plan, h, r + 1) == Heard(plan, h, r);
    }
    hide AppInv, VotesOf, LogFits, ReqsFit, Heard, NodeWrote, AllOffs, LevelOf, Level;
    SameCounts(plan, h, start, r, node.head, next.head, node.apps);
    hide AppsFit, CountsOf;
  }

  lemma {:induction false} HearOne(plan: Plan, h: nat, start: int, node: Node)
    requires NodeInv(plan, h, start, node) && node.head.Informed? && |node.head.round.infos| < |node.apps|
    requires node.apps[|node.head.round.infos|].infos != []
    ensures NodeInv(plan, h, start, Hear(node))
  {
    var r, round := |node.log|, node.head.round;
    var i := |round.infos|;
    var a := node.apps[i];
    var next := Informed(round.(infos := round.infos + [a.infos[0]]));
    assert AppInv(plan, h, i, start, a, CountsOf(plan, h, r, node.head, i));
    assert CountsOf(plan, h, r, node.head, i).infos == Heard(plan, h, r);
    PopInfo(plan, h, i, start, a, CountsOf(plan, h, r, node.head, i));
    OneMoreInfo(plan, h, r, round.infos, a.infos[0]);
    HearCounts(plan, h, r, node.head, next);
    hide NodeInv, AppInv, CountsOf, ReqsFit, HeardFit, AllOffs, Heard, InfoCalls, NodeWrote, Level;
    OneMessage(plan, h, start, node, next, i, a.(infos := a.infos[1..]));
  }

  lemma {:induction false} OneMoreInfo(plan: Plan, h: nat, r: nat, infos: seq<nat>, x: nat)
    requires r < |AllOffs(plan)| && HeardFit(plan, h, r, infos) && |infos| < plan.apps
             && OldestUnread(plan, h, |infos|, r, x)
    ensures HeardFit(plan, h, r, infos + [x])
  {
    hide OldestUnread, AllOffs;
  }

  lemma {:induction false} HearCounts(plan: Plan, h: nat, r: nat, head: Head, next: Head)
    requires HeadFits(plan, h, r, head) && HeadFits(plan, h, r, next)
    requires head.Informed? && next.Informed? && |next.round.infos| == |head.round.infos| + 1
    ensures forall k :: k != |head.round.infos| ==> CountsOf(plan, h, r, next, k) == CountsOf(plan, h, r, head, k)
    ensures var k := |head.round.infos|; var n := CountsOf(plan, h, r, head, k);
      CountsOf(plan, h, r, next, k) == n.(infos := n.infos + 1)
  {
    hide HeadFits, Heard;
  }

  lemma {:induction false} HearLast(plan: Plan, h: nat, start: int, node: Node)
    requires NodeInv(plan, h, start, node) && node.head.Informed? && |node.head.round.infos| >= |node.apps|
    ensures NodeInv(plan, h, start, Hear(node))
  {
    var r, round := |node.log|, node.head.round;
    assert |round.infos| == plan.apps;
    assert Heard(plan, h, r + 1) == Heard(plan, h, r) + 1;
    hide AppInv, VotesOf, LogFits, ReqsFit, HeardFit, Heard, NodeWrote, AllOffs, Level;
    SameCounts(plan, h, start, r, node.head, Voting(round), node.apps);
    hide AppsFit, CountsOf;
  }

  // ----- Agreement among the heads -----

  lemma {:induction false} VotesAre(plan: Plan, h: nat, start: int, node: Node)
    requires NodeInv(plan, h, start, node)
    ensures node.votes <= VotesOf(plan, h, |AllOffs(plan)|)
  {
    var r := |node.log|;
    VotesGrow(plan, h, r, |AllOffs(plan)|);
    hide VotesOf, AppsFit, LogFits;
    if node.head.Voting? {
      VoteAt(plan, h, r);
      VotesLenIs(plan, h, r);
    } else if node.head.Posting? || node.head.Sending? {
      VotesGrow(plan, h, r + 1, |AllOffs(plan)|);
    }
  }

  lemma {:induction false} VoteIs(plan: Plan, h: nat, start: int, node: Node, k: nat)
    requires NodeInv(plan, h, start, node) && k < |node.votes|
    ensures k < |VotesOf(plan, h, |AllOffs(plan)|)| && node.votes[k] == VotesOf(plan, h, |AllOffs(plan)|)[k]
  {
    VotesAre(plan, h, start, node);
  }

  lemma {:induction false} AllForWrote(plan: Plan, start: int, s: State, r: nat)
    requires Inv(plan, start, s) && r < |AllOffs(plan)| && Voted(s, VotesLen(plan, r) + 1)
    ensures AllFor(s, VotesLen(plan, r)) <==> AllWrote(plan, AllOffs(plan)[r])
  {
    var k := VotesLen(plan, r);
    forall h | 0 <= h < |s| ensures s[h].votes[k] == NodeWrote(plan, h, AllOffs(plan)[r]) {
      VoteIs(plan, h, start, s[h], k);
      VoteAt(plan, h, r);
    }
    hide NodeInv, NodeWrote, AllOffs, VotesLen;
  }

  lemma {:induction false} AllForPosted(plan: Plan, start: int, s: State, r: nat)
    requires Inv(plan, start, s) && r < |AllOffs(plan)| && AllWrote(plan, AllOffs(plan)[r])
    requires Voted(s, VotesLen(plan, r) + 2)
    ensures AllFor(s, VotesLen(plan, r) + 1) <==> AllPosted(plan, r)
  {
    var k := VotesLen(plan, r) + 1;
    forall h | 0 <= h < |s| ensures s[h].votes[k] == plan.headPost(h, r) {
      VoteIs(plan, h, start, s[h], k);
      VoteAt(plan, h, r);
    }
    hide NodeInv, NodeWrote, AllOffs, VotesLen, AllWrote;
  }

  lemma {:induction false} DecideKeeps(plan: Plan, start: int, s: State, h: nat)
    requires Inv(plan, start, s) && h < |s| && s[h].head.Voting? && HeadCan(s, h)
    ensures NodeInv(plan, h, start, Decide(plan, s, h))
  {
    var node := s[h];
    var r := |node.log|;
    var c := AllOffs(plan)[r];
    VotesLenIs(plan, h, r);
    assert |node.votes| == VotesLen(plan, r) + 1;
    AllForWrote(plan, start, s, r);
    OneMoreRound(plan, h, r);
    var next := Decide(plan, s, h);
    assert !AllWrote(plan, c) ==> Result(plan, r) == FTI_NSCS;
    assert AllWrote(plan, c) ==> NodeWrote(plan, h, c);
    hide AppInv, VotesOf, VotesLen, LogFits, RoundFits, Heard, NodeWrote, AllOffs, AllWrote, Result, RoundVotes, AllFor,
         Voted;
    SameCounts(plan, h, start, r, node.head, next.head, node.apps);
    hide AppsFit, CountsOf;
  }

  lemma {:induction false} OneMoreRound(plan: Plan, h: nat, r: nat)
    requires r < |AllOffs(plan)|
    ensures var c, votes := AllOffs(plan)[r], VotesOf(plan, h, r) + [NodeWrote(plan, h, AllOffs(plan)[r])];
      && (AllWrote(plan, c) && NodeWrote(plan, h, c) ==> votes + [plan.headPost(h, r)] == VotesOf(plan, h, r + 1))
      && (!AllWrote(plan, c) ==> votes == VotesOf(plan, h, r + 1))
  {
  }

  lemma {:induction false} ConcludeKeeps(plan: Plan, start: int, s: State, h: nat)
    requires Inv(plan, start, s) && h < |s| && s[h].head.Posting? && HeadCan(s, h)
    ensures NodeInv(plan, h, start, Conclude(s, h))
  {
    var node := s[h];
    var r := |node.log|;
    var c := AllOffs(plan)[r];
    VotesLenIs(plan, h, r + 1);
    assert |node.votes| == VotesLen(plan, r) + 2;
    AllForPosted(plan, start, s, r);
    var next := Conclude(s, h);
    assert next.head.res == Result(plan, r) by {
      hide AllOffs, AllFor, Voted, AllPosted;
      assert NodeWrote(plan, h, c);
    }
    hide AppInv, VotesOf, VotesLen, LogFits, RoundFits, Heard, NodeWrote, AllOffs, AllWrote, Result, RoundVotes, AllFor,
         Voted;
    SameCounts(plan, h, start, r, node.head, next.head, node.apps);
    hide AppsFit, CountsOf;
  }

  lemma {:induction false} NodeParts(plan: Plan, h: nat, start: int, node: Node)
    requires NodeInv(plan, h, start, node)
    ensures HeadFits(plan, h, |node.log|, node.head) && |node.apps| == plan.apps
    ensures forall i :: 0 <= i < |node.apps| ==>
            AppInv(plan, h, i, start, node.apps[i], CountsOf(plan, h, |node.log|, node.head, i))
  {
  }

  lemma {:induction false} OneMoreSent(plan: Plan, h: nat, r: nat, head: Head)
    requires HeadFits(plan, h, r, head) && head.Sending? && head.to < plan.apps
    ensures r < |AllOffs(plan)| && head.res == Result(plan, r) && HeadFits(plan, h, r, head.(to := head.to + 1))
  {
  }

  lemma {:induction false} SendOne(plan: Plan, h: nat, start: int, node: Node)
    requires NodeInv(plan, h, start, node) && node.head.Sending? && node.head.to < |node.apps|
    ensures NodeInv(plan, h, start, Send(node))
  {
    hide NodeInv, HeadFits, AppInv, CountsOf, Result, AllOffs;
    var r, i := |node.log|, node.head.to;
    var a := node.apps[i];
    var next := node.head.(to := i + 1);
    NodeParts(plan, h, start, node);
    OneMoreSent(plan, h, r, node.head);
    SendCounts(plan, h, r, node.head, next);
    PushResult(plan, h, i, start, a, CountsOf(plan, h, r, node.head, i));
    OneMessage(plan, h, start, node, next, i, a.(down := a.down + [node.head.res]));
  }

  lemma {:induction false} SendCounts(plan: Plan, h: nat, r: nat, head: Head, next: Head)
    requires HeadFits(plan, h, r, head) && HeadFits(plan, h, r, next)
    requires head.Sending? && next.Sending? && next.to == head.to + 1
    ensures forall k :: k != head.to ==> CountsOf(plan, h, r, next, k) == CountsOf(plan, h, r, head, k)
    ensures var n := CountsOf(plan, h, r, head, head.to);
      n.results == r && n.reqs == r + 1 && CountsOf(plan, h, r, next, head.to) == n.(results := n.results + 1)
  {
    hide HeadFits, Heard;
  }

  lemma {:induction false} SendLast(plan: Plan, h: nat, start: int, node: Node)
    requires NodeInv(plan, h, start, node) && node.head.Sending? && node.head.to >= |node.apps|
    ensures NodeInv(plan, h, start, Send(node))
  {
    var r := |node.log|;
    var next := Send(node);
    hide AppInv, VotesOf, Heard, AllOffs, Result, RoundFits;
    NextCounts(plan, h, start, r, node.head, node.apps);
    assert LogFits(plan, h, next.log);
    hide AppsFit, CountsOf, LogFits;
  }

  lemma {:induction false} NextCounts(plan: Plan, h: nat, start: int, r: nat, head: Head, apps: seq<App>)
    requires HeadFits(plan, h, r, head) && head.Sending? && head.to >= |apps| && AppsFit(plan, h, start, r, head, apps)
    ensures HeadFits(plan, h, r + 1, Listening) && AppsFit(plan, h, start, r + 1, Listening, apps)
  {
    hide AppInv, Heard, AllOffs, Result, RoundFits;
    assert forall i :: 0 <= i < |apps| ==> CountsOf(plan, h, r + 1, Listening, i) == CountsOf(plan, h, r, head, i);
    hide CountsOf, HeadFits;
  }

  lemma {:induction false} EndOne(plan: Plan, h: nat, start: int, node: Node)
    requires NodeInv(plan, h, start, node) && node.head.Ending? && |node.head.tokens| < |node.apps|
    requires node.apps[|node.head.tokens|].final != []
    ensures NodeInv(plan, h, start, End(node))
  {
    var r, i := |node.log|, |node.head.tokens|;
    var a := node.apps[i];
    var next := Ending(node.head.tokens + [a.final[0]]);
    assert AppInv(plan, h, i, start, a, CountsOf(plan, h, r, node.head, i));
    PopFinal(plan, h, i, start, a, CountsOf(plan, h, r, node.head, i));
    EndCounts(plan, h, r, node.head, next);
    hide NodeInv, AppInv, CountsOf, AllOffs;
    OneMessage(plan, h, start, node, next, i, a.(final := a.final[1..]));
  }

  lemma {:induction false} EndCounts(plan: Plan, h: nat, r: nat, head: Head, next: Head)
    requires HeadFits(plan, h, r, head) && HeadFits(plan, h, r, next)
    requires head.Ending? && next.Ending? && |next.tokens| == |head.tokens| + 1
    ensures forall k :: k != |head.tokens| ==> CountsOf(plan, h, r, next, k) == CountsOf(plan, h, r, head, k)
    ensures var k := |head.tokens|; CountsOf(plan, h, r, next, k) == CountsOf(plan, h, r, head, k).(ended := true)
  {
    hide HeadFits, Heard;
  }

  lemma {:induction false} EndLast(plan: Plan, h: nat, start: int, node: Node)
    requires NodeInv(plan, h, start, node) && node.head.Ending? && |node.head.tokens| >= |node.apps|
    ensures NodeInv(plan, h, start, End(node))
  {
    hide AppInv, VotesOf, LogFits, Heard, AllOffs, Result;
    SameCounts(plan, h, start, |node.log|, node.head, Stopped(node.head.tokens), node.apps);
    hide AppsFit, CountsOf;
  }

  lemma {:induction false} HeadStepKeeps(plan: Plan, start: int, s: State, h: nat)
    requires plan.Valid() && Inv(plan, start, s) && h < |s| && HeadCan(s, h)
    ensures NodeInv(plan, h, start, HeadNext(plan, s, h))
  {
    var node := s[h];
    hide NodeInv, Listen, Receive, Hear, Decide, Conclude, Send, End, Requested, EndSeen, Voted;
    if node.head.Listening? {
      ListenKeeps(plan, h, start, node);
    } else if node.head.Receiving? {
      if |node.head.reqs| < |node.apps| {
        ReceiveOne(plan, h, start, node);
      } else {
        ReceiveLast(plan, h, start, node);
      }
    } else if node.head.Informed? {
      if |node.head.round.infos| < |node.apps| {
        HearOne(plan, h, start, node);
      } else {
        HearLast(plan, h, start, node);
      }
    } else if node.head.Voting? {
      DecideKeeps(plan, start, s, h);
    } else if node.head.Posting? {
      ConcludeKeeps(plan, start, s, h);
    } else if node.head.Sending? {
      if node.head.to < |node.apps| {
        SendOne(plan, h, start, node);
      } else {
        SendLast(plan, h, start, node);
      }
    } else if node.head.Ending? {
      if |node.head.tokens| < |node.apps| {
        EndOne(plan, h, start, node);
      } else {
        EndLast(plan, h, start, node);
      }
    }
  }

  lemma {:induction false} AppStepKeepsNode(plan: Plan, h: nat, start: int, node: Node, i: nat)
    requires NodeInv(plan, h, start, node) && i < |node.apps| && AppCan(plan, node.apps[i])
    requires node.apps[i].phase == Processing ==> node.apps[i].call < |plan.levels|
    ensures NodeInv(plan, h, start, node.(apps := node.apps[i := AppNext(plan, h, i, node.apps[i])]))
  {
    var r := |node.log|;
    AppStepKeeps(plan, h, i, start, node.apps[i], CountsOf(plan, h, r, node.head, i));
    hide AppInv, CountsOf, HeadFits, VotesFit, LogFits;
  }

  /** Whatever step is taken next, everything still fits. */
  lemma {:induction false} StepKeepsInv(plan: Plan, start: int, s: State, step: Step)
    requires plan.Valid() && Inv(plan, start, s) && Can(plan, s, step)
    ensures Inv(plan, start, After(plan, s, step))
  {
    if step.AppStep? {
      AppStepKeepsNode(plan, step.h, start, s[step.h], step.i);
    } else {
      HeadStepKeeps(plan, start, s, step.h);
    }
    hide NodeInv, AppNext, HeadNext;
  }

  lemma {:induction false} InitialInv(plan: Plan, start: int)
    requires plan.Valid()
    ensures Inv(plan, start, Initial(plan, start))
  {
    var s := Initial(plan, start);
    forall h | 0 <= h < |s| ensures NodeInv(plan, h, start, s[h]) {
      InitialNode(plan, h, start, s[h]);
    }
  }

  lemma {:induction false} InitialNode(plan: Plan, h: nat, start: int, node: Node)
    requires node.head == Listening && node.votes == [] && node.log == [] && |node.apps| == plan.apps
    requires forall i :: 0 <= i < |node.apps| ==> node.apps[i] == App(0, Ready, false, start, start, [], [], [], [], [])
    ensures NodeInv(plan, h, start, node)
  {
    assert VotesOf(plan, h, 0) == [];
    forall i | 0 <= i < |node.apps|
      ensures AppInv(plan, h, i, start, node.apps[i], CountsOf(plan, h, 0, Listening, i))
    {
      InitialApp(plan, h, i, start);
    }
    hide AppInv, AllOffs, VotesOf, CountsOf;
  }

  lemma {:induction false} InitialApp(plan: Plan, h: nat, i: nat, start: int)
    ensures AppInv(plan, h, i, start, App(0, Ready, false, start, start, [], [], [], [], []),
                   CountsOf(plan, h, 0, Listening, i))
  {
    assert Offs(plan, 0) == [] && Heard(plan, h, 0) == 0;
    assert CountsOf(plan, h, 0, Listening, i) == Counts(0, 0, 0, false);
    assert Latest(plan, 0, start) == start;
    hide CountsOf, Heard, Offs, Latest, Result, Request;
  }
}
