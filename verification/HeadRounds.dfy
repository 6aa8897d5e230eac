/** What each step of a head keeps. */
module HeadRounds {
  import opened HeadProtocol
  import opened HeadInvariant

  // ----- Votes -----

  /** The votes of a head in round `j`: its processes wrote; then, if all did everywhere, its post-processing. */
  ghost function RoundVotes(plan: Plan, h: nat, j: nat): (r: seq<bool>)
    requires j < |AllOffs(plan)|
    ensures |r| == if AllWrote(plan, AllOffs(plan)[j]) then 2 else 1
  {
    [NodeWrote(plan, h, AllOffs(plan)[j])] + if AllWrote(plan, AllOffs(plan)[j]) then [plan.headPost(h, j)] else []
  }

  ghost function VotesOf(plan: Plan, h: nat, r: nat): (v: seq<bool>)
    requires r <= |AllOffs(plan)|
  {
    if r == 0 then [] else VotesOf(plan, h, r - 1) + RoundVotes(plan, h, r - 1)
  }

  ghost function VotesLen(plan: Plan, r: nat): nat
    requires r <= |AllOffs(plan)|
  {
    if r == 0 then 0 else VotesLen(plan, r - 1) + if AllWrote(plan, AllOffs(plan)[r - 1]) then 2 else 1
  }

  lemma {:induction false} VotesLenIs(plan: Plan, h: nat, r: nat)
    requires r <= |AllOffs(plan)|
    ensures |VotesOf(plan, h, r)| == VotesLen(plan, r)
  {
    if r > 0 {
      VotesLenIs(plan, h, r - 1);
    }
  }

  lemma {:induction false} VotesGrow(plan: Plan, h: nat, r: nat, m: nat)
    requires r <= m <= |AllOffs(plan)|
    ensures VotesOf(plan, h, r) <= VotesOf(plan, h, m)
  {
    if r < m {
      VotesGrow(plan, h, r, m - 1);
    }
  }

  /** The same vote of every head is about the same round. */
  lemma {:induction false} VoteAt(plan: Plan, h: nat, r: nat)
    requires r < |AllOffs(plan)|
    ensures var n, all := VotesLen(plan, r), VotesOf(plan, h, |AllOffs(plan)|);
      && n < |all| && all[n] == NodeWrote(plan, h, AllOffs(plan)[r])
      && (AllWrote(plan, AllOffs(plan)[r]) ==> n + 1 < |all| && all[n + 1] == plan.headPost(h, r))
  {
    VotesLenIs(plan, h, r);
    assert VotesOf(plan, h, r + 1) == VotesOf(plan, h, r) + RoundVotes(plan, h, r);
    VotesGrow(plan, h, r + 1, |AllOffs(plan)|);
  }

  // ----- Rounds -----

  ghost predicate ReqsFit(plan: Plan, h: nat, r: nat, reqs: seq<Req>)
    requires r < |AllOffs(plan)|
  {
    |reqs| <= plan.apps && forall i :: 0 <= i < |reqs| ==> reqs[i] == Requests(plan, h, i)[r]
  }

  /** The file sizes and names read in a round are the oldest that were sent and not read. */
  ghost predicate HeardFit(plan: Plan, h: nat, r: nat, infos: seq<nat>)
    requires r < |AllOffs(plan)|
  {
    && |infos| <= plan.apps
    && forall i :: 0 <= i < |infos| ==> OldestUnread(plan, h, i, r, infos[i])
  }

  ghost predicate OldestUnread(plan: Plan, h: nat, i: nat, r: nat, c: nat)
    requires r < |AllOffs(plan)|
  {
    var all := InfoCalls(plan, h, i, |AllOffs(plan)|);
    Heard(plan, h, r) < |all| && c == all[Heard(plan, h, r)]
  }

  ghost function Level(plan: Plan, h: nat, r: nat): int
    requires r < |AllOffs(plan)|
  {
    OffsInRange(plan, |plan.levels|, r);
    if NodeWrote(plan, h, AllOffs(plan)[r]) then plan.levels[AllOffs(plan)[r]] else 6
  }

  ghost predicate RoundFits(plan: Plan, h: nat, r: nat, round: Round)
    requires r < |AllOffs(plan)|
  {
    && ReqsFit(plan, h, r, round.reqs) && |round.reqs| == plan.apps
    && round.level == Level(plan, h, r)
    && HeardFit(plan, h, r, round.infos)
    && |round.infos| == if plan.ftiff && NodeWrote(plan, h, AllOffs(plan)[r]) then plan.apps else 0
  }

  ghost predicate HeadFits(plan: Plan, h: nat, r: nat, head: Head) {
    r <= |AllOffs(plan)| &&
    match head
    case Listening => true
    case Receiving(reqs) => r < |AllOffs(plan)| && ReqsFit(plan, h, r, reqs)
    case Informed(round) =>
      && r < |AllOffs(plan)| && plan.ftiff && NodeWrote(plan, h, AllOffs(plan)[r])
      && ReqsFit(plan, h, r, round.reqs) && |round.reqs| == plan.apps && round.level == Level(plan, h, r)
      && HeardFit(plan, h, r, round.infos)
    case Voting(round) => r < |AllOffs(plan)| && RoundFits(plan, h, r, round)
    case Posting(round) => r < |AllOffs(plan)| && RoundFits(plan, h, r, round) && AllWrote(plan, AllOffs(plan)[r])
    case Sending(round, res, to) =>
      r < |AllOffs(plan)| && RoundFits(plan, h, r, round) && res == Result(plan, r) && to <= plan.apps
    case Ending(tokens) => r == |AllOffs(plan)| && |tokens| <= plan.apps && AllAre(tokens, FTI_ENDW)
    case Stopped(tokens) => r == |AllOffs(plan)| && |tokens| == plan.apps && AllAre(tokens, FTI_ENDW)
  }

  ghost predicate VotesFit(plan: Plan, h: nat, r: nat, head: Head, votes: seq<bool>)
    requires HeadFits(plan, h, r, head)
  {
    if head.Voting? then votes == VotesOf(plan, h, r) + [NodeWrote(plan, h, AllOffs(plan)[r])]
    else if head.Posting? || head.Sending? then votes == VotesOf(plan, h, r + 1)
    else votes == VotesOf(plan, h, r)
  }

  ghost predicate LogFits(plan: Plan, h: nat, log: seq<Done>) {
    && |log| <= |AllOffs(plan)|
    && forall k :: 0 <= k < |log| ==> RoundFits(plan, h, k, log[k].round) && log[k].res == Result(plan, k)
  }

  // ----- Counts -----

  /** What the head, in round `r`, has consumed from and sent to process `i`. */
  ghost function CountsOf(plan: Plan, h: nat, r: nat, head: Head, i: nat): Counts
    requires HeadFits(plan, h, r, head)
  {
    Counts(
      r + (if (head.Receiving? && i < |head.reqs|) || InRound(head) then 1 else 0),
      if InRound(head) && !head.Informed? then Heard(plan, h, r + 1)
      else Heard(plan, h, r) + if head.Informed? && i < |head.round.infos| then 1 else 0,
      r + (if head.Sending? && i < head.to then 1 else 0),
      (head.Ending? && i < |head.tokens|) || head.Stopped?)
  }

  predicate InRound(head: Head) {
    head.Informed? || head.Voting? || head.Posting? || head.Sending?
  }

  ghost predicate AppsFit(plan: Plan, h: nat, start: int, r: nat, head: Head, apps: seq<App>)
    requires HeadFits(plan, h, r, head)
  {
    |apps| == plan.apps
      && forall i :: 0 <= i < |apps| ==> AppInv(plan, h, i, start, apps[i], CountsOf(plan, h, r, head, i))
  }

  ghost predicate NodeInv(plan: Plan, h: nat, start: int, node: Node) {
    var r := |node.log|;
    && HeadFits(plan, h, r, node.head)
    && VotesFit(plan, h, r, node.head, node.votes)
    && LogFits(plan, h, node.log)
    && AppsFit(plan, h, start, r, node.head, node.apps)
  }

  ghost predicate Inv(plan: Plan, start: int, s: State) {
    |s| == plan.nodes && forall h :: 0 <= h < |s| ==> NodeInv(plan, h, start, s[h])
  }

  // ----- One message -----

  lemma {:induction false} PopRequest(plan: Plan, h: nat, i: nat, start: int, a: App, n: Counts)
    requires AppInv(plan, h, i, start, a, n) && a.up != []
    ensures n.reqs < |AllOffs(plan)| && a.up[0] == Requests(plan, h, i)[n.reqs]
    ensures AppInv(plan, h, i, start, a.(up := a.up[1..]), n.(reqs := n.reqs + 1))
  {
    hide Offs, AllOffs, Request, Requests, Result, Results, Latest, InfoCalls, Offline, Shown;
    SliceFirst(Requests(plan, h, i), n.reqs, |Offs(plan, Sent(a))|);
  }

  lemma {:induction false} PopInfo(plan: Plan, h: nat, i: nat, start: int, a: App, n: Counts)
    requires AppInv(plan, h, i, start, a, n) && a.infos != []
    ensures n.infos < |InfoCalls(plan, h, i, |AllOffs(plan)|)|
            && a.infos[0] == InfoCalls(plan, h, i, |AllOffs(plan)|)[n.infos]
    ensures AppInv(plan, h, i, start, a.(infos := a.infos[1..]), n.(infos := n.infos + 1))
  {
    hide Offs, AllOffs, Request, Result, Latest, InfoCalls, Requests, Results, Offline, Shown;
    var k := |Offs(plan, a.call)|;
    InfoCallsGrow(plan, h, i, k, |AllOffs(plan)|);
    var sent := InfoCalls(plan, h, i, k);
    SliceFirst(sent, n.infos, |sent|);
    assert sent[n.infos..|sent|] == sent[n.infos..] && sent[n.infos + 1..|sent|] == sent[n.infos + 1..];
  }

  lemma {:induction false} PushResult(plan: Plan, h: nat, i: nat, start: int, a: App, n: Counts)
    requires AppInv(plan, h, i, start, a, n) && n.results < n.reqs && n.results < |AllOffs(plan)|
    ensures AppInv(plan, h, i, start, a.(down := a.down + [Result(plan, n.results)]), n.(results := n.results + 1))
  {
    hide Offs, AllOffs, Request, Result, Latest, InfoCalls, Requests, Offline, Shown;
    SliceLonger(Results(plan), |Offs(plan, Settled(a))|, n.results);
  }

  lemma {:induction false} PopFinal(plan: Plan, h: nat, i: nat, start: int, a: App, n: Counts)
    requires AppInv(plan, h, i, start, a, n) && a.final != []
    ensures a.phase == Ended && a.final[0] == FTI_ENDW && n.results == |AllOffs(plan)|
    ensures AppInv(plan, h, i, start, a.(final := a.final[1..]), n.(ended := true))
  {
    hide Request, Result, Latest, InfoCalls, Shown, Wrote, Offline;
  }

  /** The step of a head changes one process's messages at most. */
  lemma {:induction false} OneApp(plan: Plan, h: nat, start: int, r: nat, head: Head, next: Head, apps: seq<App>,
                                  i: nat, a: App)
    requires HeadFits(plan, h, r, head) && HeadFits(plan, h, r, next)
    requires AppsFit(plan, h, start, r, head, apps) && i < |apps|
    requires AppInv(plan, h, i, start, a, CountsOf(plan, h, r, next, i))
    requires forall k :: 0 <= k < |apps| && k != i ==> CountsOf(plan, h, r, next, k) == CountsOf(plan, h, r, head, k)
    ensures AppsFit(plan, h, start, r, next, apps[i := a])
  {
    hide AppInv, CountsOf, HeadFits;
  }
}
