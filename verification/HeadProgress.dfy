/** No interleaving of processes and heads gets stuck, whether messages are buffered or not. */
module HeadProgress {
  import opened HeadProtocol
  import opened HeadInvariant
  import opened HeadRounds
  import opened HeadSteps
  import opened HeadTheorems

  lemma {:induction false} HeardGrows(plan: Plan, h: nat, k: nat, m: nat)
    requires k <= m <= |AllOffs(plan)|
    ensures Heard(plan, h, k) <= Heard(plan, h, m)
  {
    if k < m {
      HeardGrows(plan, h, k, m - 1);
    }
  }

  // ----- What a process waits for -----

  /** At most one request is without its result. */
  lemma {:induction false} OneAhead(plan: Plan, h: nat, i: nat, a: App)
    requires CallsFit(plan, h, i, a)
    ensures |Offs(plan, Sent(a))| <= |Offs(plan, Settled(a))| + 1
    ensures |Offs(plan, a.call)| <= |Offs(plan, Sent(a))|
    ensures a.phase == Writing || a.phase == Processing || a.phase == Ended ==> Settled(a) == Sent(a) == a.call
    ensures a.phase == Ready && !a.wasLastOffline ==> Settled(a) == Sent(a) == a.call
    ensures a.phase == Ready && a.wasLastOffline ==> |Offs(plan, a.call)| == |Offs(plan, Settled(a))| + 1
    ensures a.phase == Informing ==> |Offs(plan, Sent(a))| == |Offs(plan, Settled(a))| + 1 && Settled(a) == a.call
  {
    if a.phase == Ready && a.wasLastOffline {
      OffAt(plan, a.call - 1);
    } else if a.phase == Informing {
      OffAt(plan, a.call);
    }
    hide Offs, Offline, Wrote;
  }

  /** When the head has read as much as the rounds so far hold, nothing is left to read. */
  lemma {:induction false} NothingToRead(plan: Plan, h: nat, i: nat, start: int, a: App, n: Counts, m: nat)
    requires i < plan.apps && AppInv(plan, h, i, start, a, n)
    requires |Offs(plan, a.call)| <= m <= |AllOffs(plan)| && Heard(plan, h, m) <= n.infos
    ensures a.infos == []
  {
    var k := |Offs(plan, a.call)|;
    hide Offs, AllOffs, InfoCalls, Heard, Requests, Results, Latest, Wrote;
    HeardGrows(plan, h, k, m);
    HeardAll(plan, h, i, k);
  }

  /** A process that no result is missing to has no message under way to its head. */
  lemma {:induction false} SettledIsQuiet(plan: Plan, h: nat, i: nat, start: int, a: App, n: Counts)
    requires i < plan.apps && AppInv(plan, h, i, start, a, n)
    requires Settled(a) == Sent(a) == a.call && n.results <= |AllOffs(plan)| && Heard(plan, h, n.results) <= n.infos
    ensures a.up == [] && a.infos == []
  {
    hide Offs, AllOffs, InfoCalls, Heard, Requests, Results, Latest, Offline, Wrote;
    NothingToRead(plan, h, i, start, a, n, n.results);
  }

  /** A process that a result is sent to can receive it. */
  lemma {:induction false} ResultTaken(plan: Plan, h: nat, i: nat, start: int, s: State, a: App, n: Counts)
    requires i < plan.apps && AppInv(plan, h, i, start, a, n)
    requires a.down != [] && n.results <= |AllOffs(plan)| && Heard(plan, h, n.results) <= n.infos
    ensures AppMayUnbuffered(plan, s, a)
  {
    hide Offs, AllOffs, InfoCalls, Heard, Requests, Results, Latest, Offline, Wrote;
    OneAhead(plan, h, i, a);
    NothingToRead(plan, h, i, start, a, n, n.results);
  }

  /** The round that a process waits for: it has asked for it, and has no result. */
  ghost predicate Pending(plan: Plan, a: App, r: nat) {
    && a.call <= |plan.levels|
    && ((a.phase == Ready && |Offs(plan, a.call)| == r + 1)
        || (a.phase == Informing && a.call < |plan.levels| && Offline(plan, a.call) && |Offs(plan, a.call)| == r))
  }

  /** A process that cannot go on, although no other is behind it, waits for a result, or has ended. */
  lemma {:induction false} WhyBlocked(plan: Plan, h: nat, i: nat, start: int, s: State, a: App, n: Counts)
    requires i < plan.apps && AppInv(plan, h, i, start, a, n)
    requires n.results <= |AllOffs(plan)| && Heard(plan, h, n.results) <= n.infos
    requires !AppMayUnbuffered(plan, s, a) && a.down == []
    requires forall g, j :: 0 <= g < |s| && 0 <= j < |s[g].apps| ==> Place(a) <= Place(s[g].apps[j])
    ensures a.phase == Ended || (n.results < |AllOffs(plan)| && Pending(plan, a, n.results))
  {
    OneAhead(plan, h, i, a);
    if a.phase == Ready && a.wasLastOffline {
      OffAt(plan, a.call - 1);
    } else if a.phase == Informing {
      OffAt(plan, a.call);
    } else if a.phase != Ended {
      SettledIsQuiet(plan, h, i, start, a, n);
    }
    hide Offs, AllOffs, InfoCalls, Heard, Requests, Results, Latest, Offline, Wrote;
  }

  /** Who is not behind a process has asked for the same round. */
  lemma {:induction false} AskedToo(plan: Plan, a: App, r: nat, h: nat, i: nat, b: App)
    requires Pending(plan, a, r) && CallsFit(plan, h, i, b) && Place(a) <= Place(b)
    ensures r + 1 <= |Offs(plan, Sent(b))|
  {
    var c := if a.phase == Ready then a.call else a.call + 1;
    if a.phase == Informing {
      OffAt(plan, a.call);
    }
    assert c <= Sent(b) <= |plan.levels|;
    OffsGrow(plan, c, Sent(b));
  }

  // ----- What a head waits for -----

  predicate Local(head: Head) {
    !head.Voting? && !head.Posting? && !head.Stopped?
  }

  lemma {:induction false} HeadInRange(plan: Plan, h: nat, r: nat, head: Head)
    requires HeadFits(plan, h, r, head)
    ensures r <= |AllOffs(plan)| && (InRound(head) ==> r < |AllOffs(plan)|)
    ensures head.Ending? || head.Stopped? ==> r == |AllOffs(plan)|
  {
    hide RoundFits, ReqsFit, HeardFit, AllOffs, Level, Result;
  }

  lemma {:induction false} HeardEnoughFor(plan: Plan, h: nat, r: nat, head: Head, i: nat)
    requires HeadFits(plan, h, r, head)
    ensures var n := CountsOf(plan, h, r, head, i);
      r <= n.results <= |AllOffs(plan)| && Heard(plan, h, n.results) <= n.infos
  {
    HeadInRange(plan, h, r, head);
    if InRound(head) {
      HeardGrows(plan, h, r, r + 1);
    }
    hide HeadFits, AllOffs, Heard;
  }

  lemma {:induction false} HeardStep(plan: Plan, h: nat, r: nat)
    requires r < |AllOffs(plan)| && plan.ftiff && NodeWrote(plan, h, AllOffs(plan)[r])
    ensures Heard(plan, h, r + 1) == Heard(plan, h, r) + 1
  {
  }

  lemma {:induction false} RequestThere(plan: Plan, h: nat, i: nat, start: int, a: App, n: Counts)
    requires AppInv(plan, h, i, start, a, n) && n.reqs < |Offs(plan, Sent(a))|
    ensures a.up != []
  {
    hide Offs, AllOffs, InfoCalls, Results, Latest, Offline, Wrote;
  }

  /** A process that was asked for its file information has sent it, or can. */
  lemma {:induction false} InfoThere(plan: Plan, h: nat, i: nat, start: int, s: State, a: App, n: Counts, r: nat)
    requires i < plan.apps && AppInv(plan, h, i, start, a, n) && !AppMayUnbuffered(plan, s, a)
    requires r < |AllOffs(plan)| && n.reqs == r + 1 && n.results == r
    requires n.infos == Heard(plan, h, r) < Heard(plan, h, r + 1)
    ensures a.infos != []
  {
    OneAhead(plan, h, i, a);
    var k := |Offs(plan, a.call)|;
    hide Offs, AllOffs, InfoCalls, Heard, Requests, Results, Latest, Offline, Wrote;
    HeardAll(plan, h, i, k);
    if r + 1 <= k {
      HeardGrows(plan, h, r + 1, k);
    }
  }

  /** A head that has requests of all its processes before it can go on. */
  lemma {:induction false} AskedHeadMoves(plan: Plan, start: int, s: State, h: nat, r: nat)
    requires plan.Valid() && Inv(plan, start, s) && h < |s| && Local(s[h].head)
    requires |s[h].log| <= r < |AllOffs(plan)|
    requires forall i :: 0 <= i < |s[h].apps| ==> !AppMayUnbuffered(plan, s, s[h].apps[i])
    requires forall i :: 0 <= i < |s[h].apps| ==>
             Sent(s[h].apps[i]) <= |plan.levels| && r < |Offs(plan, Sent(s[h].apps[i]))|
    ensures HeadCan(s, h)
  {
    var node, q := s[h], |s[h].log|;
    assert NodeInv(plan, h, start, node);
    NodeParts(plan, h, start, node);
    HeadInRange(plan, h, q, node.head);
    hide Inv, NodeInv, AppInv, AllOffs, Offs, Heard, ReqsFit, HeardFit, Level, AppMayUnbuffered, NodeWrote;
    if node.head.Listening? {
      RequestThere(plan, h, 0, start, node.apps[0], CountsOf(plan, h, q, node.head, 0));
    } else if node.head.Receiving? {
      var i := |node.head.reqs|;
      if i < |node.apps| {
        RequestThere(plan, h, i, start, node.apps[i], CountsOf(plan, h, q, node.head, i));
      }
    } else if node.head.Informed? {
      var i := |node.head.round.infos|;
      if i < |node.apps| {
        HeardStep(plan, h, q);
        InfoThere(plan, h, i, start, s, node.apps[i], CountsOf(plan, h, q, node.head, i), q);
      }
    }
  }

  lemma {:induction false} EndWaits(plan: Plan, h: nat, i: nat, start: int, a: App, n: Counts)
    requires AppInv(plan, h, i, start, a, n) && a.phase == Ended && !n.ended
    ensures a.final != []
  {
  }

  lemma {:induction false} EndedHasAsked(plan: Plan, h: nat, i: nat, start: int, a: App, n: Counts)
    requires AppInv(plan, h, i, start, a, n) && a.phase == Ended
    ensures n.results == n.reqs == |AllOffs(plan)| && a.up == []
  {
    hide InfoCalls, Latest;
  }

  /** When all its processes have ended, a head that does not wait for other heads can go on. */
  lemma {:induction false} EndingHeadMoves(plan: Plan, start: int, s: State, h: nat)
    requires plan.Valid() && Inv(plan, start, s) && h < |s| && Local(s[h].head)
    requires forall i :: 0 <= i < |s[h].apps| ==> s[h].apps[i].phase == Ended
    ensures HeadCan(s, h)
  {
    var node, q := s[h], |s[h].log|;
    assert NodeInv(plan, h, start, node);
    NodeParts(plan, h, start, node);
    HeadInRange(plan, h, q, node.head);
    hide Inv, NodeInv, AppInv, AllOffs, Offs, Heard, ReqsFit, HeardFit, Level, NodeWrote;
    EndedHasAsked(plan, h, 0, start, node.apps[0], CountsOf(plan, h, q, node.head, 0));
    if node.head.Listening? {
      EndWaits(plan, h, 0, start, node.apps[0], CountsOf(plan, h, q, node.head, 0));
    } else if node.head.Ending? {
      var i := |node.head.tokens|;
      if i < |node.apps| {
        EndWaits(plan, h, i, start, node.apps[i], CountsOf(plan, h, q, node.head, i));
      }
    }
  }

  /** When every process of a node is blocked, all results were received. */
  lemma {:induction false} ResultsTaken(plan: Plan, start: int, s: State, h: nat)
    requires Inv(plan, start, s) && h < |s|
    requires forall i :: 0 <= i < |s[h].apps| ==> !AppMayUnbuffered(plan, s, s[h].apps[i])
    ensures NothingSent(s[h])
  {
    var node, r := s[h], |s[h].log|;
    assert NodeInv(plan, h, start, node);
    NodeParts(plan, h, start, node);
    hide Inv, NodeInv, AppInv, HeadFits, AllOffs, AppMayUnbuffered;
    forall i | 0 <= i < |node.apps| ensures node.apps[i].down == [] {
      var n := CountsOf(plan, h, r, node.head, i);
      HeardEnoughFor(plan, h, r, node.head, i);
      if node.apps[i].down != [] {
        ResultTaken(plan, h, i, start, s, node.apps[i], n);
      }
    }
  }

  // ----- Heads that wait for each other -----

  lemma {:induction false} FewestVotes(s: State, k: nat) returns (m: nat)
    requires 0 < k <= |s|
    ensures m < k && forall h :: 0 <= h < k ==> |s[m].votes| <= |s[h].votes|
  {
    m := 0;
    if k > 1 {
      m := FewestVotes(s, k - 1);
      if |s[k - 1].votes| < |s[m].votes| {
        m := k - 1;
      }
    }
  }

  lemma {:induction false} VotesLenGrows(plan: Plan, r: nat, m: nat)
    requires r <= m <= |AllOffs(plan)|
    ensures VotesLen(plan, r) <= VotesLen(plan, m)
    ensures r < m ==> VotesLen(plan, r) < VotesLen(plan, m)
  {
    if r < m {
      VotesLenGrows(plan, r, m - 1);
    }
  }

  /** How often a head has voted tells its round. */
  lemma {:induction false} VotesTell(plan: Plan, start: int, s: State, h: nat)
    requires Inv(plan, start, s) && h < |s|
    ensures var head, r, votes := s[h].head, |s[h].log|, |s[h].votes|;
      && r <= |AllOffs(plan)| && VotesLen(plan, r) <= votes <= VotesLen(plan, |AllOffs(plan)|)
      && (head.Stopped? ==> votes == VotesLen(plan, |AllOffs(plan)|))
      && (head.Voting? || head.Posting? ==> r < |AllOffs(plan)| && 0 < votes <= VotesLen(plan, r + 1))
  {
    var head, r := s[h].head, |s[h].log|;
    assert NodeInv(plan, h, start, s[h]);
    VotesAre(plan, h, start, s[h]);
    HeadInRange(plan, h, r, head);
    VotesLenIs(plan, h, r);
    VotesLenIs(plan, h, |AllOffs(plan)|);
    if r < |AllOffs(plan)| {
      VotesLenIs(plan, h, r + 1);
      VotesLenGrows(plan, r, r + 1);
    }
    hide Inv, NodeInv, AllOffs, AppsFit, LogFits, VotesLen, VotesOf, RoundFits, ReqsFit, HeardFit, Level, Result;
  }

  /** Among waiting and stopped heads, the one that has voted least often can go on. */
  lemma {:induction false} WaitingHeadMoves(plan: Plan, start: int, s: State, w: nat) returns (h: nat)
    requires plan.Valid() && Inv(plan, start, s) && w < |s| && !s[w].head.Stopped?
    requires forall h :: 0 <= h < |s| ==> !Local(s[h].head)
    ensures h < |s| && HeadCan(s, h)
  {
    var m := FewestVotes(s, |s|);
    VotesTell(plan, start, s, m);
    VotesTell(plan, start, s, w);
    hide Inv, AllOffs, VotesLen;
    h := if s[m].head.Stopped? then w else m;
  }

  /** A head that waits for others can go on, or another one that is not ahead of it does not wait for others. */
  lemma {:induction false} VoterOrBehind(plan: Plan, start: int, s: State, w: nat) returns (h: nat)
    requires plan.Valid() && Inv(plan, start, s) && w < |s| && (s[w].head.Voting? || s[w].head.Posting?)
    ensures h < |s| && (HeadCan(s, h) || (Local(s[h].head) && |s[h].log| <= |s[w].log|))
  {
    var m := FewestVotes(s, |s|);
    VotesTell(plan, start, s, m);
    VotesTell(plan, start, s, w);
    h := if |s[m].votes| < |s[w].votes| then m else w;
    if |s[w].log| < |s[m].log| {
      VotesLenGrows(plan, |s[w].log| + 1, |s[m].log|);
    }
    hide Inv, AllOffs, VotesLen;
  }

  // ----- The process that is furthest behind -----

  lemma {:induction false} LastOf(apps: seq<App>, k: nat) returns (i: nat)
    requires 0 < k <= |apps|
    ensures i < k && forall j :: 0 <= j < k ==> Place(apps[i]) <= Place(apps[j])
  {
    i := 0;
    if k > 1 {
      i := LastOf(apps, k - 1);
      if Place(apps[k - 1]) < Place(apps[i]) {
        i := k - 1;
      }
    }
  }

  lemma {:induction false} Last(s: State, k: nat) returns (h: nat, i: nat)
    requires 0 < k <= |s| && forall g :: 0 <= g < |s| ==> 0 < |s[g].apps|
    ensures h < k && i < |s[h].apps|
    ensures forall g, j :: 0 <= g < k && 0 <= j < |s[g].apps| ==> Place(s[h].apps[i]) <= Place(s[g].apps[j])
  {
    var j := LastOf(s[k - 1].apps, |s[k - 1].apps|);
    h, i := k - 1, j;
    if k > 1 {
      var g, l := Last(s, k - 1);
      if Place(s[g].apps[l]) < Place(s[k - 1].apps[j]) {
        h, i := g, l;
      }
    }
  }

  /** When the process furthest behind waits for a round, some head can go on. */
  lemma {:induction false} SomeHeadMoves(plan: Plan, start: int, s: State, g: nat, r: nat) returns (h: nat)
    requires plan.Valid() && Inv(plan, start, s) && g < |s| && |s[g].log| <= r < |AllOffs(plan)|
    requires forall h, i :: 0 <= h < |s| && 0 <= i < |s[h].apps| ==> !AppMayUnbuffered(plan, s, s[h].apps[i])
    requires forall h, i :: 0 <= h < |s| && 0 <= i < |s[h].apps| ==>
      Sent(s[h].apps[i]) <= |plan.levels| && r < |Offs(plan, Sent(s[h].apps[i]))|
    ensures h < |s| && HeadCan(s, h)
  {
    h := g;
    HeadsInRange(plan, start, s, g);
    hide Inv, HeadCan, AppMayUnbuffered, AllOffs, Offs;
    if s[g].head.Voting? || s[g].head.Posting? {
      h := VoterOrBehind(plan, start, s, g);
    }
    if Local(s[h].head) && |s[h].log| <= r {
      AskedHeadMoves(plan, start, s, h, r);
    }
  }

  lemma {:induction false} HeadsInRange(plan: Plan, start: int, s: State, g: nat)
    requires Inv(plan, start, s) && g < |s|
    ensures s[g].head.Stopped? ==> |s[g].log| == |AllOffs(plan)|
  {
    assert NodeInv(plan, g, start, s[g]);
    HeadInRange(plan, g, |s[g].log|, s[g].head);
  }

  lemma {:induction false} AllAsked(plan: Plan, start: int, s: State, a: App, r: nat)
    requires Inv(plan, start, s) && Pending(plan, a, r)
    requires forall g, j :: 0 <= g < |s| && 0 <= j < |s[g].apps| ==> Place(a) <= Place(s[g].apps[j])
    ensures forall h, i :: 0 <= h < |s| && 0 <= i < |s[h].apps| ==>
      Sent(s[h].apps[i]) <= |plan.levels| && r < |Offs(plan, Sent(s[h].apps[i]))|
  {
    forall h, i | 0 <= h < |s| && 0 <= i < |s[h].apps|
      ensures Sent(s[h].apps[i]) <= |plan.levels| && r < |Offs(plan, Sent(s[h].apps[i]))|
    {
      var n := AppAt(plan, start, s, h, i);
      hide Inv, Pending, Offs, Place, RequestsFit, ResultsFit, InfosFit, EndFits, Latest;
      AskedToo(plan, a, r, h, i, s[h].apps[i]);
    }
  }

  /** If no process can go on, some head can. */
  lemma {:induction false} HeadMoves(plan: Plan, start: int, s: State, w: nat) returns (h: nat)
    requires plan.Valid() && Inv(plan, start, s) && w < |s| && !s[w].head.Stopped?
    requires forall h, i :: 0 <= h < |s| && 0 <= i < |s[h].apps| ==> !AppMayUnbuffered(plan, s, s[h].apps[i])
    ensures h < |s| && HeadCan(s, h)
  {
    NodesHaveApps(plan, start, s);
    var g, i := Last(s, |s|);
    var a := s[g].apps[i];
    var n := AppAt(plan, start, s, g, i);
    HeardEnoughFor(plan, g, |s[g].log|, s[g].head, i);
    ResultsTaken(plan, start, s, g);
    hide Inv, HeadCan, AppMayUnbuffered, AllOffs, Offs, AppInv, CountsOf, Pending, HeadFits, Place;
    WhyBlocked(plan, g, i, start, s, a, n);
    if a.phase != Ended {
      AllAsked(plan, start, s, a, n.results);
      h := SomeHeadMoves(plan, start, s, g, n.results);
    } else {
      AllEnded(plan, start, s, a);
      if l :| 0 <= l < |s| && Local(s[l].head) {
        EndingHeadMoves(plan, start, s, l);
        h := l;
      } else {
        h := WaitingHeadMoves(plan, start, s, w);
      }
    }
  }

  lemma {:induction false} NodesHaveApps(plan: Plan, start: int, s: State)
    requires plan.Valid() && Inv(plan, start, s)
    ensures forall g :: 0 <= g < |s| ==> |s[g].apps| == plan.apps > 0
  {
    forall g | 0 <= g < |s| ensures |s[g].apps| == plan.apps {
      assert NodeInv(plan, g, start, s[g]);
      NodeParts(plan, g, start, s[g]);
    }
  }

  /** Nobody is behind a process that has ended: all have. */
  lemma {:induction false} AllEnded(plan: Plan, start: int, s: State, a: App)
    requires Inv(plan, start, s) && a.phase == Ended && a.call == |plan.levels|
    requires forall g, j :: 0 <= g < |s| && 0 <= j < |s[g].apps| ==> Place(a) <= Place(s[g].apps[j])
    ensures forall h, i :: 0 <= h < |s| && 0 <= i < |s[h].apps| ==> s[h].apps[i].phase == Ended
  {
    forall h, i | 0 <= h < |s| && 0 <= i < |s[h].apps| ensures s[h].apps[i].phase == Ended {
      var n := AppAt(plan, start, s, h, i);
      hide Inv, RequestsFit, ResultsFit, InfosFit, EndFits, Latest;
    }
  }

  /** In every reachable state in which some head has not stopped, a step is possible, even if nothing is buffered. */
  lemma {:induction false} NeverStuck(plan: Plan, states: seq<State>, steps: seq<Step>, start: int, k: nat, w: nat)
    returns (step: Step)
    requires plan.Valid() && IsRun(plan, states, steps) && states[0] == Initial(plan, start) && k < |states|
    requires w < |states[k]| && !states[k][w].head.Stopped?
    ensures CanUnbuffered(plan, states[k], step)
  {
    RunFits(plan, states, steps, start, k);
    var s := states[k];
    hide Inv, HeadCan, AppMayUnbuffered, IsRun, NothingSent, CanUnbuffered;
    if h, i :| 0 <= h < |s| && 0 <= i < |s[h].apps| && AppMayUnbuffered(plan, s, s[h].apps[i]) {
      AppStepUnbuffered(plan, s, h, i);
      return AppStep(h, i);
    }
    var h := HeadMoves(plan, start, s, w);
    ResultsTaken(plan, start, s, h);
    HeadStepUnbuffered(plan, s, h);
    step := HeadStep(h);
  }

  lemma AppStepUnbuffered(plan: Plan, s: State, h: nat, i: nat)
    requires h < |s| && i < |s[h].apps| && AppMayUnbuffered(plan, s, s[h].apps[i])
    ensures CanUnbuffered(plan, s, AppStep(h, i))
  {
  }

  lemma HeadStepUnbuffered(plan: Plan, s: State, h: nat)
    requires h < |s| && HeadCan(s, h) && NothingSent(s[h])
    ensures CanUnbuffered(plan, s, HeadStep(h))
  {
  }

  // ----- Every step goes on -----

  /** Every step of a process takes it further, and it ends at a fixed distance. */
  lemma {:induction false} AppAdvances(plan: Plan, h: nat, i: nat, a: App)
    requires AppCan(plan, a) && a.call <= |plan.levels|
    requires a.phase == Informing || a.phase == Processing ==> a.call < |plan.levels|
    ensures Place(a) < Place(AppNext(plan, h, i, a)) <= 4 * |plan.levels| + 3
  {
    hide Wrote, Offline, InlineDone;
  }

  /** How far a head is within a round. */
  function Position(apps: nat, head: Head): nat {
    match head
    case Listening => 0
    case Receiving(reqs) => 1 + |reqs|
    case Informed(round) => apps + 2 + |round.infos|
    case Voting(_) => 2 * apps + 3
    case Posting(_) => 2 * apps + 4
    case Sending(_, _, to) => 2 * apps + 5 + to
    case Ending(tokens) => 1 + |tokens|
    case Stopped(_) => apps + 2
  }

  /** Every step of a head ends the round or takes it further within, and rounds are bounded. */
  lemma {:induction false} HeadAdvances(plan: Plan, start: int, s: State, h: nat)
    requires plan.Valid() && Inv(plan, start, s) && h < |s| && HeadCan(s, h)
    ensures var node, next := s[h], HeadNext(plan, s, h);
      && |next.log| <= |AllOffs(plan)|
      && Position(plan.apps, next.head) <= 3 * plan.apps + 5
      && (|next.log| == |node.log| + 1
          || (|next.log| == |node.log| && Position(plan.apps, node.head) < Position(plan.apps, next.head)))
  {
    var node, next := s[h], HeadNext(plan, s, h);
    HeadStepKeeps(plan, start, s, h);
    assert NodeInv(plan, h, start, node) && NodeInv(plan, h, start, next);
    NodeParts(plan, h, start, node);
    NodeParts(plan, h, start, next);
    hide Inv, NodeInv, AppInv, HeadNext, Position;
    InRange(plan, h, |node.log|, node.head);
    InRange(plan, h, |next.log|, next.head);
    MovesOn(plan, s, h);
  }

  lemma {:induction false} InRange(plan: Plan, h: nat, r: nat, head: Head)
    requires HeadFits(plan, h, r, head)
    ensures r <= |AllOffs(plan)| && Position(plan.apps, head) <= 3 * plan.apps + 5
    ensures head.Informed? ==> |head.round.infos| <= plan.apps
    ensures head.Receiving? ==> |head.reqs| <= plan.apps
    ensures head.Ending? ==> |head.tokens| <= plan.apps
  {
    hide AllOffs, RoundFits, Result, Level;
  }

  lemma {:induction false} MovesOn(plan: Plan, s: State, h: nat)
    requires h < |s| && HeadCan(s, h) && |s[h].apps| == plan.apps
    requires s[h].head.Informed? ==> |s[h].head.round.infos| <= plan.apps
    requires s[h].head.Receiving? ==> |s[h].head.reqs| <= plan.apps
    requires s[h].head.Ending? ==> |s[h].head.tokens| <= plan.apps
    ensures var node, next := s[h], HeadNext(plan, s, h);
      || |next.log| == |node.log| + 1
      || (|next.log| == |node.log| && Position(plan.apps, node.head) < Position(plan.apps, next.head))
  {
    hide LevelOf, Voted, AllFor, Requested, EndSeen;
  }
}
