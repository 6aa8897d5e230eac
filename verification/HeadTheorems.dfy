/** What the head protocol guarantees in every interleaving. */
module HeadTheorems {
  import opened Arithmetic
  import opened HeadProtocol
  import opened HeadInvariant
  import opened HeadRounds
  import opened HeadSteps

  lemma {:induction false} RunFits(plan: Plan, states: seq<State>, steps: seq<Step>, start: int, k: nat)
    requires plan.Valid() && IsRun(plan, states, steps) && states[0] == Initial(plan, start) && k < |states|
    ensures Inv(plan, start, states[k])
  {
    if k == 0 {
      InitialInv(plan, start);
    } else {
      RunFits(plan, states, steps, start, k - 1);
      StepKeepsInv(plan, start, states[k - 1], steps[k - 1]);
    }
  }

  /** The processes of a state, with what the head has exchanged with each. */
  lemma {:induction false} AppAt(plan: Plan, start: int, s: State, h: nat, i: nat) returns (n: Counts)
    requires Inv(plan, start, s) && h < |s| && i < |s[h].apps|
    ensures HeadFits(plan, h, |s[h].log|, s[h].head) && |s[h].apps| == plan.apps
    ensures n == CountsOf(plan, h, |s[h].log|, s[h].head, i) && AppInv(plan, h, i, start, s[h].apps[i], n)
  {
    assert NodeInv(plan, h, start, s[h]);
    NodeParts(plan, h, start, s[h]);
    n := CountsOf(plan, h, |s[h].log|, s[h].head, i);
  }

  /**
   * Before it asks for its next checkpoint or ends, a process has received the result of each of its
   * earlier offline checkpoints exactly once, in order, and no result is under way to it;
   * and its last level is that of the latest checkpoint whose post-processing succeeded.
   */
  lemma {:induction false} EveryResultOnce(plan: Plan, states: seq<State>, steps: seq<Step>, start: int, k: nat, h: nat,
                                           i: nat)
    requires plan.Valid() && IsRun(plan, states, steps) && states[0] == Initial(plan, start) && k < |states|
    requires h < |states[k]| && i < |states[k][h].apps|
    requires var phase := states[k][h].apps[i].phase; phase == Writing || phase == Processing || phase == Ended
    ensures var a := states[k][h].apps[i];
      && a.call <= |plan.levels|
      && |Offs(plan, a.call)| <= |Results(plan)|
      && a.got == Results(plan)[..|Offs(plan, a.call)|]
      && a.down == []
      && a.lastCkptLvel == Latest(plan, a.call, start)
  {
    RunFits(plan, states, steps, start, k);
    var n := AppAt(plan, start, states[k], h, i);
    hide Inv, CountsOf, Offs, Result, Request, Latest, InfoCalls;
  }

  /** A head never mixes the requests of two checkpoints. */
  lemma {:induction false} RequestsNotMixed(plan: Plan, states: seq<State>, steps: seq<Step>, start: int, k: nat,
                                            h: nat, j: nat)
    requires plan.Valid() && IsRun(plan, states, steps) && states[0] == Initial(plan, start) && k < |states|
    requires h < |states[k]| && j < |states[k][h].log|
    ensures j < |AllOffs(plan)|
    ensures var done := states[k][h].log[j];
      && |done.round.reqs| == plan.apps
      && (forall i :: 0 <= i < plan.apps ==>
            done.round.reqs[i] == Requests(plan, h, i)[j] && done.round.reqs[i].call == AllOffs(plan)[j])
      && done.round.level == Level(plan, h, j)
      && done.res == Result(plan, j)
  {
    RunFits(plan, states, steps, start, k);
    assert NodeInv(plan, h, start, states[k][h]);
    var done := states[k][h].log[j];
    assert RoundFits(plan, h, j, done.round);
    forall i | 0 <= i < plan.apps
      ensures done.round.reqs[i] == Requests(plan, h, i)[j] && done.round.reqs[i].call == AllOffs(plan)[j]
    {
      RequestCall(plan, h, i, j);
    }
  }

  lemma {:induction false} RequestCall(plan: Plan, h: nat, i: nat, j: nat)
    requires j < |AllOffs(plan)|
    ensures Requests(plan, h, i)[j].call == AllOffs(plan)[j]
  {
    OffsInRange(plan, |plan.levels|, j);
  }

  /** A head post-processes a checkpoint only when every process of every node has written it. */
  lemma {:induction false} PostOnlyIfAllWrote(plan: Plan, states: seq<State>, steps: seq<Step>, start: int, k: nat,
                                              h: nat)
    requires plan.Valid() && IsRun(plan, states, steps) && states[0] == Initial(plan, start) && k < |states|
    requires h < |states[k]| && states[k][h].head.Posting?
    ensures var j := |states[k][h].log|; j < |AllOffs(plan)| && AllWrote(plan, AllOffs(plan)[j])
  {
    RunFits(plan, states, steps, start, k);
    assert NodeInv(plan, h, start, states[k][h]);
    hide AllOffs, AllWrote, RoundFits, VotesFit, AppsFit, LogFits;
  }

  // ----- The end -----

  function Total(tokens: seq<int>): int {
    if |tokens| == 0 then 0 else Total(tokens[..|tokens| - 1]) + tokens[|tokens| - 1]
  }

  lemma {:induction false} TotalIs(tokens: seq<int>, value: int)
    requires AllAre(tokens, value)
    ensures Total(tokens) == |tokens| * value
  {
    if |tokens| > 0 {
      TotalIs(tokens[..|tokens| - 1], value);
    }
  }

  /** A head that stops has handled every offline checkpoint and read one end token from each process. */
  lemma {:induction false} StoppedIsDone(plan: Plan, states: seq<State>, steps: seq<Step>, start: int, k: nat, h: nat)
    requires plan.Valid() && IsRun(plan, states, steps) && states[0] == Initial(plan, start) && k < |states|
    requires h < |states[k]| && states[k][h].head.Stopped?
    ensures |states[k][h].log| == |AllOffs(plan)|
    ensures Total(states[k][h].head.tokens) / plan.apps == FTI_ENDW
    ensures forall i :: 0 <= i < |states[k][h].apps| ==> Finished(plan, states[k][h].apps[i])
  {
    RunFits(plan, states, steps, start, k);
    assert NodeInv(plan, h, start, states[k][h]);
    var tokens := states[k][h].head.tokens;
    TotalIs(tokens, FTI_ENDW);
    Divided(plan.apps, FTI_ENDW);
    forall i | 0 <= i < |states[k][h].apps| ensures Finished(plan, states[k][h].apps[i]) {
      var n := AppAt(plan, start, states[k], h, i);
      hide Inv, NodeInv, AllOffs, Result, Request, Latest, InfoCalls, Heard;
      FinishedApp(plan, h, i, start, states[k][h].apps[i], n);
    }
  }

  lemma {:induction false} Divided(n: nat, x: nat)
    requires 0 < n
    ensures n * x / n == x
  {
    QuotientIs(x * n, n, x, 0);
  }

  /** The process has ended and no request, result or end token is left. */
  predicate Finished(plan: Plan, a: App) {
    a.phase == Ended && a.up == [] && a.down == [] && a.final == []
  }

  lemma {:induction false} FinishedApp(plan: Plan, h: nat, i: nat, start: int, a: App, n: Counts)
    requires AppInv(plan, h, i, start, a, n) && n.ended && n.reqs == n.results == |AllOffs(plan)|
    ensures Finished(plan, a)
  {
  }

  // ----- File sizes and names -----

  /** With FTI-FF, the file sizes and names that a head reads in a round are those of the checkpoint of the round. */
  lemma {:induction false} InfosOfTheirRound(plan: Plan, states: seq<State>, steps: seq<Step>, start: int,
                                             k: nat, h: nat, j: nat)
    requires plan.Valid() && IsRun(plan, states, steps) && states[0] == Initial(plan, start) && k < |states|
    requires h < |states[k]| && j < |states[k][h].log|
    requires plan.ftiff && states[k][h].log[j].round.level != 6
    ensures j < |AllOffs(plan)| && |states[k][h].log[j].round.infos| == plan.apps
    ensures forall i :: 0 <= i < plan.apps ==> states[k][h].log[j].round.infos[i] == AllOffs(plan)[j]
  {
    RunFits(plan, states, steps, start, k);
    assert NodeInv(plan, h, start, states[k][h]);
    var round := states[k][h].log[j].round;
    assert RoundFits(plan, h, j, round);
    hide NodeInv, Inv;
    OffsInRange(plan, |plan.levels|, j);
    hide AllOffs, Wrote, NodeWrote;
    forall i | 0 <= i < plan.apps ensures round.infos[i] == AllOffs(plan)[j] {
      assert OldestUnread(plan, h, i, j, round.infos[i]);
      HeardAll(plan, h, i, j);
      InfoIs(plan, h, i, j);
    }
  }

  lemma {:induction false} InfoIs(plan: Plan, h: nat, i: nat, k: nat)
    requires k < |AllOffs(plan)| && i < plan.apps && plan.ftiff && NodeWrote(plan, h, AllOffs(plan)[k])
    ensures var all, n := InfoCalls(plan, h, i, |AllOffs(plan)|), |InfoCalls(plan, h, i, k)|;
      n < |all| && all[n] == AllOffs(plan)[k]
  {
    InfoCallsGrow(plan, h, i, k + 1, |AllOffs(plan)|);
  }

  /** How many of the processes asked for a differential checkpoint. */
  function DcpCount(infos: seq<nat>, isDcp: nat -> bool): nat {
    if |infos| == 0 then 0
    else DcpCount(infos[..|infos| - 1], isDcp) + if isDcp(infos[|infos| - 1]) then 1 else 0
  }

  lemma {:induction false} SameCall(infos: seq<nat>, isDcp: nat -> bool, c: nat)
    requires forall i :: 0 <= i < |infos| ==> infos[i] == c
    ensures DcpCount(infos, isDcp) == if isDcp(c) then |infos| else 0
  {
    if |infos| > 0 {
      SameCall(infos[..|infos| - 1], isDcp, c);
    }
  }

  /** The processes of a node ask for a differential checkpoint all together or not at all. */
  lemma {:induction false} DcpAgreed(plan: Plan, states: seq<State>, steps: seq<Step>, start: int,
                                     k: nat, h: nat, j: nat, isDcp: nat -> bool)
    requires plan.Valid() && IsRun(plan, states, steps) && states[0] == Initial(plan, start) && k < |states|
    requires h < |states[k]| && j < |states[k][h].log|
    requires plan.ftiff && states[k][h].log[j].round.level != 6
    ensures DcpCount(states[k][h].log[j].round.infos, isDcp) == 0
         || DcpCount(states[k][h].log[j].round.infos, isDcp) == plan.apps
  {
    InfosOfTheirRound(plan, states, steps, start, k, h, j);
    SameCall(states[k][h].log[j].round.infos, isDcp, AllOffs(plan)[j]);
  }
}
