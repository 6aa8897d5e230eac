/** Every run of the head protocol ends, and can be brought to its end. */
module HeadRuns {
  import opened Arithmetic
  import opened HeadProtocol
  import opened HeadInvariant
  import opened HeadRounds
  import opened HeadSteps
  import opened HeadTheorems
  import opened HeadProgress

  // ----- How far a run is -----

  function Each(plan: Plan): nat {
    3 * plan.apps + 6
  }

  function HeadWork(plan: Plan, node: Node): nat {
    BlocksLength(|node.log|, Each(plan)) + Position(plan.apps, node.head)
  }

  function AppsWork(apps: seq<App>): nat {
    if |apps| == 0 then 0 else AppsWork(apps[..|apps| - 1]) + Place(apps[|apps| - 1])
  }

  function NodeWork(plan: Plan, node: Node): nat {
    HeadWork(plan, node) + AppsWork(node.apps)
  }

  function Work(plan: Plan, s: State): nat {
    if |s| == 0 then 0 else Work(plan, s[..|s| - 1]) + NodeWork(plan, s[|s| - 1])
  }

  ghost function MostHead(plan: Plan): nat {
    BlocksLength(|AllOffs(plan)| + 1, Each(plan))
  }

  ghost function MostNode(plan: Plan): nat {
    MostHead(plan) + BlocksLength(plan.apps, 4 * |plan.levels| + 3)
  }

  /** No run is longer than this. */
  ghost function Most(plan: Plan): nat {
    BlocksLength(plan.nodes, MostNode(plan))
  }

  // ----- Steps -----

  lemma {:induction false} OneAppWorks(apps: seq<App>, i: nat, a: App)
    requires i < |apps| && Place(apps[i]) <= Place(a)
    ensures AppsWork(apps[i := a]) == AppsWork(apps) + Place(a) - Place(apps[i])
  {
    var n := |apps| - 1;
    hide Place;
    if i == n {
      assert apps[i := a][..n] == apps[..n];
    } else {
      OneAppWorks(apps[..n], i, a);
      assert apps[i := a][..n] == apps[..n][i := a];
    }
  }

  lemma {:induction false} OneNodeWorks(plan: Plan, s: State, h: nat, node: Node)
    requires h < |s| && NodeWork(plan, s[h]) < NodeWork(plan, node)
    ensures Work(plan, s) < Work(plan, s[h := node])
  {
    var n := |s| - 1;
    hide NodeWork;
    if h == n {
      assert s[h := node][..n] == s[..n];
    } else {
      OneNodeWorks(plan, s[..n], h, node);
      assert s[h := node][..n] == s[..n][h := node];
    }
  }

  /** A head changes the messages of a process at most, not how far the process is. */
  lemma {:induction false} HeadKeepsRanks(plan: Plan, s: State, h: nat)
    requires h < |s| && HeadCan(s, h)
    ensures AppsWork(HeadNext(plan, s, h).apps) == AppsWork(s[h].apps)
  {
    var node, next := s[h], HeadNext(plan, s, h);
    if next.apps != node.apps {
      var i := ChangedApp(plan, s, h);
      OneAppWorks(node.apps, i, next.apps[i]);
    }
  }

  lemma ChangedApp(plan: Plan, s: State, h: nat) returns (i: nat)
    requires h < |s| && HeadCan(s, h) && HeadNext(plan, s, h).apps != s[h].apps
    ensures i < |s[h].apps| && |HeadNext(plan, s, h).apps| == |s[h].apps|
    ensures HeadNext(plan, s, h).apps == s[h].apps[i := HeadNext(plan, s, h).apps[i]]
    ensures Place(HeadNext(plan, s, h).apps[i]) == Place(s[h].apps[i])
  {
    hide LevelOf, Voted, AllFor, Requested, EndSeen;
    var head := s[h].head;
    i := 0;
    if head.Receiving? {
      i := |head.reqs|;
    } else if head.Informed? {
      i := |head.round.infos|;
    } else if head.Sending? {
      i := head.to;
    } else if head.Ending? {
      i := |head.tokens|;
    }
  }

  lemma {:induction false} HeadStepWorks(plan: Plan, start: int, s: State, h: nat)
    requires plan.Valid() && Inv(plan, start, s) && h < |s| && HeadCan(s, h)
    ensures NodeWork(plan, s[h]) < NodeWork(plan, HeadNext(plan, s, h))
  {
    var node, next := s[h], HeadNext(plan, s, h);
    HeadAdvances(plan, start, s, h);
    HeadKeepsRanks(plan, s, h);
    assert Position(plan.apps, node.head) <= 3 * plan.apps + 5 by {
      NodeParts(plan, h, start, node);
      InRange(plan, h, |node.log|, node.head);
    }
    hide Inv, HeadNext, HeadCan, BlocksLength, AppsWork, Position, AllOffs;
    BlocksLengthStep(|node.log|, Each(plan));
  }

  lemma {:induction false} AppStepWorks(plan: Plan, start: int, s: State, h: nat, i: nat)
    requires Inv(plan, start, s) && h < |s| && i < |s[h].apps| && AppCan(plan, s[h].apps[i])
    requires s[h].apps[i].phase == Processing ==> s[h].apps[i].call < |plan.levels|
    ensures var a := s[h].apps[i];
      NodeWork(plan, s[h]) < NodeWork(plan, s[h].(apps := s[h].apps[i := AppNext(plan, h, i, a)]))
  {
    var a := s[h].apps[i];
    var n := AppAt(plan, start, s, h, i);
    CallsBounded(plan, h, i, start, a, n);
    AppAdvances(plan, h, i, a);
    hide Inv, AppInv, AppNext, AppCan, BlocksLength, Place, Position;
    OneAppWorks(s[h].apps, i, AppNext(plan, h, i, a));
  }

  lemma {:induction false} CallsBounded(plan: Plan, h: nat, i: nat, start: int, a: App, n: Counts)
    requires AppInv(plan, h, i, start, a, n)
    ensures a.call <= |plan.levels| && (a.phase == Informing || a.phase == Processing ==> a.call < |plan.levels|)
    ensures Place(a) <= 4 * |plan.levels| + 3
  {
    hide Offs, AllOffs, Requests, Results, InfoCalls, Latest;
  }

  lemma {:induction false} StepWorks(plan: Plan, start: int, s: State, step: Step)
    requires plan.Valid() && Inv(plan, start, s) && Can(plan, s, step)
    ensures Work(plan, s) < Work(plan, After(plan, s, step))
  {
    hide Inv, NodeWork, Work, AppNext, HeadNext;
    if step.AppStep? {
      var a := s[step.h].apps[step.i];
      AppStepWorks(plan, start, s, step.h, step.i);
      OneNodeWorks(plan, s, step.h, s[step.h].(apps := s[step.h].apps[step.i := AppNext(plan, step.h, step.i, a)]));
    } else {
      HeadStepWorks(plan, start, s, step.h);
      OneNodeWorks(plan, s, step.h, HeadNext(plan, s, step.h));
    }
  }

  // ----- The bound -----

  lemma {:induction false} AppsBounded(apps: seq<App>, most: nat)
    requires forall i :: 0 <= i < |apps| ==> Place(apps[i]) <= most
    ensures AppsWork(apps) <= BlocksLength(|apps|, most)
  {
    hide Place, BlocksLength;
    BlocksLengthStep(0, most);
    if |apps| > 0 {
      AppsBounded(apps[..|apps| - 1], most);
      BlocksLengthStep(|apps| - 1, most);
    }
  }

  lemma {:induction false} NodeBounded(plan: Plan, h: nat, start: int, node: Node)
    requires NodeInv(plan, h, start, node)
    ensures NodeWork(plan, node) <= MostNode(plan)
  {
    hide NodeInv, AppInv, HeadFits, CountsOf, BlocksLength, AllOffs, Place, Position, AppsWork;
    NodeParts(plan, h, start, node);
    InRange(plan, h, |node.log|, node.head);
    forall i | 0 <= i < |node.apps| ensures Place(node.apps[i]) <= 4 * |plan.levels| + 3 {
      CallsBounded(plan, h, i, start, node.apps[i], CountsOf(plan, h, |node.log|, node.head, i));
    }
    AppsBounded(node.apps, 4 * |plan.levels| + 3);
    BlocksLengthMonotone(|node.log|, |AllOffs(plan)|, Each(plan));
    BlocksLengthStep(|AllOffs(plan)|, Each(plan));
  }

  lemma {:induction false} WorkBounded(plan: Plan, start: int, s: State)
    requires forall h :: 0 <= h < |s| ==> NodeInv(plan, h, start, s[h])
    ensures Work(plan, s) <= BlocksLength(|s|, MostNode(plan))
  {
    hide NodeInv, NodeWork, MostNode, BlocksLength;
    BlocksLengthStep(0, MostNode(plan));
    if |s| > 0 {
      var n := |s| - 1;
      WorkBounded(plan, start, s[..n]);
      NodeBounded(plan, n, start, s[n]);
      BlocksLengthStep(n, MostNode(plan));
    }
  }

  lemma {:induction false} RunWorks(plan: Plan, states: seq<State>, steps: seq<Step>, start: int, k: nat)
    requires plan.Valid() && IsRun(plan, states, steps) && states[0] == Initial(plan, start) && k < |states|
    ensures k <= Work(plan, states[k]) <= Most(plan)
  {
    hide Inv, Can, After, Work, Initial, Most, plan.Valid;
    RunFits(plan, states, steps, start, k);
    StateBounded(plan, start, states[k]);
    if k > 0 {
      RunWorks(plan, states, steps, start, k - 1);
      RunFits(plan, states, steps, start, k - 1);
      StepWorks(plan, start, states[k - 1], steps[k - 1]);
    }
  }

  lemma {:induction false} StateBounded(plan: Plan, start: int, s: State)
    requires Inv(plan, start, s)
    ensures Work(plan, s) <= Most(plan)
  {
    hide NodeInv, MostNode, BlocksLength, Work;
    WorkBounded(plan, start, s);
  }

  // ----- Runs to the end -----

  ghost predicate Over(s: State) {
    forall h :: 0 <= h < |s| ==> s[h].head.Stopped?
  }

  lemma {:induction false} RunSnoc(plan: Plan, states: seq<State>, steps: seq<Step>, step: Step)
    requires IsRun(plan, states, steps) && Can(plan, states[|steps|], step)
    ensures IsRun(plan, states + [After(plan, states[|steps|], step)], steps + [step])
  {
    var states', steps' := states + [After(plan, states[|steps|], step)], steps + [step];
    hide Can, After, Initial;
    assert states'[0] == states[0];
    forall k | 0 <= k < |steps'|
      ensures Can(plan, states'[k], steps'[k]) && states'[k + 1] == After(plan, states'[k], steps'[k])
    {
      if k < |steps| {
        assert states'[k] == states[k] && states'[k + 1] == states[k + 1] && steps'[k] == steps[k];
      }
    }
  }

  /** No step from number `n` on needs a buffer. */
  ghost predicate UnbufferedFrom(plan: Plan, states: seq<State>, steps: seq<Step>, n: nat) {
    |steps| <= |states| && forall k :: n <= k < |steps| ==> CanUnbuffered(plan, states[k], steps[k])
  }

  /** Every run is short, and can be brought to its end without buffering any further message. */
  lemma {:induction false} EveryRunEnds(plan: Plan, states: seq<State>, steps: seq<Step>, start: int)
    returns (states': seq<State>, steps': seq<Step>)
    requires plan.Valid() && IsRun(plan, states, steps) && states[0] == Initial(plan, start)
    ensures |steps| <= |steps'| <= Most(plan) && states <= states' && steps <= steps'
    ensures IsRun(plan, states', steps') && states'[0] == Initial(plan, start) && Over(states'[|steps'|])
    ensures UnbufferedFrom(plan, states', steps', |steps|)
    decreases Most(plan) - |steps|
  {
    RunWorks(plan, states, steps, start, |steps|);
    hide Can, CanUnbuffered, After, Initial, Most, IsRun, Work;
    RunShape(plan, states, steps);
    states', steps' := states, steps;
    if w :| 0 <= w < |states[|steps|]| && !states[|steps|][w].head.Stopped? {
      var step := NeverStuck(plan, states, steps, start, |steps|, w);
      UnbufferedIsPossible(plan, states[|steps|], step);
      RunSnoc(plan, states, steps, step);
      var more := states + [After(plan, states[|steps|], step)];
      RunWorks(plan, more, steps + [step], start, |steps| + 1);
      states', steps' := EveryRunEnds(plan, more, steps + [step], start);
      RunShape(plan, states', steps');
      assert states'[|steps|] == more[|steps|] == states[|steps|]
             && steps'[|steps|] == (steps + [step])[|steps|] == step;
    }
  }

  lemma UnbufferedIsPossible(plan: Plan, s: State, step: Step)
    requires CanUnbuffered(plan, s, step)
    ensures Can(plan, s, step)
  {
  }

  lemma RunShape(plan: Plan, states: seq<State>, steps: seq<Step>)
    requires IsRun(plan, states, steps)
    ensures |states| == |steps| + 1
  {
  }

  lemma StartRun(plan: Plan, start: int)
    ensures IsRun(plan, [Initial(plan, start)], [])
  {
  }

  /** The whole protocol can be run without any buffering, and then everything has been handled. */
  lemma {:induction false} RunsUnbuffered(plan: Plan, start: int) returns (states: seq<State>, steps: seq<Step>)
    requires plan.Valid()
    ensures IsRun(plan, states, steps) && states[0] == Initial(plan, start)
    ensures UnbufferedFrom(plan, states, steps, 0) && Over(states[|steps|])
    ensures forall h :: 0 <= h < |states[|steps|]| ==> |states[|steps|][h].log| == |AllOffs(plan)|
    ensures forall h, i :: 0 <= h < |states[|steps|]| && 0 <= i < |states[|steps|][h].apps| ==>
      Finished(plan, states[|steps|][h].apps[i])
  {
    StartRun(plan, start);
    states, steps := EveryRunEnds(plan, [Initial(plan, start)], [], start);
    forall h | 0 <= h < |states[|steps|]|
      ensures |states[|steps|][h].log| == |AllOffs(plan)|
      ensures forall i :: 0 <= i < |states[|steps|][h].apps| ==> Finished(plan, states[|steps|][h].apps[i])
    {
      StoppedIsDone(plan, states, steps, start, |steps|, h);
    }
    hide IsRun, Finished, AllOffs, UnbufferedFrom;
  }
}
