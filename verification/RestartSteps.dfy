/** What a clean-up, a stop and the loss of a node leave, and the two levels that the processes keep over a run. */
module RestartSteps {
  import opened Multilevel
  import opened Restart

  // ----- A clean-up, from its first removal to its last

  ghost predicate Cleaning(states: seq<State>, steps: seq<Step>, level: nat) {
    && |states| == |steps| + 1 && 0 < |steps|
    && (forall k :: 0 <= k < |steps| ==>
          Sane(states[k]) && Can(states[k], steps[k]) && states[k + 1] == After(states[k], steps[k]))
    && steps[0] == Clean(level)
    && (forall k :: 1 <= k < |steps| ==> steps[k].NodeStep? || steps[k].SharedStep?)
  }

  lemma {:induction false} CleaningKept(states: seq<State>, steps: seq<Step>, level: nat, k: nat)
    requires Cleaning(states, steps, level) && 1 <= k < |states|
    ensures Sane(states[k]) && Outcome(states[k]) == Outcome(states[1])
  {
    if k == 1 {
      CleanSane(states[0], level);
    } else {
      CleaningKept(states, steps, level, k - 1);
      InterleavingIrrelevant(states[k - 1], steps[k - 1]);
      hide Outcome, Sane, After, Can;
    }
  }

  lemma {:induction false} CleanSane(s: State, level: nat)
    requires Sane(s) && Can(s, Clean(level))
    ensures Sane(After(s, Clean(level)))
  {
    hide CleanNode, CleanShared;
  }

  /**
   * However the processes interleave: a clean-up of level 1 to 6 removes metadata and local directories of the levels
   * up to its own, those of level 4 and the global files for 4 and 5 only, and nothing else.
   */
  lemma {:induction false} CompletedCleanUp(states: seq<State>, steps: seq<Step>, level: nat)
    requires Cleaning(states, steps, level) && Idle(states[|steps|]) && 1 <= level <= 6
    ensures var before, after := states[0].store, states[|steps|].store;
      && |after.shared.meta| == |before.shared.meta| == 5 && |after.nodes| == |before.nodes|
      && (forall l :: 1 <= l < 4 ==> after.shared.meta[l] == if l <= level then Missing else before.shared.meta[l])
      && after.shared.meta[4] == (if level == 4 || level == 5 then Missing else before.shared.meta[4])
      && after.shared.pfs == (if level == 4 || level == 5 then Missing else before.shared.pfs)
      && after.shared.tmp == before.shared.tmp && after.shared.metaTmp == before.shared.metaTmp
      && forall p :: 0 <= p < |after.nodes| ==> NodeCleaned(before.nodes[p], after.nodes[p], level)
  {
    var s, after := states[1], states[|steps|].store;
    CleaningKept(states, steps, level, |steps|);
    IdleIsOutcome(states[|steps|]);
    CleanSane(states[0], level);
    assert s == After(states[0], steps[0]) && after == Outcome(s);
    hide Idle;
    CleansUpTo(level);
    hide CleanShared, CleanNode, NodeOutcome, SharedOutcome;
    SharedCleaned(s.store.shared, level);
    forall p | 0 <= p < |after.nodes| ensures NodeCleaned(s.store.nodes[p], after.nodes[p], level) {
      assert after.nodes[p] == NodeOutcome(s.store.nodes[p], s.nodeTodo[p]);
      NodeIsCleaned(s.store.nodes[p], level);
    }
    hide NodeCleaned;
  }

  ghost predicate NodeCleaned(before: NodeDirs, after: NodeDirs, level: nat) {
    && |before.level| == |after.level| == 4 && after.tmp == before.tmp
    && forall l :: 1 <= l < 4 ==> after.level[l] == if l <= level then Missing else before.level[l]
  }

  lemma {:induction false} NodeIsCleaned(d: NodeDirs, level: nat)
    requires |d.level| == 4 && 1 <= level
    ensures NodeCleaned(d, NodeOutcome(d, CleanNode(level)), level)
  {
    CleansUpTo(level);
    hide CleanNode, CleanShared;
    NodeRemovals(d, CleanNode(level), []);
    assert CleanNode(level) + [] == CleanNode(level);
  }

  lemma {:induction false} SharedCleaned(d: SharedDirs, level: nat)
    requires |d.meta| == 5 && 1 <= level
    ensures SharedRemoved(d, SharedOutcome(d, CleanShared(level)), CleanShared(level))
  {
    CleansUpTo(level);
    hide CleanNode, CleanShared;
    SharedRemovals(d, CleanShared(level), []);
    assert CleanShared(level) + [] == CleanShared(level);
  }

  // ----- A stop, and the loss of a node

  /** After a stop nothing that was begun goes on, the directories are as they were, and no level is remembered. */
  lemma {:induction false} StopEndsAll(s: State)
    requires Sane(s)
    ensures var after := After(s, Stop);
      && after.store == s.store && Idle(after) && Sane(after)
      && after.ckptLvel == 0 && after.lastCkptLvel == 0 && after.next == s.next
      && !Can(after, SharedStep) && forall p :: !Can(after, NodeStep(p))
  {
  }

  /** A lost node has no files of any level any more, and does nothing more; all others are untouched. */
  lemma {:induction false} LostNodeHasNothing(s: State, p: nat)
    requires Sane(s) && p < |s.store.nodes|
    ensures var after := After(s, Lose(p));
      && Sane(after) && after.nodeTodo[p] == [] && after.store.shared == s.store.shared
      && after.store.nodes[p].tmp.Missing?
      && (forall l :: 1 <= l < 4 ==>
            after.store.nodes[p].level[l].Missing?
            && (s.store.shared.meta[l].Holds? ==> WithoutFiles(after.store, l)[p]))
      && (forall q :: 0 <= q < |s.store.nodes| && q != p ==>
            after.store.nodes[q] == s.store.nodes[q] && after.nodeTodo[q] == s.nodeTodo[q])
  {
  }

  // ----- The two levels over a run

  /** The step decides the level of the latest success. */
  predicate DecidesLast(step: Step) {
    step.Take? || step.Recovered? || step.Stop?
  }

  /** The step decides the level of the latest call: a call for the heads that could not write does not. */
  predicate DecidesLevel(step: Step) {
    DecidesLast(step) || (step.Fail? && (step.wrote || step.call.isInline))
  }

  /**
   * In every state of every run: the level of the latest success is that of the latest checkpoint or recovery, and 0
   * after a stop.
   */
  lemma {:induction false} LastLevelIs(nodes: nat, states: seq<State>, steps: seq<Step>, k: nat, b: nat)
    requires IsRun(nodes, states, steps) && b < k < |states| && DecidesLast(steps[b])
    requires forall d :: b < d < k ==> !DecidesLast(steps[d])
    ensures states[k].lastCkptLvel ==
            (match steps[b] case Take(call) => call.level case Recovered(level) => level case _ => 0)
  {
    hide Idle, Written, Everywhere, CleanNode, CleanShared, ReplaceNode, ReplaceShared, NodeExec, SharedExec;
    if b < k - 1 {
      LastLevelIs(nodes, states, steps, k - 1, b);
      assert !DecidesLast(steps[k - 1]);
    }
    assert states[k - 1 + 1] == After(states[k - 1], steps[k - 1]);
  }

  /** The level of the latest call is that of the latest one that was written; 6 if that was inline and failed to be. */
  lemma {:induction false} LevelIs(nodes: nat, states: seq<State>, steps: seq<Step>, k: nat, b: nat)
    requires IsRun(nodes, states, steps) && b < k < |states| && DecidesLevel(steps[b])
    requires forall d :: b < d < k ==> !DecidesLevel(steps[d])
    ensures states[k].ckptLvel ==
            (match steps[b]
             case Take(call) => call.level
             case Recovered(level) => level
             case Fail(call, wrote) => if wrote then call.level else 6
             case _ => 0)
  {
    hide Idle, Written, Everywhere, CleanNode, CleanShared, ReplaceNode, ReplaceShared, NodeExec, SharedExec;
    if b < k - 1 {
      LevelIs(nodes, states, steps, k - 1, b);
      assert !DecidesLevel(steps[k - 1]);
    }
    assert states[k - 1 + 1] == After(states[k - 1], steps[k - 1]);
  }
}
