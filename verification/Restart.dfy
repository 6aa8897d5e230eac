/** Cleaning, replacing and recovering as the processes run them, and what restart finds. */
module Restart {
  import opened Multilevel

  // ----- From the first removal to the last rename -----

  ghost predicate Replacing(states: seq<State>, steps: seq<Step>, call: Call) {
    && |states| == |steps| + 1 && 0 < |steps|
    && (forall k :: 0 <= k < |steps| ==>
          Sane(states[k]) && Can(states[k], steps[k]) && states[k + 1] == After(states[k], steps[k]))
    && steps[0] == Take(call)
    && (forall k :: 1 <= k < |steps| ==> steps[k].NodeStep? || steps[k].SharedStep?)
  }

  lemma {:induction false} OutcomeKept(states: seq<State>, steps: seq<Step>, call: Call, k: nat)
    requires Replacing(states, steps, call) && 1 <= k < |states|
    ensures Sane(states[k]) && Outcome(states[k]) == Outcome(states[1])
  {
    if k == 1 {
      TakeSane(states[0], call);
    } else {
      OutcomeKept(states, steps, call, k - 1);
      InterleavingIrrelevant(states[k - 1], steps[k - 1]);
      hide Outcome, Sane, After, Can;
    }
  }

  lemma {:induction false} TakeSane(s: State, call: Call)
    requires Sane(s) && Can(s, Take(call))
    ensures Sane(After(s, Take(call)))
  {
    hide ReplaceNode, ReplaceShared;
  }

  /**
   * However the processes interleave: when all are done the new checkpoint is the one of its level,
   * lower levels are gone and higher levels are as before.
   */
  lemma {:induction false} CompletedReplacement(states: seq<State>, steps: seq<Step>, call: Call)
    requires Replacing(states, steps, call) && Idle(states[|steps|])
    ensures 1 <= call.level <= 4
    ensures var before, after, level, dir :=
            states[0].store, states[|steps|].store, call.level, Holds(states[0].next, call.id);
      && WellFormed(after) && |after.nodes| == |before.nodes|
      && after.shared.meta[level] == dir
      && (forall l :: 1 <= l < level ==> after.shared.meta[l] == Missing)
      && (forall l :: level < l < 5 ==> after.shared.meta[l] == before.shared.meta[l])
      && after.shared.pfs == (if level == 4 then dir else before.shared.pfs)
      && after.shared.metaTmp == Missing && after.shared.tmp == (if level == 4 then Missing else before.shared.tmp)
      && forall p :: 0 <= p < |after.nodes| ==>
           ((level < 4 ==> after.nodes[p].level[level] == dir)
            && (level == 4 && !call.isInline ==> after.nodes[p].level[1] == dir)
            && after.nodes[p].tmp == (if level == 4 && call.isInline then before.nodes[p].tmp else Missing)
            && (forall l :: 1 <= l < 4 && l < level && !(l == 1 && level == 4 && !call.isInline) ==>
                  after.nodes[p].level[l] == Missing)
            && (forall l :: level < l < 4 ==> after.nodes[p].level[l] == before.nodes[p].level[l]))
  {
    var s, level, dir := states[1], call.level, Holds(states[0].next, call.id);
    var after := states[|steps|].store;
    OutcomeKept(states, steps, call, |steps|);
    IdleIsOutcome(states[|steps|]);
    TakeSane(states[0], call);
    assert s == After(states[0], steps[0]);
    assert after == Outcome(s);
    ReplacedShared(s.store.shared, level);
    forall p | 0 <= p < |after.nodes|
      ensures
        && (level < 4 ==> after.nodes[p].level[level] == dir)
        && (level == 4 && !call.isInline ==> after.nodes[p].level[1] == dir)
        && after.nodes[p].tmp == (if level == 4 && call.isInline then states[0].store.nodes[p].tmp else Missing)
        && (forall l :: 1 <= l < 4 && l < level && !(l == 1 && level == 4 && !call.isInline) ==>
              after.nodes[p].level[l] == Missing)
        && (forall l :: level < l < 4 ==> after.nodes[p].level[l] == states[0].store.nodes[p].level[l])
    {
      assert after.nodes[p] == NodeOutcome(s.store.nodes[p], s.nodeTodo[p]);
      ReplacedNode(s.store.nodes[p], level, call.isInline);
      hide NodeOutcome, ReplaceNode, ReplaceShared, SharedOutcome;
    }
    hide NodeOutcome, ReplaceNode, ReplaceShared, SharedOutcome, Idle;
  }

  // ----- Stopped in between -----

  /** What is still to do concerns the levels up to `level` only. */
  ghost predicate UpTo(s: State, level: nat) {
    && (forall k :: 0 <= k < |s.sharedTodo| ==> SharedUpTo(s.sharedTodo[k], level))
    && (forall p, k :: 0 <= p < |s.nodeTodo| && 0 <= k < |s.nodeTodo[p]| ==> NodeUpTo(s.nodeTodo[p][k], level))
  }

  predicate SharedUpTo(op: SharedOp, level: nat) {
    if op.RmMeta? || op.MoveMeta? then 1 <= op.l <= level else level == 4 && (op.RmPfs? || op.MovePfs?)
  }

  predicate NodeUpTo(op: NodeOp, level: nat) {
    !op.RmTmp? && 1 <= op.l <= level && op.l < 4
  }

  ghost predicate HigherSame(a: Store, b: Store, level: nat) {
    && WellFormed(a) && WellFormed(b) && |a.nodes| == |b.nodes|
    && (forall l :: level < l < 5 ==> b.shared.meta[l] == a.shared.meta[l])
    && (level < 4 ==> b.shared.pfs == a.shared.pfs)
    && (forall p, l :: 0 <= p < |a.nodes| && level < l < 4 ==> b.nodes[p].level[l] == a.nodes[p].level[l])
  }

  lemma {:induction false} OneStepBelow(s: State, step: Step, first: Store, level: nat)
    requires Sane(s) && Can(s, step) && UpTo(s, level) && HigherSame(first, s.store, level)
    requires step.NodeStep? || step.SharedStep?
    ensures Sane(After(s, step)) && UpTo(After(s, step), level) && HigherSame(first, After(s, step).store, level)
  {
    if step.NodeStep? {
      assert NodeUpTo(s.nodeTodo[step.p][0], level);
    } else {
      assert SharedUpTo(s.sharedTodo[0], level);
    }
  }

  lemma {:induction false} TakeUpTo(s: State, call: Call)
    requires Sane(s) && Can(s, Take(call))
    ensures var next := After(s, Take(call));
            Sane(next) && UpTo(next, call.level) && HigherSame(s.store, next.store, call.level)
  {
    var level, isInline := call.level, call.isInline;
    TakeSane(s, call);
    CleansUpTo(level);
    hide CleanShared, CleanNode;
    assert forall k :: 0 <= k < |ReplaceShared(level)| ==> SharedUpTo(ReplaceShared(level)[k], level);
    assert forall k :: 0 <= k < |ReplaceNode(level, isInline)| ==> NodeUpTo(ReplaceNode(level, isInline)[k], level);
    hide ReplaceShared, ReplaceNode, SharedUpTo, NodeUpTo;
  }

  /** A stop at any point of a replacement leaves the files and metadata of all higher levels as they were. */
  lemma {:induction false} HigherLevelsSurvive(states: seq<State>, steps: seq<Step>, call: Call, k: nat)
    requires Replacing(states, steps, call) && 1 <= k < |states|
    ensures Sane(states[k]) && UpTo(states[k], call.level)
    ensures HigherSame(states[0].store, states[k].store, call.level)
    ensures HigherSame(states[0].store, After(states[k], Stop).store, call.level)
  {
    if k == 1 {
      TakeUpTo(states[0], call);
    } else {
      HigherLevelsSurvive(states, steps, call, k - 1);
      OneStepBelow(states[k - 1], steps[k - 1], states[0].store, call.level);
    }
    hide UpTo, HigherSame, Sane;
  }

  // ----- The code of one process -----

  /** The directories as the process responsible for them sees them. */
  class Directories {
    var node: NodeDirs
    var shared: SharedDirs

    ghost predicate Valid()
      reads this
    {
      |node.level| == 4 && |shared.meta| == 5
    }

    method RmMetaDir(l: nat, flag: bool)
      requires Valid() && 1 <= l < 5
      modifies this
      ensures Valid() && node == old(node)
      ensures shared == if flag then SharedExec(old(shared), RmMeta(l)) else old(shared)
    {
      if flag {
        shared := shared.(meta := shared.meta[l := Missing]);
      }
    }

    method RmLevelDir(l: nat, flag: bool)
      requires Valid() && 1 <= l < 4
      modifies this
      ensures Valid() && shared == old(shared)
      ensures node == if flag then NodeExec(old(node), RmLevel(l)) else old(node)
    {
      if flag {
        node := node.(level := node.level[l := Missing]);
      }
    }

    /** Remove the levels a clean-up of `level` covers. */
    method Clean(level: nat, globalFlag: bool, nodeFlag: bool)
      requires Valid()
      modifies this
      ensures Valid()
      ensures node == if nodeFlag then NodeOutcome(old(node), CleanNode(level)) else old(node)
      ensures shared == if globalFlag then SharedOutcome(old(shared), CleanShared(level)) else old(shared)
    {
      CleanedNode(node, level);
      CleanedShared(shared, level);
      hide NodeOutcome, SharedOutcome, CleanNode, CleanShared;
      if level == 0 {
        if globalFlag {
          shared := shared.(metaTmp := Missing, tmp := Missing);
        }
        if nodeFlag {
          node := node.(tmp := Missing);
        }
      }
      if level >= 1 {
        RmMetaDir(1, globalFlag);
        RmLevelDir(1, nodeFlag);
      }
      if level >= 2 {
        RmMetaDir(2, globalFlag);
        RmLevelDir(2, nodeFlag);
      }
      if level >= 3 {
        RmMetaDir(3, globalFlag);
        RmLevelDir(3, nodeFlag);
      }
      if level == 4 || level == 5 {
        RmMetaDir(4, globalFlag);
        if globalFlag {
          shared := shared.(pfs := Missing);
        }
      }
    }
  }

  lemma {:induction false} CleanedNode(d: NodeDirs, level: nat)
    requires |d.level| == 4
    ensures NodeOutcome(d, CleanNode(level)) == NodeDirs(
      if level == 0 then Missing else d.tmp,
      [d.level[0], if level >= 1 then Missing else d.level[1],
       if level >= 2 then Missing else d.level[2], if level >= 3 then Missing else d.level[3]])
  {
    if level == 0 {
      assert CleanNode(0) == [RmTmp];
      assert NodeOutcome(d.(tmp := Missing), []) == d.(tmp := Missing);
    } else {
      CleansUpTo(level);
      hide CleanNode, CleanShared;
      NodeRemovals(d, CleanNode(level), []);
      assert CleanNode(level) + [] == CleanNode(level);
      var r :| NodeRemoved(d, r, CleanNode(level)) && NodeOutcome(d, CleanNode(level)) == NodeOutcome(r, []);
      assert NodeOutcome(r, []) == r;
    }
  }

  lemma {:induction false} CleanedShared(d: SharedDirs, level: nat)
    requires |d.meta| == 5
    ensures SharedOutcome(d, CleanShared(level)) == SharedDirs(
      if level == 0 then Missing else d.tmp,
      if level == 0 then Missing else d.metaTmp,
      if level == 4 || level == 5 then Missing else d.pfs,
      [d.meta[0], if level >= 1 then Missing else d.meta[1], if level >= 2 then Missing else d.meta[2],
       if level >= 3 then Missing else d.meta[3], if level == 4 || level == 5 then Missing else d.meta[4]])
  {
    if level == 0 {
      assert CleanShared(0) == [RmMetaTmp, RmGlobalTmp];
      assert [RmMetaTmp, RmGlobalTmp][1..] == [RmGlobalTmp];
      var e := d.(metaTmp := Missing);
      assert SharedOutcome(e, [RmGlobalTmp]) == e.(tmp := Missing);
    } else {
      CleansUpTo(level);
      hide CleanNode, CleanShared;
      SharedRemovals(d, CleanShared(level), []);
      assert CleanShared(level) + [] == CleanShared(level);
      var r :| SharedRemoved(d, r, CleanShared(level)) && SharedOutcome(d, CleanShared(level)) == SharedOutcome(r, []);
      assert SharedOutcome(r, []) == r;
    }
  }

  // ----- Restart -----

  /** The fields recovery sets. */
  class Recovery {
    var ckptLvel: nat
    var ckptID: nat
    var lastCkptLvel: nat

    constructor ()
      ensures ckptLvel == 0 && ckptID == 0 && lastCkptLvel == 0
    {
      ckptLvel, ckptID, lastCkptLvel := 0, 0, 0;
    }

    /**
     * Try the existing levels in ascending order; `works` says at which level recovery succeeds.  The id is that in
     * the name of the checkpoint's files.
     */
    method RecoverFiles(meta: seq<Dir>, works: seq<bool>) returns (ok: bool)
      requires |meta| == |works| == 5
      modifies this
      ensures ok <==> exists l :: 1 <= l < 5 && Recoverable(meta, works, l)
      ensures ok ==>
              1 <= ckptLvel < 5 && Recoverable(meta, works, ckptLvel) && ckptID == meta[ckptLvel].id
                && lastCkptLvel == ckptLvel
      ensures ok ==> forall l :: 1 <= l < ckptLvel ==> !Recoverable(meta, works, l)
      ensures !ok ==> ckptLvel == 0 && ckptID == 0 && lastCkptLvel == old(lastCkptLvel)
    {
      var level := 1;
      while level < 5
        invariant 1 <= level <= 5
        invariant forall l :: 1 <= l < level ==> !Recoverable(meta, works, l)
        invariant lastCkptLvel == old(lastCkptLvel)
      {
        if meta[level].Holds? {
          var id := meta[level].id;
          ckptLvel, ckptID := level, id;
          if works[level] {
            assert Recoverable(meta, works, level);
            ckptID, ckptLvel, lastCkptLvel := id, level, level;
            return true;
          }
        }
        level := level + 1;
      }
      ckptLvel, ckptID := 0, 0;
      ok := false;
    }
  }

  predicate Recoverable(meta: seq<Dir>, works: seq<bool>, l: nat)
    requires |meta| == |works| == 5 && l < 5
  {
    meta[l].Holds? && works[l]
  }

  // ----- What the directories allow -----

  /**
   * Which lost nodes a level makes up for: none at level 1; at level 2 any as long as no node is lost together with
   * its right neighbour in its group; at level 3 at most half of the nodes of a group, since every node holds one
   * checkpoint and one encoded file of a group for each of its processes.
   */
  ghost predicate Tolerates(level: nat, groupSize: nat, lost: seq<bool>)
    requires 0 < groupSize && |lost| % groupSize == 0
  {
    if level == 1 then forall p :: 0 <= p < |lost| ==> !lost[p]
    else if level == 2 then
      forall p :: 0 <= p < |lost| ==> !(lost[p] && RightOf(p, groupSize) < |lost| && lost[RightOf(p, groupSize)])
    else
      forall g :: 0 <= g && (g + 1) * groupSize <= |lost| ==>
        2 * LostIn(lost[g * groupSize..(g + 1) * groupSize]) <= groupSize
  }

  function RightOf(p: nat, groupSize: nat): nat
    requires 0 < groupSize
  {
    p / groupSize * groupSize + (p % groupSize + 1) % groupSize
  }

  function LostIn(lost: seq<bool>): nat {
    if |lost| == 0 then 0 else LostIn(lost[..|lost| - 1]) + if lost[|lost| - 1] then 1 else 0
  }

  /** The nodes without the files of the checkpoint that the metadata of a level names. */
  ghost function WithoutFiles(s: Store, level: nat): (lost: seq<bool>)
    requires WellFormed(s) && 1 <= level < 4
    ensures |lost| == |s.nodes|
  {
    seq(|s.nodes|, p requires 0 <= p < |s.nodes| => s.nodes[p].level[level] != s.shared.meta[level])
  }

  /** A level can be recovered: its metadata exists, and enough of the files it names. */
  ghost predicate Works(s: Store, groupSize: nat, level: nat)
    requires WellFormed(s) && 1 <= level < 5 && 0 < groupSize && |s.nodes| % groupSize == 0
  {
    && s.shared.meta[level].Holds?
    && if level == 4 then s.shared.pfs == s.shared.meta[4] else Tolerates(level, groupSize, WithoutFiles(s, level))
  }

  /** In every reachable state the first level that can be recovered holds the newest checkpoint that can be. */
  lemma {:induction false} FirstIsNewest(nodes: nat, states: seq<State>, steps: seq<Step>, k: nat, groupSize: nat,
                                         first: nat, l: nat)
    requires IsRun(nodes, states, steps) && k < |states| && WellFormed(states[k].store)
    requires 0 < groupSize && |states[k].store.nodes| % groupSize == 0
    requires 1 <= first < 5 && Works(states[k].store, groupSize, first)
    requires forall m :: 1 <= m < first ==> !Works(states[k].store, groupSize, m)
    requires 1 <= l < 5 && Works(states[k].store, groupSize, l)
    ensures states[k].store.shared.meta[l].ckpt <= states[k].store.shared.meta[first].ckpt
    ensures l != first ==> states[k].store.shared.meta[l].ckpt < states[k].store.shared.meta[first].ckpt
  {
    AlwaysOrdered(nodes, states, steps, k);
    hide IsRun, Sane, Tolerates;
  }

  lemma {:induction false} NobodyLost(level: nat, groupSize: nat, lost: seq<bool>)
    requires 0 < groupSize && |lost| % groupSize == 0 && forall p :: 0 <= p < |lost| ==> !lost[p]
    ensures Tolerates(level, groupSize, lost)
  {
    forall g | 0 <= g && (g + 1) * groupSize <= |lost|
      ensures 2 * LostIn(lost[g * groupSize..(g + 1) * groupSize]) <= groupSize
    {
      NoneIn(lost[g * groupSize..(g + 1) * groupSize]);
    }
  }

  lemma {:induction false} NoneIn(lost: seq<bool>)
    requires forall p :: 0 <= p < |lost| ==> !lost[p]
    ensures LostIn(lost) == 0
  {
    if |lost| > 0 {
      NoneIn(lost[..|lost| - 1]);
    }
  }

  /** A completed replacement can be recovered. */
  lemma {:induction false} CompletedWorks(states: seq<State>, steps: seq<Step>, call: Call, groupSize: nat)
    requires Replacing(states, steps, call) && Idle(states[|steps|])
    requires 0 < groupSize && |states[0].store.nodes| % groupSize == 0
    ensures WellFormed(states[|steps|].store) && |states[|steps|].store.nodes| == |states[0].store.nodes|
            && 1 <= call.level <= 4
    ensures Works(states[|steps|].store, groupSize, call.level)
  {
    CompletedReplacement(states, steps, call);
    hide Replacing, Idle;
    if call.level < 4 {
      NobodyLost(call.level, groupSize, WithoutFiles(states[|steps|].store, call.level));
    }
  }

  // ----- What a stop leaves -----

  lemma {:induction false} HigherWork(a: Store, b: Store, groupSize: nat, level: nat, m: nat)
    requires HigherSame(a, b, level) && 0 < groupSize && |a.nodes| % groupSize == 0 && level < m < 5 && 1 <= m
    ensures Works(b, groupSize, m) <==> Works(a, groupSize, m)
  {
    if m < 4 {
      assert WithoutFiles(a, m) == WithoutFiles(b, m);
    }
  }

  lemma {:induction false} InvKept(states: seq<State>, steps: seq<Step>, call: Call, k: nat)
    requires Replacing(states, steps, call) && Inv(states[0]) && k < |states|
    ensures Inv(states[k])
  {
    if k > 0 {
      InvKept(states, steps, call, k - 1);
      hide Inv, Sane, After, Can;
      StepKeepsOrder(states[k - 1], steps[k - 1]);
    }
  }

  /** The old metadata up to the level of the call are removed, and the new ones are not in place. */
  predicate InBetween(s: State, level: nat) {
    && HasMove(s.sharedTodo) && s.sharedTodo[|s.sharedTodo| - 1] == MoveMeta(level)
    && forall k :: 0 <= k < |s.sharedTodo| ==> !s.sharedTodo[k].RmMeta?
  }

  /**
   * A stop at any point of a replacement leaves every higher level as recoverable as it was.  In between the last
   * removal and the last rename of metadata nothing else can be recovered, neither old nor new.
   */
  lemma {:induction false} StopLeaves(states: seq<State>, steps: seq<Step>, call: Call, k: nat, groupSize: nat, m: nat)
    requires Replacing(states, steps, call) && Inv(states[0]) && 1 <= k < |states| && 1 <= m < 5
    requires 0 < groupSize && |states[0].store.nodes| % groupSize == 0
    ensures Sane(states[k])
    ensures var after := After(states[k], Stop).store;
      && WellFormed(states[0].store) && WellFormed(after) && |after.nodes| == |states[0].store.nodes|
      && (call.level < m ==> (Works(after, groupSize, m) <==> Works(states[0].store, groupSize, m)))
      && (m <= call.level && InBetween(states[k], call.level) ==> !Works(after, groupSize, m))
  {
    HigherLevelsSurvive(states, steps, call, k);
    InvKept(states, steps, call, k);
    var after := After(states[k], Stop).store;
    if call.level < m {
      HigherWork(states[0].store, after, groupSize, call.level, m);
    } else if InBetween(states[k], call.level) {
      assert after == states[k].store;
      RemovedUpTo(states[k], call.level, m);
    }
    hide Replacing, Inv, UpTo, HigherSame, InBetween, Tolerates;
  }

  lemma {:induction false} RemovedUpTo(s: State, level: nat, m: nat)
    requires Inv(s) && InBetween(s, level) && 1 <= m <= level < 5
    ensures s.store.shared.meta[m].Missing?
  {
    var last := |s.sharedTodo| - 1;
    assert s.sharedTodo[last].MoveMeta?;
    assert RmMeta(m) !in s.sharedTodo[..last];
  }

  // ----- Keeping the last checkpoint at the end -----

  /** `Undefined`: the level is no index of the table of levels. */
  datatype Saved = Saved(dirs: SharedDirs) | Undefined

  /** What a flush of a level finds on all nodes; without any success that is the temporary directory. */
  ghost function Flushed(s: Store, level: nat): Dir
    requires WellFormed(s) && level < 4
  {
    if exists d :: OnAllNodes(s, level, d) then (var d :| OnAllNodes(s, level, d); d) else Missing
  }

  ghost predicate OnAllNodes(s: Store, level: nat, d: Dir)
    requires WellFormed(s) && level < 4
  {
    && 0 < |s.nodes| && d.Holds?
    && forall p :: 0 <= p < |s.nodes| ==> d == if level == 0 then s.nodes[p].tmp else s.nodes[p].level[level]
  }

  /**
   * The files of level `lastCkptLvel` are flushed to the global temporary directory; then the old level 4 is
   * removed, the files are renamed, and so is the metadata of level `ckptLvel`.
   */
  ghost function SaveLast(s: Store, lastCkptLvel: nat, ckptLvel: nat): Saved
    requires WellFormed(s) && lastCkptLvel < 4
  {
    var flushed := s.shared.(tmp := Flushed(s, lastCkptLvel));
    var moved := SharedExec(SharedExec(flushed, RmPfs), MovePfs);
    var cleared := SharedExec(moved, RmMeta(4));
    if ckptLvel < 1 || 5 <= ckptLvel then
      Undefined
    else if CanMove(cleared.meta[ckptLvel], cleared.meta[4]) then
      Saved(cleared.(meta := cleared.meta[ckptLvel := Missing][4 := cleared.meta[ckptLvel]]))
    else
      Saved(cleared)
  }

  /** The kept files and the kept metadata are of one checkpoint. */
  ghost predicate Consistent(r: Saved) {
    r.Saved? && |r.dirs.meta| == 5 && r.dirs.pfs.Holds? && r.dirs.meta[4] == r.dirs.pfs
  }

  /**
   * Where the files of the latest success are those that its metadata names, what is kept is one checkpoint exactly
   * if there was a success and the latest call was of its level.  Files in the temporary directory have no metadata.
   */
  lemma {:induction false} SavedConsistentIff(s: Store, lastCkptLvel: nat, ckptLvel: nat)
    requires WellFormed(s) && lastCkptLvel < 4 && Ordered(s.shared.meta)
    requires 0 < lastCkptLvel && Flushed(s, lastCkptLvel).Holds? ==>
             s.shared.meta[lastCkptLvel] == Flushed(s, lastCkptLvel)
    requires lastCkptLvel == 0 ==> Unnamed(s, Flushed(s, 0))
    ensures SaveLast(s, lastCkptLvel, ckptLvel).Saved? <==> 1 <= ckptLvel < 5
    ensures Consistent(SaveLast(s, lastCkptLvel, ckptLvel))
       <==> 0 < lastCkptLvel && Flushed(s, lastCkptLvel).Holds? && ckptLvel == lastCkptLvel
  {
    hide Flushed;
  }

  /** No metadata name these files. */
  ghost predicate Unnamed(s: Store, d: Dir)
    requires WellFormed(s)
  {
    forall l :: 1 <= l < 5 ==> s.shared.meta[l] != d || d.Missing?
  }

  /** When nothing is found to flush, nothing is kept, and the old level 4 is lost. */
  lemma {:induction false} NothingToKeep(s: Store, ckptLvel: nat)
    requires WellFormed(s) && 1 <= ckptLvel < 5 && Flushed(s, 0).Missing?
    ensures SaveLast(s, 0, ckptLvel).dirs.pfs.Missing?
  {
    hide Flushed;
  }

  lemma NothingIsFlushed(s: Store)
    requires WellFormed(s) && NoTemporary(s)
    ensures Flushed(s, 0).Missing?
  {
    forall d ensures !OnAllNodes(s, 0, d) {
      if |s.nodes| > 0 {
        assert s.nodes[0].tmp.Missing?;
      }
    }
  }

  /** Until the local levels are cleaned, restart still finds the newest first exactly if no level in between exists. */
  lemma {:induction false} SavedOrderedIff(s: Store, lastCkptLvel: nat)
    requires WellFormed(s) && 1 <= lastCkptLvel < 4 && s.shared.meta[lastCkptLvel].Holds? && Ordered(s.shared.meta)
    ensures SaveLast(s, lastCkptLvel, lastCkptLvel).Saved?
    ensures Ordered(SaveLast(s, lastCkptLvel, lastCkptLvel).dirs.meta)
       <==> forall l :: lastCkptLvel < l < 4 ==> s.shared.meta[l].Missing?
  {
    hide Flushed;
    var meta, r := s.shared.meta, SaveLast(s, lastCkptLvel, lastCkptLvel).dirs;
    assert r.meta[4] == meta[lastCkptLvel] && r.meta[lastCkptLvel] == Missing;
    assert forall l :: 1 <= l < 4 && l != lastCkptLvel ==> r.meta[l] == meta[l];
    if l :| lastCkptLvel < l < 4 && meta[l].Holds? {
      assert r.meta[l].ckpt < r.meta[4].ckpt;
    }
  }

  // ----- Both failures are reached -----

  function Remaining(todo: seq<seq<NodeOp>>): nat {
    if |todo| == 0 then 0 else Remaining(todo[..|todo| - 1]) + |todo[|todo| - 1]|
  }

  lemma {:induction false} OneLess(todo: seq<seq<NodeOp>>, p: nat)
    requires p < |todo| && todo[p] != []
    ensures Remaining(todo[p := todo[p][1..]]) == Remaining(todo) - 1
  {
    var n := |todo| - 1;
    if p == n {
      assert todo[p := todo[p][1..]][..n] == todo[..n];
    } else {
      OneLess(todo[..n], p);
      assert todo[p := todo[p][1..]][..n] == todo[..n][p := todo[p][1..]];
    }
  }

  lemma {:induction false} RunOn(nodes: nat, states: seq<State>, steps: seq<Step>, step: Step)
    requires IsRun(nodes, states, steps) && Can(states[|steps|], step)
    ensures Sane(states[|steps|]) && IsRun(nodes, states + [After(states[|steps|], step)], steps + [step])
  {
    AlwaysOrdered(nodes, states, steps, |steps|);
    var states', steps' := states + [After(states[|steps|], step)], steps + [step];
    hide Inv, Sane, Can, After, Empty;
    assert states'[0] == states[0];
    forall k | 0 <= k < |steps'|
      ensures Sane(states'[k]) && Can(states'[k], steps'[k]) && states'[k + 1] == After(states'[k], steps'[k])
    {
      if k < |steps| {
        assert states'[k] == states[k] && states'[k + 1] == states[k + 1] && steps'[k] == steps[k];
      }
    }
  }

  /** What is left to do can be done. */
  lemma {:induction false} ToIdle(nodes: nat, states: seq<State>, steps: seq<Step>)
    returns (states': seq<State>, steps': seq<Step>)
    requires IsRun(nodes, states, steps)
    ensures IsRun(nodes, states', steps') && states <= states' && steps <= steps' && Idle(states'[|steps'|])
    ensures forall k :: |steps| <= k < |steps'| ==> steps'[k].NodeStep? || steps'[k].SharedStep?
    decreases Remaining(states[|states| - 1].nodeTodo) + |states[|states| - 1].sharedTodo|
  {
    var s := states[|steps|];
    states', steps' := states, steps;
    if !Idle(s) {
      var step := SharedStep;
      if s.sharedTodo == [] {
        var p :| 0 <= p < |s.nodeTodo| && s.nodeTodo[p] != [];
        OneLess(s.nodeTodo, p);
        step := NodeStep(p);
      }
      RunOn(nodes, states, steps, step);
      var more := states + [After(s, step)];
      assert more[|more| - 1] == After(s, step);
      hide IsRun, Sane, Idle;
      states', steps' := ToIdle(nodes, more, steps + [step]);
      assert forall k :: |steps| <= k < |steps'| ==> steps'[k].NodeStep? || steps'[k].SharedStep? by {
        assert steps'[|steps|] == step;
      }
    }
  }

  /** One more checkpoint, to its end. */
  lemma {:induction false} TakeOne(nodes: nat, states: seq<State>, steps: seq<Step>, call: Call)
    returns (states': seq<State>, steps': seq<Step>)
    requires IsRun(nodes, states, steps) && Idle(states[|steps|]) && 1 <= call.level <= 4
    ensures IsRun(nodes, states', steps') && Idle(states'[|steps'|])
    ensures WellFormed(states[|steps|].store) && WellFormed(states'[|steps'|].store)
    ensures var before, after, dir := states[|steps|], states'[|steps'|], Holds(states[|steps|].next, call.id);
      && |after.store.nodes| == |before.store.nodes|
      && after.store.shared.meta[call.level] == dir
      && (forall l :: 1 <= l < call.level ==> after.store.shared.meta[l] == Missing)
      && (forall l :: call.level < l < 5 ==> after.store.shared.meta[l] == before.store.shared.meta[l])
      && (call.level < 4 ==> forall p :: 0 <= p < |after.store.nodes| ==> after.store.nodes[p].level[call.level] == dir)
      && after.next == before.next + 1 && after.ckptLvel == after.lastCkptLvel == call.level
  {
    var n := |steps|;
    RunOn(nodes, states, steps, Take(call));
    var more := states + [After(states[n], Take(call))];
    states', steps' := ToIdle(nodes, more, steps + [Take(call)]);
    assert states'[n] == more[n] == states[n] && steps'[n] == (steps + [Take(call)])[n] == Take(call);
    assert Replacing(states'[n..], steps'[n..], call) by {
      forall k | 1 <= k < |steps'[n..]| ensures steps'[n..][k].NodeStep? || steps'[n..][k].SharedStep? {
        assert steps'[n..][k] == steps'[n + k];
      }
      hide Sane, Can, After;
    }
    CompletedReplacement(states'[n..], steps'[n..], call);
    assert states'[n + 1] == After(states[n], Take(call));
    FieldsKept(states', steps', n + 1, |steps'|);
  }

  /** The steps that remove and rename change nothing else. */
  lemma {:induction false} FieldsKept(states: seq<State>, steps: seq<Step>, a: nat, b: nat)
    requires a <= b < |states| == |steps| + 1
    requires forall k :: a <= k < b ==>
             Sane(states[k]) && Can(states[k], steps[k]) && states[k + 1] == After(states[k], steps[k])
    requires forall k :: a <= k < b ==> steps[k].NodeStep? || steps[k].SharedStep?
    ensures states[b].next == states[a].next
    ensures states[b].ckptLvel == states[a].ckptLvel && states[b].lastCkptLvel == states[a].lastCkptLvel
  {
    if a < b {
      FieldsKept(states, steps, a, b - 1);
    }
  }

  /** One more call that fails, to its end: no level is touched. */
  lemma {:induction false} FailOne(nodes: nat, states: seq<State>, steps: seq<Step>, call: Call, wrote: bool)
    returns (states': seq<State>, steps': seq<Step>)
    requires IsRun(nodes, states, steps) && Idle(states[|steps|]) && 1 <= call.level <= 4
    ensures IsRun(nodes, states', steps') && Idle(states'[|steps'|])
    ensures WellFormed(states[|steps|].store) && WellFormed(states'[|steps'|].store)
    ensures var before, after := states[|steps|], states'[|steps'|];
      && |after.store.nodes| == |before.store.nodes|
      && after.store.shared.meta == before.store.shared.meta && after.store.shared.pfs == before.store.shared.pfs
      && (forall p :: 0 <= p < |after.store.nodes| ==> after.store.nodes[p].level == before.store.nodes[p].level)
      && NoTemporary(after.store) && after.lastCkptLvel == before.lastCkptLvel
      && after.ckptLvel == (if wrote then call.level else if call.isInline then REJECT else before.ckptLvel)
  {
    var n := |steps|;
    RunOn(nodes, states, steps, Fail(call, wrote));
    var more := states + [After(states[n], Fail(call, wrote))];
    states', steps' := ToIdle(nodes, more, steps + [Fail(call, wrote)]);
    assert states'[n + 1] == more[n + 1] == After(states[n], Fail(call, wrote));
    AlwaysOrdered(nodes, states', steps', n + 1);
    FailLeavesLevels(states[n], call, wrote);
    LevelsKept(states', steps', n + 1, |steps'|);
    FieldsKept(states', steps', n + 1, |steps'|);
    NothingTemporary(states'[|steps'|]);
  }

  lemma NothingTemporary(s: State)
    requires OnlyTemporary(s) && Idle(s)
    ensures NoTemporary(s.store)
  {
  }

  ghost predicate NoTemporary(s: Store) {
    && s.shared.tmp.Missing? && s.shared.metaTmp.Missing?
    && forall p :: 0 <= p < |s.nodes| ==> s.nodes[p].tmp.Missing?
  }

  /** Only temporary directories are still to be removed, and all of them. */
  ghost predicate OnlyTemporary(s: State) {
    && (s.store.shared.tmp.Missing? || RmGlobalTmp in s.sharedTodo)
    && (s.store.shared.metaTmp.Missing? || RmMetaTmp in s.sharedTodo)
    && |s.nodeTodo| == |s.store.nodes|
    && (forall p :: 0 <= p < |s.nodeTodo| ==> s.store.nodes[p].tmp.Missing? || RmTmp in s.nodeTodo[p])
    && (forall k :: 0 <= k < |s.sharedTodo| ==> s.sharedTodo[k].RmMetaTmp? || s.sharedTodo[k].RmGlobalTmp?)
    && (forall p, k :: 0 <= p < |s.nodeTodo| && 0 <= k < |s.nodeTodo[p]| ==> s.nodeTodo[p][k].RmTmp?)
  }

  ghost predicate SameLevels(a: Store, b: Store) {
    && |a.nodes| == |b.nodes| && a.shared.meta == b.shared.meta && a.shared.pfs == b.shared.pfs
    && forall p :: 0 <= p < |a.nodes| ==> a.nodes[p].level == b.nodes[p].level
  }

  lemma {:induction false} FailLeavesLevels(s: State, call: Call, wrote: bool)
    requires Sane(s) && Can(s, Fail(call, wrote))
    ensures OnlyTemporary(After(s, Fail(call, wrote))) && SameLevels(s.store, After(s, Fail(call, wrote)).store)
  {
  }

  lemma {:induction false} LevelsKept(states: seq<State>, steps: seq<Step>, a: nat, b: nat)
    requires a <= b < |states| == |steps| + 1 && Sane(states[a]) && OnlyTemporary(states[a])
    requires forall k :: a <= k < b ==>
             Sane(states[k]) && Can(states[k], steps[k]) && states[k + 1] == After(states[k], steps[k])
    requires forall k :: a <= k < b ==> steps[k].NodeStep? || steps[k].SharedStep?
    ensures OnlyTemporary(states[b]) && SameLevels(states[a].store, states[b].store) && WellFormed(states[b].store)
  {
    if a < b {
      LevelsKept(states, steps, a, b - 1);
      hide OnlyTemporary, Sane, Can, After, SameLevels, WellFormed;
      OneTemporary(states[b - 1], steps[b - 1]);
      SameLevelsTwice(states[a].store, states[b - 1].store, states[b].store);
    } else {
      hide OnlyTemporary, Can, After;
    }
  }

  lemma SameLevelsTwice(a: Store, b: Store, c: Store)
    requires SameLevels(a, b) && SameLevels(b, c)
    ensures SameLevels(a, c)
  {
  }

  lemma {:induction false} OneTemporary(s: State, step: Step)
    requires Sane(s) && Can(s, step) && OnlyTemporary(s) && (step.NodeStep? || step.SharedStep?)
    ensures OnlyTemporary(After(s, step)) && SameLevels(s.store, After(s, step).store)
            && WellFormed(After(s, step).store)
  {
    if step.NodeStep? {
      assert s.nodeTodo[step.p][0].RmTmp?;
    } else {
      assert s.sharedTodo[0].RmMetaTmp? || s.sharedTodo[0].RmGlobalTmp?;
    }
  }

  lemma EmptyRun(nodes: nat)
    ensures IsRun(nodes, [Empty(nodes)], []) && Idle(Empty(nodes))
    ensures WellFormed(Empty(nodes).store) && |Empty(nodes).store.nodes| == nodes && Empty(nodes).next == 0
  {
  }

  /**
   * A checkpoint at level 3, a later one at level 1, then the end with the last one kept: between the rename of the
   * metadata and the last cleaning, restart finds the older checkpoint of level 3 before the newer one of level 4.
   */
  lemma {:induction false} OlderFoundFirst(nodes: nat) returns (states: seq<State>, steps: seq<Step>)
    ensures IsRun(nodes, states, steps) && WellFormed(states[|steps|].store)
    ensures states[|steps|].lastCkptLvel == states[|steps|].ckptLvel == 1
    ensures SaveLast(states[|steps|].store, 1, 1).Saved?
    ensures var r := SaveLast(states[|steps|].store, 1, 1).dirs;
      r.meta[3].Holds? && r.meta[4].Holds? && r.meta[3].ckpt < r.meta[4].ckpt && !Ordered(r.meta)
  {
    EmptyRun(nodes);
    hide IsRun, Idle, Flushed;
    states, steps := TakeOne(nodes, [Empty(nodes)], [], Call(3, false, 1));
    states, steps := TakeOne(nodes, states, steps, Call(1, false, 2));
  }

  /**
   * A checkpoint at level 2, then a call at level 3 whose encoding fails: the level of the latest call is 3, that of
   * the latest success 2, and the checkpoint that is kept has its files but no metadata.
   */
  lemma {:induction false} KeptWithoutMetadata(nodes: nat) returns (states: seq<State>, steps: seq<Step>)
    requires 0 < nodes
    ensures IsRun(nodes, states, steps) && WellFormed(states[|steps|].store)
    ensures states[|steps|].lastCkptLvel == 2 && states[|steps|].ckptLvel == 3
    ensures SaveLast(states[|steps|].store, 2, 3).Saved? && states[|steps|].store.shared.meta[2].Holds?
    ensures var r := SaveLast(states[|steps|].store, 2, 3).dirs;
      r.pfs == states[|steps|].store.shared.meta[2] && r.meta[4] == Missing
  {
    EmptyRun(nodes);
    assert Empty(nodes).store.shared.meta[3] == Missing;
    hide IsRun, Idle, Flushed, Empty;
    states, steps := TakeOne(nodes, [Empty(nodes)], [], Call(2, false, 1));
    var dir := states[|steps|].store.shared.meta[2];
    states, steps := FailOne(nodes, states, steps, Call(3, false, 2), true);
    FlushedIs(states[|steps|].store, 2, dir);
  }

  lemma {:induction false} FlushedIs(s: Store, level: nat, d: Dir)
    requires WellFormed(s) && level < 4 && OnAllNodes(s, level, d)
    ensures Flushed(s, level) == d
  {
    assert exists e :: OnAllNodes(s, level, e);
    var e := Flushed(s, level);
    assert OnAllNodes(s, level, e);
    var p := 0;
    assert p < |s.nodes|;
    assert e == (if level == 0 then s.nodes[p].tmp else s.nodes[p].level[level]);
  }
}
