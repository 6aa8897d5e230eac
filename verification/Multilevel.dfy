/** The directories of the four checkpoint levels: replacement, stops in between, and the choice at restart. */
module Multilevel {
  /**
   * A directory, with the checkpoint whose files it holds: its running number, by which checkpoints are newer or
   * older, and its id, which is the caller's and may be used again after a restart.
   */
  datatype Dir = Missing | Holds(ckpt: nat, id: nat)

  /** A call for a checkpoint; its level is post-processed by the application processes, or by the heads. */
  datatype Call = Call(level: nat, isInline: bool, id: nat)

  /** The local directories of one node: a temporary one, and one per level 1 to 3. */
  datatype NodeDirs = NodeDirs(tmp: Dir, level: seq<Dir>)

  /** The global directories: temporary ones, the level 4 files, and the metadata of each level. */
  datatype SharedDirs = SharedDirs(tmp: Dir, metaTmp: Dir, pfs: Dir, meta: seq<Dir>)

  datatype Store = Store(nodes: seq<NodeDirs>, shared: SharedDirs)

  ghost predicate WellFormed(s: Store) {
    |s.shared.meta| == 5 && forall p :: 0 <= p < |s.nodes| ==> |s.nodes[p].level| == 4
  }

  // ----- Single removals and renames -----

  datatype NodeOp = RmTmp | RmLevel(l: nat) | MoveTmp(l: nat)

  datatype SharedOp = RmMetaTmp | RmGlobalTmp | RmMeta(l: nat) | RmPfs | MovePfs | MoveMeta(l: nat)

  /** A rename needs its source, and a target that is not in the way. */
  predicate CanMove(from: Dir, to: Dir) {
    from.Holds? && to.Missing?
  }

  function NodeExec(d: NodeDirs, op: NodeOp): NodeDirs
    requires |d.level| == 4 && NodeOpOk(op)
  {
    match op
    case RmTmp => d.(tmp := Missing)
    case RmLevel(l) => d.(level := d.level[l := Missing])
    case MoveTmp(l) => if CanMove(d.tmp, d.level[l]) then d.(tmp := Missing, level := d.level[l := d.tmp]) else d
  }

  function SharedExec(d: SharedDirs, op: SharedOp): SharedDirs
    requires |d.meta| == 5 && SharedOpOk(op)
  {
    match op
    case RmMetaTmp => d.(metaTmp := Missing)
    case RmGlobalTmp => d.(tmp := Missing)
    case RmMeta(l) => d.(meta := d.meta[l := Missing])
    case RmPfs => d.(pfs := Missing)
    case MovePfs => if CanMove(d.tmp, d.pfs) then d.(tmp := Missing, pfs := d.tmp) else d
    case MoveMeta(l) =>
      if CanMove(d.metaTmp, d.meta[l]) then d.(metaTmp := Missing, meta := d.meta[l := d.metaTmp]) else d
  }

  predicate NodeOpOk(op: NodeOp) {
    op.RmLevel? || op.MoveTmp? ==> 1 <= op.l < 4
  }

  predicate SharedOpOk(op: SharedOp) {
    op.RmMeta? || op.MoveMeta? ==> 1 <= op.l < 5
  }

  // ----- What a clean-up removes -----

  /** Levels 1 to 4: that level and those below. 5: everything. 6: all but the global files. 0: temporary files. */
  function CleanNode(level: nat): (ops: seq<NodeOp>)
    ensures forall k :: 0 <= k < |ops| ==> NodeOpOk(ops[k])
  {
    (if level == 0 then [RmTmp] else [])
    + (if level >= 1 then [RmLevel(1)] else [])
    + (if level >= 2 then [RmLevel(2)] else [])
    + (if level >= 3 then [RmLevel(3)] else [])
  }

  function CleanShared(level: nat): (ops: seq<SharedOp>)
    ensures forall k :: 0 <= k < |ops| ==> SharedOpOk(ops[k])
  {
    (if level == 0 then [RmMetaTmp, RmGlobalTmp] else [])
    + (if level >= 1 then [RmMeta(1)] else [])
    + (if level >= 2 then [RmMeta(2)] else [])
    + (if level >= 3 then [RmMeta(3)] else [])
    + (if level == 4 || level == 5 then [RmMeta(4), RmPfs] else [])
  }

  /** After a checkpoint at `level` is complete: clean, then put the new directories in place. */
  function ReplaceNode(level: nat, isInline: bool): (ops: seq<NodeOp>)
    requires 1 <= level <= 4
    ensures forall k :: 0 <= k < |ops| ==> NodeOpOk(ops[k])
  {
    CleanNode(level) + if isInline && level == 4 then [] else [MoveTmp(if level != 4 then level else 1)]
  }

  function ReplaceShared(level: nat): (ops: seq<SharedOp>)
    requires 1 <= level <= 4
    ensures forall k :: 0 <= k < |ops| ==> SharedOpOk(ops[k])
  {
    CleanShared(level) + (if level == 4 then [MovePfs] else []) + [MoveMeta(level)]
  }

  // ----- Runs -----

  /**
   * The directories, what each process has still to do, how many checkpoints were begun, and two fields of the
   * application processes: the level of the latest call, and that of the latest success.
   */
  datatype State = State(
    store: Store, nodeTodo: seq<seq<NodeOp>>, sharedTodo: seq<SharedOp>, next: nat, ckptLvel: nat, lastCkptLvel: nat)

  /** The level a process takes whose write failed. */
  const REJECT: nat := 6

  datatype Step =
    | Take(call: Call)
    | Fail(call: Call, wrote: bool)
    | Recovered(level: nat)
    | Clean(level: nat)
    | NodeStep(p: nat)
    | SharedStep
    | Stop
    | Lose(p: nat)

  predicate Idle(s: State) {
    s.sharedTodo == [] && forall p :: 0 <= p < |s.nodeTodo| ==> s.nodeTodo[p] == []
  }

  predicate Can(s: State, step: Step) {
    match step
    case Take(call) => Idle(s) && 1 <= call.level <= 4
    case Fail(call, _) => Idle(s) && 1 <= call.level <= 4
    case Recovered(level) => Idle(s) && 1 <= level <= 4
    case Clean(level) => Idle(s)
    case NodeStep(p) => p < |s.nodeTodo| && s.nodeTodo[p] != []
    case SharedStep => s.sharedTodo != []
    case Stop => true
    case Lose(p) => p < |s.nodeTodo|
  }

  ghost predicate Sane(s: State) {
    && WellFormed(s.store) && |s.nodeTodo| == |s.store.nodes|
    && (forall p, k :: 0 <= p < |s.nodeTodo| && 0 <= k < |s.nodeTodo[p]| ==> NodeOpOk(s.nodeTodo[p][k]))
    && (forall k :: 0 <= k < |s.sharedTodo| ==> SharedOpOk(s.sharedTodo[k]))
  }

  /** The files of a new checkpoint are in the temporary directories. */
  function Written(store: Store, call: Call, no: nat): Store {
    var dir := Holds(no, call.id);
    Store(
      if call.level == 4 && call.isInline then store.nodes
      else seq(|store.nodes|, p requires 0 <= p < |store.nodes| => store.nodes[p].(tmp := dir)),
      store.shared.(tmp := if call.level == 4 then dir else store.shared.tmp, metaTmp := dir))
  }

  function Everywhere<T>(n: nat, x: T): (r: seq<T>)
    ensures |r| == n && forall i :: 0 <= i < n ==> r[i] == x
  {
    seq(n, _ => x)
  }

  /**
   * A call that fails leaves its files in the temporary directories, where the next clean-up removes them: its write
   * failed on some process, or its post-processing did.
   */
  ghost function After(s: State, step: Step): State
    requires Sane(s) && Can(s, step)
  {
    var n := |s.nodeTodo|;
    match step
    case Take(call) =>
      State(Written(s.store, call, s.next), Everywhere(n, ReplaceNode(call.level, call.isInline)),
            ReplaceShared(call.level), s.next + 1, call.level, call.level)
    case Fail(call, wrote) =>
      State(Written(s.store, call, s.next), Everywhere(n, CleanNode(0)), CleanShared(0), s.next + 1,
            if wrote then call.level else if call.isInline then REJECT else s.ckptLvel, s.lastCkptLvel)
    case Recovered(level) => s.(ckptLvel := level, lastCkptLvel := level)
    case Clean(level) => s.(nodeTodo := Everywhere(n, CleanNode(level)), sharedTodo := CleanShared(level))
    case NodeStep(p) =>
      s.(store := s.store.(nodes := s.store.nodes[p := NodeExec(s.store.nodes[p], s.nodeTodo[p][0])]),
         nodeTodo := s.nodeTodo[p := s.nodeTodo[p][1..]])
    case SharedStep =>
      s.(store := s.store.(shared := SharedExec(s.store.shared, s.sharedTodo[0])), sharedTodo := s.sharedTodo[1..])
    case Stop => s.(nodeTodo := Everywhere(n, []), sharedTodo := [], ckptLvel := 0, lastCkptLvel := 0)
    case Lose(p) =>
      s.(store := s.store.(nodes := s.store.nodes[p := NodeDirs(Missing, [Missing, Missing, Missing, Missing])]),
         nodeTodo := s.nodeTodo[p := []])
  }

  // ----- The order of levels -----

  /** A lower existing level holds a newer checkpoint than a higher one. */
  ghost predicate Ordered(meta: seq<Dir>) {
    forall l, m :: 1 <= l < m < |meta| && meta[l].Holds? && meta[m].Holds? ==> meta[l].ckpt > meta[m].ckpt
  }

  ghost predicate Below(meta: seq<Dir>, no: nat) {
    forall l :: 1 <= l < |meta| && meta[l].Holds? ==> meta[l].ckpt < no
  }

  /** What is left to do brings new metadata in place only after the levels up to its own are gone. */
  ghost predicate Prepared(meta: seq<Dir>, todo: seq<SharedOp>) {
    forall k, l :: 0 <= k < |todo| && todo[k].MoveMeta? && 1 <= l <= todo[k].l < |meta| ==>
      meta[l].Missing? || RmMeta(l) in todo[..k]
  }

  ghost predicate LastMove(todo: seq<SharedOp>) {
    forall k :: 0 <= k < |todo| && todo[k].MoveMeta? ==> k == |todo| - 1
  }

  ghost predicate Inv(s: State) {
    && Sane(s) && Ordered(s.store.shared.meta) && Below(s.store.shared.meta, s.next)
    && Prepared(s.store.shared.meta, s.sharedTodo) && LastMove(s.sharedTodo)
    && (HasMove(s.sharedTodo) ==>
          (&& s.next > 0 && s.store.shared.metaTmp.Holds? && s.store.shared.metaTmp.ckpt == s.next - 1
           && Below(s.store.shared.meta, s.next - 1)
           && RmMetaTmp !in s.sharedTodo))
  }

  predicate HasMove(todo: seq<SharedOp>) {
    |todo| > 0 && todo[|todo| - 1].MoveMeta?
  }

  lemma {:induction false} SharedKeeps(s: State)
    requires Inv(s) && s.sharedTodo != []
    ensures Inv(After(s, SharedStep))
  {
    var d, todo := s.store.shared, s.sharedTodo;
    var next := After(s, SharedStep);
    var rest := todo[1..];
    forall k, l | 0 <= k < |rest| && rest[k].MoveMeta? && 1 <= l <= rest[k].l < 5
      ensures next.store.shared.meta[l].Missing? || RmMeta(l) in rest[..k]
    {
      assert todo[k + 1] == rest[k];
      assert todo[..k + 1] == [todo[0]] + rest[..k];
    }
    if todo[0].MoveMeta? {
      assert |todo| == 1;
      assert forall l :: 1 <= l <= todo[0].l ==> d.meta[l].Missing?;
    }
  }

  lemma {:induction false} ReplacePrepared(meta: seq<Dir>, level: nat)
    requires 1 <= level <= 4
    ensures var todo := ReplaceShared(level);
      Prepared(meta, todo) && LastMove(todo) && HasMove(todo) && RmMetaTmp !in todo
  {
    var todo := ReplaceShared(level);
    var last := |todo| - 1;
    assert todo[last] == MoveMeta(level);
    assert todo[..last] == CleanShared(level) + if level == 4 then [MovePfs] else [];
    assert forall k :: 0 <= k < last ==> !todo[k].MoveMeta?;
    CleansUpTo(level);
    hide ReplaceShared;
    forall l | 1 <= l <= level ensures RmMeta(l) in todo[..last] {
      assert RmMeta(l) in CleanShared(level);
    }
  }

  lemma {:induction false} TakeKeeps(s: State, call: Call)
    requires Inv(s) && Can(s, Take(call))
    ensures Inv(After(s, Take(call)))
  {
    ReplacePrepared(s.store.shared.meta, call.level);
    hide ReplaceShared, ReplaceNode, Prepared, LastMove, HasMove, Idle;
  }

  lemma {:induction false} OtherKeeps(s: State, step: Step)
    requires Inv(s) && Can(s, step) && !step.Take? && !step.SharedStep?
    ensures Inv(After(s, step))
  {
    if step.Fail? || step.Clean? {
      var level := if step.Fail? then 0 else step.level;
      assert forall k :: 0 <= k < |CleanShared(level)| ==> !CleanShared(level)[k].MoveMeta?;
    }
  }

  /** Whatever happens next, including a stop between any two removals or renames, the order is kept. */
  lemma {:induction false} StepKeepsOrder(s: State, step: Step)
    requires Inv(s) && Can(s, step)
    ensures Inv(After(s, step))
  {
    if step.Take? {
      TakeKeeps(s, step.call);
    } else if step.SharedStep? {
      SharedKeeps(s);
    } else {
      OtherKeeps(s, step);
    }
  }

  ghost function Empty(nodes: nat): State {
    State(
      Store(Everywhere(nodes, NodeDirs(Missing, [Missing, Missing, Missing, Missing])),
            SharedDirs(Missing, Missing, Missing, [Missing, Missing, Missing, Missing, Missing])),
      Everywhere(nodes, []), [], 0, 0, 0)
  }

  ghost predicate IsRun(nodes: nat, states: seq<State>, steps: seq<Step>) {
    && |states| == |steps| + 1 && states[0] == Empty(nodes)
    && forall k :: 0 <= k < |steps| ==>
         Sane(states[k]) && Can(states[k], steps[k]) && states[k + 1] == After(states[k], steps[k])
  }

  /** In every reachable state a lower existing level holds a newer checkpoint than a higher one. */
  lemma {:induction false} AlwaysOrdered(nodes: nat, states: seq<State>, steps: seq<Step>, k: nat)
    requires IsRun(nodes, states, steps) && k < |states|
    ensures Inv(states[k]) && Ordered(states[k].store.shared.meta)
  {
    if k > 0 {
      AlwaysOrdered(nodes, states, steps, k - 1);
      StepKeepsOrder(states[k - 1], steps[k - 1]);
    }
  }

  // ----- A replacement that is not interrupted -----

  function NodeOutcome(d: NodeDirs, ops: seq<NodeOp>): (r: NodeDirs)
    requires |d.level| == 4 && forall k :: 0 <= k < |ops| ==> NodeOpOk(ops[k])
    ensures |r.level| == 4
    decreases |ops|
  {
    if ops == [] then d else assert NodeOpOk(ops[0]); NodeOutcome(NodeExec(d, ops[0]), ops[1..])
  }

  function SharedOutcome(d: SharedDirs, ops: seq<SharedOp>): (r: SharedDirs)
    requires |d.meta| == 5 && forall k :: 0 <= k < |ops| ==> SharedOpOk(ops[k])
    ensures |r.meta| == 5
    decreases |ops|
  {
    if ops == [] then d else assert SharedOpOk(ops[0]); SharedOutcome(SharedExec(d, ops[0]), ops[1..])
  }

  /** Where the directories end up once everybody is done. */
  ghost function Outcome(s: State): (r: Store)
    requires Sane(s)
  {
    Store(seq(|s.nodeTodo|, p requires 0 <= p < |s.nodeTodo| => NodeOutcome(s.store.nodes[p], s.nodeTodo[p])),
          SharedOutcome(s.store.shared, s.sharedTodo))
  }

  /** The processes work on different directories: their interleaving does not matter. */
  lemma {:induction false} InterleavingIrrelevant(s: State, step: Step)
    requires Sane(s) && Can(s, step) && (step.NodeStep? || step.SharedStep?)
    ensures Sane(After(s, step)) && Outcome(After(s, step)) == Outcome(s)
  {
    var next := After(s, step);
    if step.NodeStep? {
      assert forall k :: 0 <= k < |s.nodeTodo[step.p]| - 1 ==> s.nodeTodo[step.p][1..][k] == s.nodeTodo[step.p][k + 1];
    } else {
      assert forall k :: 0 <= k < |s.sharedTodo| - 1 ==> s.sharedTodo[1..][k] == s.sharedTodo[k + 1];
    }
    assert Outcome(next).nodes == Outcome(s).nodes;
  }

  lemma {:induction false} IdleIsOutcome(s: State)
    requires Sane(s) && Idle(s)
    ensures Outcome(s) == s.store
  {
  }

  predicate NodeRemoval(op: NodeOp) {
    op.RmLevel? && 1 <= op.l < 4
  }

  predicate SharedRemoval(op: SharedOp) {
    op.RmPfs? || (op.RmMeta? && 1 <= op.l < 5)
  }

  /** Removals first, then a rename. */
  lemma {:induction false} NodeRemovals(d: NodeDirs, ops: seq<NodeOp>, moves: seq<NodeOp>)
    requires |d.level| == 4 && forall k :: 0 <= k < |ops| ==> NodeRemoval(ops[k])
    requires forall k :: 0 <= k < |moves| ==> NodeOpOk(moves[k])
    ensures forall k :: 0 <= k < |ops + moves| ==> NodeOpOk((ops + moves)[k])
    ensures exists r :: NodeRemoved(d, r, ops) && NodeOutcome(d, ops + moves) == NodeOutcome(r, moves)
    decreases |ops|
  {
    if ops == [] {
      assert ops + moves == moves;
      assert NodeRemoved(d, d, ops);
    } else {
      var e := NodeExec(d, ops[0]);
      NodeRemovals(e, ops[1..], moves);
      var r :| NodeRemoved(e, r, ops[1..]) && NodeOutcome(e, ops[1..] + moves) == NodeOutcome(r, moves);
      assert (ops + moves)[0] == ops[0] && (ops + moves)[1..] == ops[1..] + moves;
      assert ops == [ops[0]] + ops[1..];
      assert NodeRemoved(d, r, ops);
    }
  }

  ghost predicate NodeRemoved(d: NodeDirs, r: NodeDirs, ops: seq<NodeOp>) {
    && |d.level| == |r.level| == 4 && r.tmp == d.tmp
    && forall l :: 0 <= l < 4 ==> r.level[l] == if RmLevel(l) in ops then Missing else d.level[l]
  }

  lemma {:induction false} SharedRemovals(d: SharedDirs, ops: seq<SharedOp>, moves: seq<SharedOp>)
    requires |d.meta| == 5 && forall k :: 0 <= k < |ops| ==> SharedRemoval(ops[k])
    requires forall k :: 0 <= k < |moves| ==> SharedOpOk(moves[k])
    ensures forall k :: 0 <= k < |ops + moves| ==> SharedOpOk((ops + moves)[k])
    ensures exists r :: SharedRemoved(d, r, ops) && SharedOutcome(d, ops + moves) == SharedOutcome(r, moves)
    decreases |ops|
  {
    if ops == [] {
      assert ops + moves == moves;
      assert SharedRemoved(d, d, ops);
    } else {
      var e := SharedExec(d, ops[0]);
      SharedRemovals(e, ops[1..], moves);
      var r :| SharedRemoved(e, r, ops[1..]) && SharedOutcome(e, ops[1..] + moves) == SharedOutcome(r, moves);
      assert (ops + moves)[0] == ops[0] && (ops + moves)[1..] == ops[1..] + moves;
      assert ops == [ops[0]] + ops[1..];
      assert SharedRemoved(d, r, ops);
    }
  }

  ghost predicate SharedRemoved(d: SharedDirs, r: SharedDirs, ops: seq<SharedOp>) {
    && |d.meta| == |r.meta| == 5 && r.tmp == d.tmp && r.metaTmp == d.metaTmp
    && r.pfs == (if RmPfs in ops then Missing else d.pfs)
    && forall l :: 0 <= l < 5 ==> r.meta[l] == if RmMeta(l) in ops then Missing else d.meta[l]
  }

  /** Exactly which levels a clean-up removes. */
  lemma {:induction false} CleansUpTo(level: nat)
    requires 1 <= level
    ensures forall k :: 0 <= k < |CleanShared(level)| ==> SharedRemoval(CleanShared(level)[k])
    ensures forall k :: 0 <= k < |CleanNode(level)| ==> NodeRemoval(CleanNode(level)[k])
    ensures forall l: nat :: RmMeta(l) in CleanShared(level) <==> 1 <= l <= level && (l <= 3 || (l == 4 && level <= 5))
    ensures forall l: nat :: RmLevel(l) in CleanNode(level) <==> 1 <= l <= level && l < 4
    ensures RmPfs in CleanShared(level) <==> level == 4 || level == 5
  {
  }

  /** The new metadata is in place, that of lower levels is gone, that of higher levels is as before. */
  lemma {:induction false} ReplacedShared(d: SharedDirs, level: nat)
    requires |d.meta| == 5 && 1 <= level <= 4 && d.metaTmp.Holds? && (level == 4 ==> d.tmp.Holds?)
    ensures InPlace(d, SharedOutcome(d, ReplaceShared(level)), level)
  {
    var moves := (if level == 4 then [MovePfs] else []) + [MoveMeta(level)];
    CleansUpTo(level);
    assert ReplaceShared(level) == CleanShared(level) + moves;
    SharedRemovals(d, CleanShared(level), moves);
    hide *;
    var r :| SharedRemoved(d, r, CleanShared(level))
             && SharedOutcome(d, ReplaceShared(level)) == SharedOutcome(r, moves);
    SharedMoved(d, r, level);
  }

  ghost predicate InPlace(d: SharedDirs, r: SharedDirs, level: nat)
    requires |d.meta| == 5 && 1 <= level <= 4
  {
    && |r.meta| == 5 && r.meta[level] == d.metaTmp
    && (forall l :: 1 <= l < level ==> r.meta[l] == Missing)
    && (forall l :: level < l < 5 ==> r.meta[l] == d.meta[l])
    && r.pfs == (if level == 4 then d.tmp else d.pfs)
    && r.metaTmp == Missing && r.tmp == if level == 4 then Missing else d.tmp
  }

  lemma {:induction false} SharedMoved(d: SharedDirs, r: SharedDirs, level: nat)
    requires |d.meta| == 5 && 1 <= level <= 4 && d.metaTmp.Holds? && (level == 4 ==> d.tmp.Holds?)
    requires SharedRemoved(d, r, CleanShared(level))
    ensures InPlace(d, SharedOutcome(r, (if level == 4 then [MovePfs] else []) + [MoveMeta(level)]), level)
  {
    CleansUpTo(level);
    hide CleanShared, CleanNode, SharedOutcome;
    SharedMoves(r, level);
  }

  lemma {:induction false} SharedMoves(d: SharedDirs, level: nat)
    requires |d.meta| == 5 && 1 <= level <= 4
    ensures SharedOutcome(d, [MoveMeta(level)]) == SharedExec(d, MoveMeta(level))
    ensures SharedOutcome(d, [MovePfs] + [MoveMeta(level)]) == SharedExec(SharedExec(d, MovePfs), MoveMeta(level))
    ensures [] + [MoveMeta(level)] == [MoveMeta(level)]
  {
    assert ([MovePfs] + [MoveMeta(level)])[1..] == [MoveMeta(level)];
    assert forall e: SharedDirs :: |e.meta| == 5 ==>
           SharedOutcome(e, [MoveMeta(level)]) == SharedExec(e, MoveMeta(level));
  }

  /** The same for the local directories; a copy of level 4 files stays at level 1. */
  lemma {:induction false} ReplacedNode(d: NodeDirs, level: nat, isInline: bool)
    requires |d.level| == 4 && 1 <= level <= 4 && ((level == 4 && isInline) || d.tmp.Holds?)
    ensures var r := NodeOutcome(d, ReplaceNode(level, isInline));
      && (forall l :: 1 <= l < 4 && l < level && !(l == 1 && level == 4 && !isInline) ==> r.level[l] == Missing)
      && (forall l :: level < l < 4 ==> r.level[l] == d.level[l])
      && (level < 4 ==> r.level[level] == d.tmp)
      && (level == 4 && !isInline ==> r.level[1] == d.tmp)
      && r.tmp == if level == 4 && isInline then d.tmp else Missing
  {
    var moves := if isInline && level == 4 then [] else [MoveTmp(if level != 4 then level else 1)];
    CleansUpTo(level);
    assert ReplaceNode(level, isInline) == CleanNode(level) + moves;
    hide CleanNode, CleanShared, ReplaceNode, NodeOutcome;
    NodeRemovals(d, CleanNode(level), moves);
    var r :| NodeRemoved(d, r, CleanNode(level)) && NodeOutcome(d, CleanNode(level) + moves) == NodeOutcome(r, moves);
    NodeMoves(r, moves);
  }

  lemma {:induction false} NodeMoves(d: NodeDirs, moves: seq<NodeOp>)
    requires |d.level| == 4 && |moves| <= 1 && forall k :: 0 <= k < |moves| ==> NodeOpOk(moves[k])
    ensures NodeOutcome(d, moves) == if moves == [] then d else NodeExec(d, moves[0])
  {
  }
}
