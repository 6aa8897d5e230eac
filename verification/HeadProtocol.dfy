/** The checkpoint protocol between the application processes of each node and the node's head. */
module HeadProtocol {
  const FTI_BASE: int := 990
  const FTI_ENDW: int := 995
  const FTI_REJW: int := 996
  const FTI_NSCS: int := -1

  /**
   * One run: the level of every checkpoint call, which levels are handled by the heads, and what can fail: a process
   * writing its file, a process creating its metadata, a head's post-processing, a process's own post-processing.
   */
  datatype Plan = Plan(
    nodes: nat, apps: nat, ftiff: bool,
    levels: seq<nat>,
    isInline: nat -> bool,
    file: (nat, nat, nat) -> bool,
    metadata: (nat, nat, nat) -> bool,
    headPost: (nat, nat) -> bool,
    appPost: (nat, nat, nat) -> bool)
  {
    ghost predicate Valid() {
      && 0 < nodes && 0 < apps
      && forall c :: 0 <= c < |levels| ==> 1 <= levels[c] <= 4
    }
  }

  function Offline(plan: Plan, c: nat): bool
    requires c < |plan.levels|
  {
    !plan.isInline(plan.levels[c])
  }

  // ----- Processes and messages -----

  /** A request to the head; `call` tells which checkpoint it belongs to and is never looked at. */
  datatype Req = Req(value: int, call: nat)

  datatype Phase = Ready | Writing | Informing | Processing | Ended

  /** An application process, with the messages between it and its head, oldest first. */
  datatype App = App(
    call: nat, phase: Phase, wasLastOffline: bool, ckptLvel: int, lastCkptLvel: int, got: seq<int>,
    up: seq<Req>, infos: seq<nat>, final: seq<int>, down: seq<int>)

  datatype Round = Round(reqs: seq<Req>, level: int, infos: seq<nat>)

  datatype Head =
    | Listening
    | Receiving(reqs: seq<Req>)
    | Informed(round: Round)
    | Voting(round: Round)
    | Posting(round: Round)
    | Sending(round: Round, res: int, to: nat)
    | Ending(tokens: seq<int>)
    | Stopped(tokens: seq<int>)

  datatype Done = Done(round: Round, res: int)

  datatype Node = Node(apps: seq<App>, head: Head, ckptLvel: int, votes: seq<bool>, log: seq<Done>)

  type State = seq<Node>

  /** After a recovery both levels are that of the checkpoint, otherwise 0. */
  ghost function Initial(plan: Plan, lastCkptLvel: int): State {
    seq(plan.nodes, _ =>
      Node(seq(plan.apps, _ => App(0, Ready, false, lastCkptLvel, lastCkptLvel, [], [], [], [], [])), Listening, 0, [],
           []))
  }

  // ----- Application steps -----

  /** How far a process is. */
  function Place(a: App): nat {
    4 * a.call +
    match a.phase
    case Ready => 0
    case Writing => 1
    case Informing => 2
    case Processing => 2
    case Ended => 3
  }

  /** Whether the process itself can go on; `Arrived` says whether the others let it. */
  predicate AppCan(plan: Plan, a: App) {
    match a.phase
    case Ready => a.wasLastOffline ==> a.down != []
    case Writing => a.call <= |plan.levels|
    case Informing => true
    case Processing => true
    case Ended => false
  }

  /** The process stands in a collective operation of all application processes. */
  predicate Collective(plan: Plan, a: App) {
    (a.phase == Writing && a.call < |plan.levels|) || a.phase == Processing
  }

  /** A collective operation waits until every process of every node has reached it. */
  predicate Arrived(plan: Plan, s: State, a: App) {
    Collective(plan, a) ==>
      forall h, i :: 0 <= h < |s| && 0 <= i < |s[h].apps| ==> Place(a) <= Place(s[h].apps[i])
  }

  /** Block until the head has reported on the previous checkpoint. */
  function Collect(a: App): App
    requires a.phase == Ready && (a.wasLastOffline ==> a.down != [])
  {
    if a.wasLastOffline then
      a.(phase := Writing, got := a.got + [a.down[0]], down := a.down[1..],
         lastCkptLvel := if a.down[0] != FTI_NSCS then a.down[0] else a.lastCkptLvel)
    else
      a.(phase := Writing)
  }

  /** Write the file, and, once all agree, ask the head, or go on to post-process here and now. */
  ghost function Checkpoint(plan: Plan, h: nat, i: nat, a: App): App
    requires a.phase == Writing && a.call < |plan.levels|
  {
    var c, level := a.call, plan.levels[a.call];
    var ok := Wrote(plan, h, i, c);
    if Offline(plan, c) then
      a.(phase := if ok && plan.ftiff then Informing else Ready,
         call := if ok && plan.ftiff then c else c + 1,
         wasLastOffline := true,
         ckptLvel := if ok then level else a.ckptLvel,
         up := a.up + [Req(if ok then FTI_BASE + level else FTI_REJW, c)])
    else
      a.(phase := Processing, wasLastOffline := false, ckptLvel := if ok then level else FTI_REJW - FTI_BASE)
  }

  /** Post-process, and agree with all others on the result. */
  ghost function Postprocess(plan: Plan, a: App): App
    requires a.call < |plan.levels|
  {
    a.(phase := Ready, call := a.call + 1,
       lastCkptLvel := if InlineDone(plan, a.call) then plan.levels[a.call] else a.lastCkptLvel)
  }

  /** All processes of all nodes have written their files. */
  ghost predicate FilesWritten(plan: Plan, c: nat) {
    forall h, i :: 0 <= h < plan.nodes && 0 <= i < plan.apps ==> plan.file(h, i, c)
  }

  /**
   * What a process takes for the result of its write: nobody's is good unless all files are written; then, except
   * with FTI-FF, it depends on its own part of the metadata.
   */
  ghost predicate Wrote(plan: Plan, h: nat, i: nat, c: nat) {
    FilesWritten(plan, c) && (plan.ftiff || plan.metadata(h, i, c))
  }

  /** Inline post-processing agrees among all application processes; a process that could not write fails it. */
  ghost predicate InlineDone(plan: Plan, c: nat) {
    && AllWrote(plan, c)
    && forall h, i :: 0 <= h < plan.nodes && 0 <= i < plan.apps ==> plan.appPost(h, i, c)
  }

  ghost predicate AllWrote(plan: Plan, c: nat) {
    forall h :: 0 <= h < plan.nodes ==> NodeWrote(plan, h, c)
  }

  ghost predicate NodeWrote(plan: Plan, h: nat, c: nat) {
    forall i :: 0 <= i < plan.apps ==> Wrote(plan, h, i, c)
  }

  /** Tell the head the file sizes and names. */
  function Inform(a: App): App {
    a.(phase := Ready, call := a.call + 1, infos := a.infos + [a.call])
  }

  /** Tell the head to stop listening. */
  function Finish(a: App): App {
    a.(phase := Ended, final := a.final + [FTI_ENDW])
  }

  ghost function AppNext(plan: Plan, h: nat, i: nat, a: App): App
    requires AppCan(plan, a) && (a.phase == Processing ==> a.call < |plan.levels|)
  {
    match a.phase
    case Ready => Collect(a)
    case Writing => if a.call < |plan.levels| then Checkpoint(plan, h, i, a) else Finish(a)
    case Informing => Inform(a)
    case Processing => Postprocess(plan, a)
    case Ended => a
  }

  // ----- Head steps -----

  /** The level all requests agree on; one reject rejects the checkpoint. */
  function LevelOf(values: seq<int>, before: int): int {
    if FTI_REJW in values then 6
    else if |values| > 0 && FTI_BASE < values[0] < FTI_REJW && AllAre(values, values[0]) then values[0] - FTI_BASE
    else before
  }

  predicate AllAre(values: seq<int>, value: int) {
    forall i :: 0 <= i < |values| ==> values[i] == value
  }

  function Values(reqs: seq<Req>): (r: seq<int>)
    ensures |r| == |reqs|
    ensures forall i :: 0 <= i < |reqs| ==> r[i] == reqs[i].value
  {
    seq(|reqs|, i requires 0 <= i < |reqs| => reqs[i].value)
  }

  predicate Requested(node: Node) {
    exists i :: 0 <= i < |node.apps| && node.apps[i].up != []
  }

  predicate EndSeen(node: Node) {
    exists i :: 0 <= i < |node.apps| && node.apps[i].final != []
  }

  /** Every head has voted at least `n` times. */
  predicate Voted(s: State, n: nat) {
    forall h :: 0 <= h < |s| ==> n <= |s[h].votes|
  }

  predicate AllFor(s: State, k: nat)
    requires Voted(s, k + 1)
  {
    forall h :: 0 <= h < |s| ==> s[h].votes[k]
  }

  predicate HeadCan(s: State, h: nat)
    requires h < |s|
  {
    var node := s[h];
    match node.head
    case Listening => Requested(node) || EndSeen(node)
    case Receiving(reqs) => |reqs| < |node.apps| ==> node.apps[|reqs|].up != []
    case Informed(round) => |round.infos| < |node.apps| ==> node.apps[|round.infos|].infos != []
    case Voting(_) => 0 < |node.votes| && Voted(s, |node.votes|)
    case Posting(_) => 0 < |node.votes| && Voted(s, |node.votes|)
    case Sending(_, _, _) => true
    case Ending(tokens) => |tokens| < |node.apps| ==> node.apps[|tokens|].final != []
    case Stopped(_) => false
  }

  /** Requests go first; the head ends when it sees an end token and no request. */
  function Listen(node: Node): Node {
    node.(head := if Requested(node) then Receiving([]) else Ending([]))
  }

  /** Receive the requests of all processes in order, then determine the level. */
  function Receive(plan: Plan, node: Node): Node
    requires node.head.Receiving? && (|node.head.reqs| < |node.apps| ==> node.apps[|node.head.reqs|].up != [])
  {
    var reqs := node.head.reqs;
    if |reqs| < |node.apps| then
      var a := node.apps[|reqs|];
      node.(head := Receiving(reqs + [a.up[0]]), apps := node.apps[|reqs| := a.(up := a.up[1..])])
    else
      var level := LevelOf(Values(reqs), node.ckptLvel);
      if plan.ftiff && level != 6 && level != 5 then
        node.(head := Informed(Round(reqs, level, [])), ckptLvel := level)
      else
        node.(head := Voting(Round(reqs, level, [])), ckptLvel := level, votes := node.votes + [level != 6])
  }

  /** Receive the file sizes and names of all processes in order. */
  function Hear(node: Node): Node
    requires node.head.Informed?
             && (|node.head.round.infos| < |node.apps| ==> node.apps[|node.head.round.infos|].infos != [])
  {
    var round := node.head.round;
    var i := |round.infos|;
    if i < |node.apps| then
      var a := node.apps[i];
      node.(head := Informed(round.(infos := round.infos + [a.infos[0]])),
            apps := node.apps[i := a.(infos := a.infos[1..])])
    else
      node.(head := Voting(round), votes := node.votes + [true])
  }

  /** All heads agree that every process wrote its file; only then is the checkpoint post-processed. */
  function Decide(plan: Plan, s: State, h: nat): Node
    requires h < |s| && s[h].head.Voting? && HeadCan(s, h)
  {
    var node := s[h];
    if AllFor(s, |node.votes| - 1) then
      node.(head := Posting(node.head.round), votes := node.votes + [plan.headPost(h, |node.log|)])
    else
      node.(head := Sending(node.head.round, FTI_NSCS, 0))
  }

  /** The result of the post-processing is the level if it succeeded everywhere. */
  function Conclude(s: State, h: nat): Node
    requires h < |s| && s[h].head.Posting? && HeadCan(s, h)
  {
    var node := s[h];
    node.(head := Sending(node.head.round, if AllFor(s, |node.votes| - 1) then node.head.round.level else FTI_NSCS, 0))
  }

  /** Send the result to all processes in order. */
  function Send(node: Node): Node
    requires node.head.Sending?
  {
    var to := node.head.to;
    if to < |node.apps| then
      var a := node.apps[to];
      node.(head := node.head.(to := to + 1), apps := node.apps[to := a.(down := a.down + [node.head.res])])
    else
      node.(head := Listening, log := node.log + [Done(node.head.round, node.head.res)])
  }

  /** Collect the end tokens of all processes. */
  function End(node: Node): Node
    requires node.head.Ending? && (|node.head.tokens| < |node.apps| ==> node.apps[|node.head.tokens|].final != [])
  {
    var tokens := node.head.tokens;
    if |tokens| < |node.apps| then
      var a := node.apps[|tokens|];
      node.(head := Ending(tokens + [a.final[0]]), apps := node.apps[|tokens| := a.(final := a.final[1..])])
    else
      node.(head := Stopped(tokens))
  }

  function HeadNext(plan: Plan, s: State, h: nat): Node
    requires h < |s| && HeadCan(s, h)
  {
    var node := s[h];
    match node.head
    case Listening => Listen(node)
    case Receiving(_) => Receive(plan, node)
    case Informed(_) => Hear(node)
    case Voting(_) => Decide(plan, s, h)
    case Posting(_) => Conclude(s, h)
    case Sending(_, _, _) => Send(node)
    case Ending(_) => End(node)
    case Stopped(_) => node
  }

  // ----- Runs -----

  datatype Step = AppStep(h: nat, i: nat) | HeadStep(h: nat)

  predicate Can(plan: Plan, s: State, step: Step) {
    && step.h < |s|
    && if step.AppStep? then step.i < |s[step.h].apps| && AppMay(plan, s, s[step.h].apps[step.i])
         else HeadCan(s, step.h)
  }

  predicate AppMay(plan: Plan, s: State, a: App) {
    AppCan(plan, a) && Arrived(plan, s, a) && (a.phase == Processing ==> a.call < |plan.levels|)
  }

  predicate NothingSent(node: Node) {
    forall i :: 0 <= i < |node.apps| ==> node.apps[i].down == []
  }

  predicate AppMayUnbuffered(plan: Plan, s: State, a: App) {
    AppMay(plan, s, a) && a.up == [] && a.infos == []
  }

  /** A step that is possible even if nothing is buffered: a sender waits until its message was received. */
  predicate CanUnbuffered(plan: Plan, s: State, step: Step) {
    && Can(plan, s, step)
    && if step.AppStep? then AppMayUnbuffered(plan, s, s[step.h].apps[step.i]) else NothingSent(s[step.h])
  }

  ghost function After(plan: Plan, s: State, step: Step): State
    requires Can(plan, s, step)
  {
    if step.AppStep? then
      var node := s[step.h];
      s[step.h := node.(apps := node.apps[step.i := AppNext(plan, step.h, step.i, node.apps[step.i])])]
    else
      s[step.h := HeadNext(plan, s, step.h)]
  }

  /** Any interleaving of the steps of all processes and heads. */
  ghost predicate IsRun(plan: Plan, states: seq<State>, steps: seq<Step>) {
    && |states| == |steps| + 1
    && (exists lastCkptLvel :: states[0] == Initial(plan, lastCkptLvel))
    && (forall k :: 0 <= k < |steps| ==>
          Can(plan, states[k], steps[k]) && states[k + 1] == After(plan, states[k], steps[k]))
  }
}
