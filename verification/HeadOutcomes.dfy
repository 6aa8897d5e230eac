/** What processes and heads show in any state of any run, in terms of the calls alone. */
module HeadOutcomes {
  import opened HeadProtocol
  import opened HeadInvariant
  import opened HeadRounds
  import opened HeadTheorems
  import opened HeadRuns

  // ----- What counts as written, and as a success -----

  /** The processes agree on a write, and on inline post-processing, by the sum of their return codes, 0 or -1. */
  function Code(ok: bool): int {
    if ok then 0 else FTI_NSCS
  }

  function Codes(n: nat, res: nat -> bool): (r: seq<int>)
    ensures |r| == n && forall i :: 0 <= i < n ==> r[i] == Code(res(i))
  {
    seq(n, i requires 0 <= i => Code(res(i)))
  }

  function Row(res: (nat, nat) -> bool, h: nat): nat -> bool {
    (i: nat) => res(h, i)
  }

  function Sums(nodes: nat, apps: nat, res: (nat, nat) -> bool): (r: seq<int>)
    ensures |r| == nodes && forall h: nat :: h < nodes ==> r[h] == Total(Codes(apps, Row(res, h)))
  {
    seq(nodes, h requires 0 <= h => Total(Codes(apps, Row(res, h))))
  }

  /** The sum over all processes of all nodes. */
  function Allreduce(nodes: nat, apps: nat, res: (nat, nat) -> bool): int {
    Total(Sums(nodes, apps, res))
  }

  /** A sum of numbers that are 0 or less is 0 only if they all are. */
  lemma {:induction false} TotalOfNone(codes: seq<int>)
    requires forall k :: 0 <= k < |codes| ==> codes[k] <= 0
    ensures Total(codes) <= 0
    ensures Total(codes) == 0 <==> forall k :: 0 <= k < |codes| ==> codes[k] == 0
  {
    if |codes| > 0 {
      TotalOfNone(codes[..|codes| - 1]);
    }
  }

  ghost predicate RowIsAll(apps: nat, res: (nat, nat) -> bool, h: nat) {
    forall i: nat :: i < apps ==> res(h, i)
  }

  lemma {:induction false} AllreduceIsAll(nodes: nat, apps: nat, res: (nat, nat) -> bool)
    ensures Allreduce(nodes, apps, res) == 0 <==> forall h, i :: 0 <= h < nodes && 0 <= i < apps ==> res(h, i)
  {
    var sums := Sums(nodes, apps, res);
    forall h: nat | h < nodes ensures sums[h] <= 0 && (sums[h] == 0 <==> RowIsAll(apps, res, h)) {
      var codes := Codes(apps, Row(res, h));
      TotalOfNone(codes);
      assert sums[h] == Total(codes);
      assert forall i: nat :: i < apps ==> (codes[i] == 0 <==> res(h, i));
    }
    TotalOfNone(sums);
    hide Sums;
    if Total(sums) == 0 {
      forall h: nat, i: nat | h < nodes && i < apps ensures res(h, i) {
        assert sums[h] == 0 && RowIsAll(apps, res, h);
      }
    }
  }

  function Files(plan: Plan, c: nat): (nat, nat) -> bool {
    (g: nat, j: nat) => plan.file(g, j, c)
  }

  /** A write is good for a process if the sum of all codes is 0 and, except with FTI-FF, its own metadata are. */
  lemma {:induction false} WroteByCodes(plan: Plan, h: nat, i: nat, c: nat)
    ensures Wrote(plan, h, i, c) <==>
            Allreduce(plan.nodes, plan.apps, Files(plan, c)) == 0
            && (!plan.ftiff ==> plan.metadata(h, i, c))
  {
    hide Allreduce;
    AllreduceIsAll(plan.nodes, plan.apps, Files(plan, c));
    assert forall g: nat, j: nat :: Files(plan, c)(g, j) == plan.file(g, j, c);
  }

  /** Inline post-processing, which a process fails that could not write, is a success if the sum of all codes is 0. */
  lemma {:induction false} InlineByCodes(plan: Plan, c: nat, res: (nat, nat) -> bool)
    requires forall h, i :: 0 <= h < plan.nodes && 0 <= i < plan.apps ==>
             (res(h, i) <==> Wrote(plan, h, i, c) && plan.appPost(h, i, c))
    ensures InlineDone(plan, c) <==> Allreduce(plan.nodes, plan.apps, res) == 0
  {
    hide Allreduce, Wrote;
    AllreduceIsAll(plan.nodes, plan.apps, res);
    if InlineDone(plan, c) {
      forall h, i | 0 <= h < plan.nodes && 0 <= i < plan.apps ensures res(h, i) {
        assert NodeWrote(plan, h, c);
      }
    }
  }

  function VoteCodes(s: State, k: nat): (r: seq<int>)
    requires Voted(s, k + 1)
    ensures |r| == |s| && forall h :: 0 <= h < |s| ==> r[h] == Code(s[h].votes[k])
  {
    seq(|s|, h requires 0 <= h < |s| => Code(s[h].votes[k]))
  }

  /** The heads agree by the sum of their codes. */
  lemma {:induction false} HeadsByCodes(s: State, k: nat)
    requires Voted(s, k + 1)
    ensures AllFor(s, k) <==> Total(VoteCodes(s, k)) == 0
  {
    var codes := VoteCodes(s, k);
    assert forall h :: 0 <= h < |s| ==> (codes[h] == 0 <==> s[h].votes[k]);
    TotalOfNone(codes);
  }

  /** All files of all processes, and, except with FTI-FF, all metadata. */
  ghost predicate Complete(plan: Plan, c: nat) {
    forall g, j :: 0 <= g < plan.nodes && 0 <= j < plan.apps ==>
      plan.file(g, j, c) && (plan.ftiff || plan.metadata(g, j, c))
  }

  lemma {:induction false} CompleteIsAllWrote(plan: Plan, c: nat)
    ensures Complete(plan, c) <==> AllWrote(plan, c)
  {
    if AllWrote(plan, c) {
      forall g, j | 0 <= g < plan.nodes && 0 <= j < plan.apps
        ensures plan.file(g, j, c) && (plan.ftiff || plan.metadata(g, j, c))
      {
        assert NodeWrote(plan, g, c);
        assert Wrote(plan, g, j, c);
      }
    }
  }

  /** A call succeeds if all wrote, and all processes or all heads did the post-processing. */
  lemma {:induction false} SucceededIff(plan: Plan, c: nat)
    requires plan.Valid() && c < |plan.levels|
    ensures Succeeded(plan, c) <==>
            && Complete(plan, c)
            && if plan.isInline(plan.levels[c]) then
                 forall g, j :: 0 <= g < plan.nodes && 0 <= j < plan.apps ==> plan.appPost(g, j, c)
               else
                 forall g :: 0 <= g < plan.nodes ==> plan.headPost(g, |Offs(plan, c)|)
  {
    CompleteIsAllWrote(plan, c);
    hide Complete, AllWrote, Offs;
    if Offline(plan, c) {
      OffAt(plan, c);
    }
  }

  // ----- Rounds -----

  /** The rounds are the calls for the heads, in order. */
  lemma {:induction false} RoundsAreOfflineCalls(plan: Plan, c: nat)
    requires c <= |plan.levels|
    ensures forall j, k :: 0 <= j < k < |Offs(plan, c)| ==> Offs(plan, c)[j] < Offs(plan, c)[k]
    ensures forall d: nat :: d in Offs(plan, c) <==> d < c && !plan.isInline(plan.levels[d])
  {
    if c > 0 {
      RoundsAreOfflineCalls(plan, c - 1);
      var before := Offs(plan, c - 1);
      assert forall j :: 0 <= j < |before| ==> before[j] in before;
    }
  }

  /** What a head has done in a round: the tokens it read, the level it found, and the result it reported. */
  lemma {:induction false} RoundOutcome(plan: Plan, states: seq<State>, steps: seq<Step>, start: int, k: nat,
                                        h: nat, j: nat)
    requires plan.Valid() && IsRun(plan, states, steps) && states[0] == Initial(plan, start) && k < |states|
    requires h < |states[k]| && j < |states[k][h].log|
    ensures j < |AllOffs(plan)| && AllOffs(plan)[j] < |plan.levels| && |states[k][h].log[j].round.reqs| == plan.apps
    ensures var done, c := states[k][h].log[j], AllOffs(plan)[j];
      && (forall i :: 0 <= i < plan.apps ==>
            done.round.reqs[i].value == if Wrote(plan, h, i, c) then 990 + plan.levels[c] else 996)
      && done.round.level == (if NodeWrote(plan, h, c) then plan.levels[c] else 6)
      && done.res ==
         if Complete(plan, c) && forall g :: 0 <= g < plan.nodes ==> plan.headPost(g, j) then plan.levels[c] else -1
  {
    RequestsNotMixed(plan, states, steps, start, k, h, j);
    OffsInRange(plan, |plan.levels|, j);
    CompleteIsAllWrote(plan, AllOffs(plan)[j]);
    hide IsRun, AllOffs, Wrote, NodeWrote, AllWrote, Complete;
    forall i | 0 <= i < plan.apps
      ensures Requests(plan, h, i)[j].value ==
              if Wrote(plan, h, i, AllOffs(plan)[j]) then 990 + plan.levels[AllOffs(plan)[j]] else 996
    {
    }
  }

  // ----- The level of a head -----

  /** In a round the head shows the level that it found. */
  ghost predicate ShowsLevel(node: Node) {
    InRound(node.head) ==> node.ckptLvel == RoundOf(node.head).level
  }

  function RoundOf(head: Head): Round
    requires InRound(head)
  {
    match head
    case Informed(round) => round
    case Voting(round) => round
    case Posting(round) => round
    case Sending(round, _, _) => round
  }

  lemma {:induction false} HeadsShowLevel(plan: Plan, states: seq<State>, steps: seq<Step>, k: nat)
    requires IsRun(plan, states, steps) && k < |states|
    ensures forall h :: 0 <= h < |states[k]| ==> ShowsLevel(states[k][h])
  {
    if k > 0 {
      HeadsShowLevel(plan, states, steps, k - 1);
      assert Can(plan, states[k - 1], steps[k - 1]) && states[k] == After(plan, states[k - 1], steps[k - 1]);
      hide IsRun;
      if steps[k - 1].HeadStep? {
        HeadShowsLevel(plan, states[k - 1], steps[k - 1].h);
      }
      hide HeadNext, AppNext, Can, ShowsLevel;
      forall h | 0 <= h < |states[k]| ensures ShowsLevel(states[k][h]) {
        AppsDoNotMatter(states[k - 1][h], states[k][h].apps);
      }
    }
  }

  lemma AppsDoNotMatter(node: Node, apps: seq<App>)
    ensures ShowsLevel(node.(apps := apps)) == ShowsLevel(node)
  {
  }

  lemma {:induction false} HeadShowsLevel(plan: Plan, s: State, h: nat)
    requires h < |s| && HeadCan(s, h) && ShowsLevel(s[h])
    ensures ShowsLevel(HeadNext(plan, s, h))
  {
    hide LevelOf, AllFor;
  }

  /** A head post-processes a checkpoint that all wrote, and at the level of its call. */
  lemma {:induction false} PostAtLevel(plan: Plan, states: seq<State>, steps: seq<Step>, start: int, k: nat, h: nat)
    requires plan.Valid() && IsRun(plan, states, steps) && states[0] == Initial(plan, start) && k < |states|
    requires h < |states[k]| && states[k][h].head.Posting?
    ensures var j := |states[k][h].log|;
      && j < |AllOffs(plan)| && AllOffs(plan)[j] < |plan.levels| && Complete(plan, AllOffs(plan)[j])
      && states[k][h].ckptLvel == plan.levels[AllOffs(plan)[j]]
  {
    RunFits(plan, states, steps, start, k);
    assert NodeInv(plan, h, start, states[k][h]);
    HeadsShowLevel(plan, states, steps, k);
    assert ShowsLevel(states[k][h]);
    var j := |states[k][h].log|;
    OffsInRange(plan, |plan.levels|, j);
    CompleteIsAllWrote(plan, AllOffs(plan)[j]);
    hide IsRun, VotesFit, AppsFit, LogFits, AllOffs, AllWrote, Complete;
  }

  // ----- The levels of a process -----

  /** In every state the two levels of a process are decided by the calls it has made, and by those with a result. */
  lemma {:induction false} LevelsShown(plan: Plan, states: seq<State>, steps: seq<Step>, start: int, k: nat, h: nat,
                                       i: nat)
    requires plan.Valid() && IsRun(plan, states, steps) && states[0] == Initial(plan, start) && k < |states|
    requires h < |states[k]| && i < |states[k][h].apps|
    ensures var a := states[k][h].apps[i];
      && Made(a) <= |plan.levels| && Settled(a) <= |plan.levels|
      && a.ckptLvel == Shown(plan, h, i, Made(a), start)
      && a.lastCkptLvel == Latest(plan, Settled(a), start)
  {
    RunFits(plan, states, steps, start, k);
    var n := AppAt(plan, start, states[k], h, i);
    hide Inv, CountsOf, Offs, Result, Request, Latest, InfoCalls, Shown;
  }

  /** The level of a call decides what is shown. */
  ghost predicate Decides(plan: Plan, h: nat, i: nat, c: nat)
    requires c < |plan.levels|
  {
    Wrote(plan, h, i, c) || plan.isInline(plan.levels[c])
  }

  /** What is shown is decided by the latest call that decides. */
  lemma {:induction false} ShownIs(plan: Plan, h: nat, i: nat, c: nat, start: int, b: nat)
    requires b < c <= |plan.levels| && Decides(plan, h, i, b)
    requires forall d :: b < d < c ==> !Decides(plan, h, i, d)
    ensures Shown(plan, h, i, c, start) == if Wrote(plan, h, i, b) then plan.levels[b] else 6
  {
    hide Wrote;
    if b < c - 1 {
      assert !Decides(plan, h, i, c - 1);
      ShownIs(plan, h, i, c - 1, start, b);
    }
  }

  lemma {:induction false} ShownAtFirst(plan: Plan, h: nat, i: nat, c: nat, start: int)
    requires c <= |plan.levels| && forall d :: 0 <= d < c ==> !Decides(plan, h, i, d)
    ensures Shown(plan, h, i, c, start) == start
  {
    hide Wrote;
    if c > 0 {
      assert !Decides(plan, h, i, c - 1);
      ShownAtFirst(plan, h, i, c - 1, start);
    }
  }

  /** The last level is that of the latest success. */
  lemma {:induction false} LatestIs(plan: Plan, c: nat, start: int, b: nat)
    requires b < c <= |plan.levels| && Succeeded(plan, b)
    requires forall d :: b < d < c ==> !Succeeded(plan, d)
    ensures Latest(plan, c, start) == plan.levels[b]
  {
    hide Succeeded;
    if b < c - 1 {
      LatestIs(plan, c - 1, start, b);
    }
  }

  lemma {:induction false} LatestAtFirst(plan: Plan, c: nat, start: int)
    requires c <= |plan.levels| && forall d :: 0 <= d < c ==> !Succeeded(plan, d)
    ensures Latest(plan, c, start) == start
  {
    hide Succeeded;
    if c > 0 {
      LatestAtFirst(plan, c - 1, start);
    }
  }

  // ----- Collectives

  /** Nobody is past the write of a call, or past its inline post-processing, before all others have come to it. */
  ghost predicate Together(plan: Plan, s: State) {
    forall h, i, g, j, c :: 0 <= h < |s| && 0 <= i < |s[h].apps| && 0 <= g < |s| && 0 <= j < |s[g].apps| ==>
      Behind(plan, s[h].apps[i], s[g].apps[j], c)
  }

  /** If `a` is past a collective of call `c`, `b` has come to it. */
  predicate Behind(plan: Plan, a: App, b: App, c: nat) {
    c < |plan.levels| ==>
      && (Place(a) >= 4 * c + 2 ==> Place(b) >= 4 * c + 1)
      && (plan.isInline(plan.levels[c]) && Place(a) >= 4 * c + 3 ==> Place(b) >= 4 * c + 2)
  }

  lemma {:induction false} AlwaysTogether(plan: Plan, states: seq<State>, steps: seq<Step>, start: int, k: nat)
    requires plan.Valid() && IsRun(plan, states, steps) && states[0] == Initial(plan, start) && k < |states|
    ensures Together(plan, states[k])
  {
    if k > 0 {
      RunShape(plan, states, steps);
      RunStep(plan, states, steps, k - 1);
      hide *;
      AlwaysTogether(plan, states, steps, start, k - 1);
      RunFits(plan, states, steps, start, k - 1);
      StepStaysTogether(plan, start, states[k - 1], steps[k - 1]);
    } else {
      hide IsRun, Together, Initial;
      StartsTogether(plan, start);
    }
  }

  lemma {:induction false} RunStep(plan: Plan, states: seq<State>, steps: seq<Step>, k: nat)
    requires IsRun(plan, states, steps) && |states| == |steps| + 1 && k < |steps|
    ensures Can(plan, states[k], steps[k]) && states[k + 1] == After(plan, states[k], steps[k])
  {
    hide Can, After, Initial;
  }

  lemma {:induction false} StepStaysTogether(plan: Plan, start: int, s: State, step: Step)
    requires Inv(plan, start, s) && Together(plan, s) && Can(plan, s, step)
    ensures Together(plan, After(plan, s, step))
  {
    hide Inv, Together, HeadNext, AppNext;
    if step.AppStep? {
      AppStaysTogether(plan, start, s, step.h, step.i);
    } else {
      HeadStaysTogether(plan, s, step.h);
    }
  }

  lemma StartsTogether(plan: Plan, start: int)
    ensures Together(plan, Initial(plan, start))
  {
  }

  lemma {:induction false} HeadStaysTogether(plan: Plan, s: State, h: nat)
    requires Together(plan, s) && h < |s| && HeadCan(s, h)
    ensures Together(plan, s[h := HeadNext(plan, s, h)])
  {
    var next := HeadNext(plan, s, h);
    if next.apps != s[h].apps {
      var k := ChangedApp(plan, s, h);
    }
    hide HeadNext, HeadCan, Place, Together;
    SamePlaces(plan, s, h, next);
  }

  lemma {:induction false} SamePlaces(plan: Plan, s: State, h: nat, next: Node)
    requires Together(plan, s) && h < |s|
    requires |next.apps| == |s[h].apps|
    requires forall i :: 0 <= i < |next.apps| ==> Place(next.apps[i]) == Place(s[h].apps[i])
    ensures Together(plan, s[h := next])
  {
    var s' := s[h := next];
    hide Place, Behind;
    forall g, i, g', j, c | 0 <= g < |s'| && 0 <= i < |s'[g].apps| && 0 <= g' < |s'| && 0 <= j < |s'[g'].apps|
      ensures Behind(plan, s'[g].apps[i], s'[g'].apps[j], c)
    {
      assert Behind(plan, s[g].apps[i], s[g'].apps[j], c);
      BehindByPlace(plan, s[g].apps[i], s[g'].apps[j], s'[g].apps[i], s'[g'].apps[j], c);
    }
  }

  lemma BehindByPlace(plan: Plan, a: App, b: App, a': App, b': App, c: nat)
    requires Behind(plan, a, b, c) && Place(a') == Place(a) && Place(b') >= Place(b)
    ensures Behind(plan, a', b', c)
  {
  }

  /** A step of `a`, which waits for `b` before a collective. */
  lemma {:induction false} StepBehind(plan: Plan, h: nat, i: nat, a: App, b: App, c: nat)
    requires AppCan(plan, a) && (a.phase == Informing || a.phase == Processing ==> a.call < |plan.levels|)
    requires a.phase == Informing ==> Offline(plan, a.call)
    requires (Collective(plan, a) ==> Place(a) <= Place(b)) && Behind(plan, a, b, c)
    ensures Behind(plan, AppNext(plan, h, i, a), b, c) && Place(a) <= Place(AppNext(plan, h, i, a))
  {
    hide Wrote, InlineDone;
  }

  lemma SelfBehind(plan: Plan, a: App, c: nat)
    ensures Behind(plan, a, a, c)
  {
  }

  /** The same for any two processes, of which `x` or `b` may be the one that takes the step. */
  lemma {:induction false} StepOf(plan: Plan, h: nat, i: nat, a: App, a': App, x: App, x': App, b: App, b': App, c: nat)
    requires AppCan(plan, a) && (a.phase == Informing || a.phase == Processing ==> a.call < |plan.levels|)
    requires a.phase == Informing ==> Offline(plan, a.call)
    requires a' == AppNext(plan, h, i, a) && Behind(plan, a, a, c) && Behind(plan, x, b, c)
    requires Collective(plan, a) ==> Place(a) <= Place(b)
    requires (x' == x || (x == a && x' == a')) && (b' == b || (b == a && b' == a'))
    ensures Behind(plan, x', b', c)
  {
    hide AppNext, Place, Behind, AppCan, Collective, Offline;
    StepBehind(plan, h, i, a, a, c);
    if x' == x {
      BehindByPlace(plan, x, b, x, b', c);
    } else {
      StepBehind(plan, h, i, a, b, c);
      BehindByPlace(plan, a', b, a', b', c);
    }
  }

  lemma {:induction false} OneChanges(plan: Plan, s: State, h: nat, i: nat)
    requires Can(plan, s, AppStep(h, i))
    ensures var s' := After(plan, s, AppStep(h, i));
      && |s'| == |s| && h < |s| && i < |s[h].apps|
      && (forall g :: 0 <= g < |s| ==> |s'[g].apps| == |s[g].apps|)
      && AppMay(plan, s, s[h].apps[i])
      && forall g, k :: 0 <= g < |s| && 0 <= k < |s[g].apps| ==>
           s'[g].apps[k] == if g == h && k == i then AppNext(plan, h, i, s[h].apps[i]) else s[g].apps[k]
  {
    hide AppNext, AppMay;
  }

  lemma {:induction false} WaitsFor(plan: Plan, s: State, a: App, g: nat, j: nat)
    requires AppMay(plan, s, a) && g < |s| && j < |s[g].apps|
    ensures AppCan(plan, a) && (a.phase == Processing ==> a.call < |plan.levels|)
    ensures Collective(plan, a) ==> Place(a) <= Place(s[g].apps[j])
  {
    hide Place, AppCan, Collective;
  }

  lemma {:induction false} AppStaysTogether(plan: Plan, start: int, s: State, h: nat, i: nat)
    requires Inv(plan, start, s) && Together(plan, s) && Can(plan, s, AppStep(h, i))
    ensures Together(plan, After(plan, s, AppStep(h, i)))
  {
    OneChanges(plan, s, h, i);
    var a, s' := s[h].apps[i], After(plan, s, AppStep(h, i));
    var n := AppAt(plan, start, s, h, i);
    Informs(plan, h, i, start, a, n);
    hide Inv, CountsOf, HeadFits, Can, After, AppInv, AppMay, AppNext, Place, Behind, AppCan, Collective, Offline;
    forall g, k, g', j, c | 0 <= g < |s'| && 0 <= k < |s'[g].apps| && 0 <= g' < |s'| && 0 <= j < |s'[g'].apps|
      ensures Behind(plan, s'[g].apps[k], s'[g'].apps[j], c)
    {
      WaitsFor(plan, s, a, g', j);
      SelfBehind(plan, a, c);
      StepOf(plan, h, i, a, AppNext(plan, h, i, a), s[g].apps[k], s'[g].apps[k], s[g'].apps[j], s'[g'].apps[j], c);
    }
  }

  lemma Informs(plan: Plan, h: nat, i: nat, start: int, a: App, n: Counts)
    requires AppInv(plan, h, i, start, a, n)
    ensures a.phase == Informing ==> a.call < |plan.levels| && Offline(plan, a.call)
  {
    hide Offline;
  }
}
