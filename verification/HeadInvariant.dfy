/** What every step of the head protocol keeps. */
module HeadInvariant {
  import opened HeadProtocol

  // ----- What a run should do, call by call -----

  /** The offline calls among the first `c`, in order. */
  ghost function Offs(plan: Plan, c: nat): (r: seq<nat>)
    requires c <= |plan.levels|
  {
    if c == 0 then [] else Offs(plan, c - 1) + if Offline(plan, c - 1) then [c - 1] else []
  }

  ghost function AllOffs(plan: Plan): seq<nat> {
    Offs(plan, |plan.levels|)
  }

  ghost function Request(plan: Plan, h: nat, i: nat, c: nat): Req
    requires c < |plan.levels|
  {
    Req(if Wrote(plan, h, i, c) then FTI_BASE + plan.levels[c] else FTI_REJW, c)
  }

  /** Post-processing succeeds when every process wrote its file and every head did its part. */
  ghost function Result(plan: Plan, j: nat): int
    requires j < |AllOffs(plan)|
  {
    OffsInRange(plan, |plan.levels|, j);
    var c := AllOffs(plan)[j];
    if AllWrote(plan, c) && AllPosted(plan, j) then plan.levels[c] else FTI_NSCS
  }

  ghost predicate AllPosted(plan: Plan, j: nat) {
    forall h :: 0 <= h < plan.nodes ==> plan.headPost(h, j)
  }

  ghost predicate Succeeded(plan: Plan, c: nat)
    requires c < |plan.levels|
  {
    if Offline(plan, c) then OffAt(plan, c); Result(plan, |Offs(plan, c)|) != FTI_NSCS else InlineDone(plan, c)
  }

  /** The level of the latest of the first `c` checkpoints whose post-processing succeeded. */
  ghost function Latest(plan: Plan, c: nat, start: int): int
    requires c <= |plan.levels|
  {
    if c == 0 then start else if Succeeded(plan, c - 1) then plan.levels[c - 1] else Latest(plan, c - 1, start)
  }

  /**
   * The level that process `i` shows after its first `c` calls: that of the latest call if it was written; 6 if it was
   * inline and failed; and what it was before if it was a head's and failed.
   */
  ghost function Shown(plan: Plan, h: nat, i: nat, c: nat, start: int): int
    requires c <= |plan.levels|
  {
    if c == 0 then start
    else if Wrote(plan, h, i, c - 1) then plan.levels[c - 1]
    else if plan.isInline(plan.levels[c - 1]) then 6
    else Shown(plan, h, i, c - 1, start)
  }

  lemma {:induction false} OffsInRange(plan: Plan, c: nat, j: nat)
    requires c <= |plan.levels| && j < |Offs(plan, c)|
    ensures Offs(plan, c)[j] < c && Offline(plan, Offs(plan, c)[j])
  {
    if j < |Offs(plan, c - 1)| {
      OffsInRange(plan, c - 1, j);
    }
  }

  lemma {:induction false} OffsGrow(plan: Plan, c: nat, d: nat)
    requires c <= d <= |plan.levels|
    ensures Offs(plan, c) <= Offs(plan, d)
  {
    if c < d {
      OffsGrow(plan, c, d - 1);
    }
  }

  /** The call after the first `c`, if offline, is the next offline one. */
  lemma {:induction false} OffAt(plan: Plan, c: nat)
    requires c < |plan.levels| && Offline(plan, c)
    ensures |Offs(plan, c)| < |AllOffs(plan)| && AllOffs(plan)[|Offs(plan, c)|] == c
    ensures |Offs(plan, c + 1)| == |Offs(plan, c)| + 1
  {
    assert Offs(plan, c + 1) == Offs(plan, c) + [c];
    OffsGrow(plan, c + 1, |plan.levels|);
  }

  // ----- Messages -----

  /** What process `i` of node `h` asks for, round by round. */
  ghost function Requests(plan: Plan, h: nat, i: nat): (r: seq<Req>)
    ensures |r| == |AllOffs(plan)|
  {
    seq(|AllOffs(plan)|, j requires 0 <= j < |AllOffs(plan)| =>
      OffsInRange(plan, |plan.levels|, j);
      Request(plan, h, i, AllOffs(plan)[j]))
  }

  ghost function Results(plan: Plan): (r: seq<int>)
    ensures |r| == |AllOffs(plan)|
    ensures forall j :: 0 <= j < |r| ==> r[j] == Result(plan, j)
  {
    seq(|AllOffs(plan)|, j requires 0 <= j < |AllOffs(plan)| => Result(plan, j))
  }

  /** The calls that process `i` informs its head of, among the first `k` rounds. */
  ghost function InfoCalls(plan: Plan, h: nat, i: nat, k: nat): (r: seq<nat>)
    requires k <= |AllOffs(plan)|
    ensures |r| <= k
  {
    if k == 0 || !plan.ftiff then
      []
    else
      var c := AllOffs(plan)[k - 1];
      InfoCalls(plan, h, i, k - 1) + if Wrote(plan, h, i, c) then [c] else []
  }

  /** The number of rounds, among the first `k`, in which head `h` reads file sizes and names. */
  ghost function Heard(plan: Plan, h: nat, k: nat): (r: nat)
    requires k <= |AllOffs(plan)|
    ensures r <= k
  {
    if k == 0 || !plan.ftiff then 0
    else Heard(plan, h, k - 1) + if NodeWrote(plan, h, AllOffs(plan)[k - 1]) then 1 else 0
  }

  lemma {:induction false} InfoCallsGrow(plan: Plan, h: nat, i: nat, k: nat, m: nat)
    requires k <= m <= |AllOffs(plan)|
    ensures InfoCalls(plan, h, i, k) <= InfoCalls(plan, h, i, m)
  {
    if k < m {
      InfoCallsGrow(plan, h, i, k, m - 1);
    }
  }

  /** With FTI-FF the processes of all nodes take the same for the result of a write. */
  lemma {:induction false} AllAgree(plan: Plan, h: nat, i: nat, c: nat)
    requires plan.ftiff && i < plan.apps
    ensures Wrote(plan, h, i, c) <==> NodeWrote(plan, h, c)
    ensures Wrote(plan, h, i, c) <==> FilesWritten(plan, c)
  {
    hide FilesWritten;
    if Wrote(plan, h, i, c) {
      assert forall j :: 0 <= j < plan.apps ==> Wrote(plan, h, j, c);
    }
  }

  /** A head asks for all that a process tells. */
  lemma {:induction false} HeardAll(plan: Plan, h: nat, i: nat, k: nat)
    requires i < plan.apps && k <= |AllOffs(plan)|
    ensures Heard(plan, h, k) == |InfoCalls(plan, h, i, k)|
  {
    if k > 0 && plan.ftiff {
      HeardAll(plan, h, i, k - 1);
      AllAgree(plan, h, i, AllOffs(plan)[k - 1]);
      hide Wrote, NodeWrote, AllOffs;
    }
  }

  // ----- Application processes -----

  /** Calls whose request is sent, and calls whose result is known. */
  function Sent(a: App): nat {
    if a.phase == Informing then a.call + 1 else a.call
  }

  /** Calls that the process has made. */
  function Made(a: App): nat {
    if a.phase == Informing || a.phase == Processing then a.call + 1 else a.call
  }

  function Settled(a: App): nat {
    if a.phase == Ready && a.wasLastOffline && a.call > 0 then a.call - 1 else a.call
  }

  /** How much of the messages of one process its head has consumed and produced. */
  datatype Counts = Counts(reqs: nat, infos: nat, results: nat, ended: bool)

  ghost predicate CallsFit(plan: Plan, h: nat, i: nat, a: App) {
    && a.call <= |plan.levels|
    && (a.phase == Processing ==> !a.wasLastOffline)
    && (a.phase == Ready && a.wasLastOffline ==> a.call > 0 && Offline(plan, a.call - 1))
    && (a.phase == Informing ==>
          a.wasLastOffline && a.call < |plan.levels| && Offline(plan, a.call) && Wrote(plan, h, i, a.call)
            && plan.ftiff)
    && (a.phase == Processing ==> a.call < |plan.levels| && !Offline(plan, a.call))
    && (a.phase == Ended ==> a.call == |plan.levels|)
  }

  ghost predicate RequestsFit(plan: Plan, h: nat, i: nat, a: App, n: Counts)
    requires CallsFit(plan, h, i, a)
  {
    var sent := |Offs(plan, Sent(a))|;
    n.reqs <= sent <= |AllOffs(plan)| && a.up == Requests(plan, h, i)[n.reqs..sent]
  }

  ghost predicate ResultsFit(plan: Plan, h: nat, i: nat, a: App, n: Counts)
    requires CallsFit(plan, h, i, a)
  {
    var settled := |Offs(plan, Settled(a))|;
    && settled <= n.results <= n.reqs <= |AllOffs(plan)|
    && a.got == Results(plan)[..settled]
    && a.down == Results(plan)[settled..n.results]
  }

  ghost predicate InfosFit(plan: Plan, h: nat, i: nat, a: App, n: Counts)
    requires CallsFit(plan, h, i, a)
  {
    var k := |Offs(plan, a.call)|;
    && k <= |AllOffs(plan)|
    && n.infos <= |InfoCalls(plan, h, i, k)|
    && a.infos == InfoCalls(plan, h, i, k)[n.infos..]
  }

  ghost predicate EndFits(a: App, n: Counts) {
    && (n.ended ==> a.phase == Ended)
    && a.final == if a.phase == Ended && !n.ended then [FTI_ENDW] else []
  }

  ghost predicate AppInv(plan: Plan, h: nat, i: nat, start: int, a: App, n: Counts) {
    && CallsFit(plan, h, i, a)
    && RequestsFit(plan, h, i, a, n)
    && ResultsFit(plan, h, i, a, n)
    && InfosFit(plan, h, i, a, n)
    && EndFits(a, n)
    && a.lastCkptLvel == Latest(plan, Settled(a), start)
    && a.ckptLvel == Shown(plan, h, i, Made(a), start)
  }

  lemma {:induction false} SliceLonger<T>(s: seq<T>, lo: nat, hi: nat)
    requires lo <= hi < |s|
    ensures s[lo..hi + 1] == s[lo..hi] + [s[hi]]
  {
  }

  lemma {:induction false} SliceFirst<T>(s: seq<T>, lo: nat, hi: nat)
    requires lo < hi <= |s|
    ensures s[lo..hi][0] == s[lo] && s[lo..hi][1..] == s[lo + 1..hi]
  {
  }

  lemma {:induction false} CollectKeeps(plan: Plan, h: nat, i: nat, start: int, a: App, n: Counts)
    requires AppInv(plan, h, i, start, a, n) && a.phase == Ready && (a.wasLastOffline ==> a.down != [])
    ensures AppInv(plan, h, i, start, Collect(a), n)
  {
    hide Offs, AllOffs, Offline, Request, Requests, Result, Results, Succeeded, InfoCalls, Latest;
    if a.wasLastOffline {
      Settles(plan, a.call - 1, start);
      var settled := |Offs(plan, a.call - 1)|;
      SliceFirst(Results(plan), settled, n.results);
      SliceLonger(Results(plan), 0, settled);
    }
  }

  /** The result of an offline call decides what the latest success is. */
  lemma {:induction false} Settles(plan: Plan, c: nat, start: int)
    requires c < |plan.levels| && Offline(plan, c)
    ensures var j := |Offs(plan, c)|;
      && j < |AllOffs(plan)| && |Offs(plan, c + 1)| == j + 1 && |Results(plan)| == |AllOffs(plan)|
      && Latest(plan, c + 1, start) == if Results(plan)[j] != FTI_NSCS then Results(plan)[j] else Latest(plan, c, start)
  {
    OffAt(plan, c);
    ResultLevel(plan, c);
    hide Offs, Result;
  }

  lemma {:induction false} ResultLevel(plan: Plan, c: nat)
    requires c < |plan.levels| && Offline(plan, c) && |Offs(plan, c)| < |AllOffs(plan)|
    ensures Result(plan, |Offs(plan, c)|) == if Succeeded(plan, c) then plan.levels[c] else FTI_NSCS
  {
    OffAt(plan, c);
  }

  lemma {:induction false} OfflineKeeps(plan: Plan, h: nat, i: nat, start: int, a: App, n: Counts)
    requires AppInv(plan, h, i, start, a, n) && a.phase == Writing && a.call < |plan.levels| && Offline(plan, a.call)
    ensures AppInv(plan, h, i, start, Checkpoint(plan, h, i, a), n)
  {
    hide Offs, AllOffs, Offline, Wrote, Request, Requests, Result, Results, Succeeded, InfoCalls, Latest, Shown;
    ShownNext(plan, h, i, a.call, start);
    NoInfo(plan, h, i, a.call);
    NextRequest(plan, h, i, a.call);
    SliceLonger(Requests(plan, h, i), n.reqs, |Offs(plan, a.call)|);
  }

  lemma {:induction false} NextRequest(plan: Plan, h: nat, i: nat, c: nat)
    requires c < |plan.levels| && Offline(plan, c)
    ensures var j := |Offs(plan, c)|;
      && j < |AllOffs(plan)| && |Offs(plan, c + 1)| == j + 1
      && Requests(plan, h, i)[j] == Req(if Wrote(plan, h, i, c) then FTI_BASE + plan.levels[c] else FTI_REJW, c)
  {
    OffAt(plan, c);
    hide Offs;
  }

  lemma {:induction false} InlineKeeps(plan: Plan, h: nat, i: nat, start: int, a: App, n: Counts)
    requires AppInv(plan, h, i, start, a, n)
    requires a.phase == Writing && a.call < |plan.levels| && !Offline(plan, a.call)
    ensures AppInv(plan, h, i, start, Checkpoint(plan, h, i, a), n)
  {
    ShownNext(plan, h, i, a.call, start);
    hide Offs, Requests, Result, Results, Succeeded, InfoCalls, Latest, Offline, Wrote, Shown;
  }

  lemma {:induction false} ShownNext(plan: Plan, h: nat, i: nat, c: nat, start: int)
    requires c < |plan.levels|
    ensures Shown(plan, h, i, c + 1, start) ==
            if Wrote(plan, h, i, c) then plan.levels[c]
            else if Offline(plan, c) then Shown(plan, h, i, c, start) else FTI_REJW - FTI_BASE
  {
  }

  lemma {:induction false} PostprocessKeeps(plan: Plan, h: nat, i: nat, start: int, a: App, n: Counts)
    requires AppInv(plan, h, i, start, a, n) && a.phase == Processing
    ensures AppInv(plan, h, i, start, Postprocess(plan, a), n)
  {
    hide Offs, InlineDone, Requests, Result, Results, Succeeded, InfoCalls, Latest;
    InlineStep(plan, a.call, start);
    hide Offline;
  }

  lemma {:induction false} InlineStep(plan: Plan, c: nat, start: int)
    requires c < |plan.levels| && !Offline(plan, c)
    ensures Offs(plan, c + 1) == Offs(plan, c)
    ensures Latest(plan, c + 1, start) == if InlineDone(plan, c) then plan.levels[c] else Latest(plan, c, start)
  {
    hide InlineDone, Offline;
  }

  lemma {:induction false} NoInfo(plan: Plan, h: nat, i: nat, c: nat)
    requires c < |plan.levels| && Offline(plan, c)
    ensures var k := |Offs(plan, c)|;
      k < |AllOffs(plan)|
        && (!Wrote(plan, h, i, c) || !plan.ftiff ==> InfoCalls(plan, h, i, k + 1) == InfoCalls(plan, h, i, k))
  {
    OffAt(plan, c);
  }

  lemma {:induction false} InformKeeps(plan: Plan, h: nat, i: nat, start: int, a: App, n: Counts)
    requires AppInv(plan, h, i, start, a, n) && a.phase == Informing
    ensures AppInv(plan, h, i, start, Inform(a), n)
  {
    var k := |Offs(plan, a.call)|;
    OffAt(plan, a.call);
    assert InfoCalls(plan, h, i, k + 1) == InfoCalls(plan, h, i, k) + [a.call];
  }

  lemma {:induction false} FinishKeeps(plan: Plan, h: nat, i: nat, start: int, a: App, n: Counts)
    requires AppInv(plan, h, i, start, a, n) && a.phase == Writing && a.call == |plan.levels|
    ensures AppInv(plan, h, i, start, Finish(a), n)
  {
  }

  lemma {:induction false} AppStepKeeps(plan: Plan, h: nat, i: nat, start: int, a: App, n: Counts)
    requires AppInv(plan, h, i, start, a, n) && AppCan(plan, a) && (a.phase == Processing ==> a.call < |plan.levels|)
    ensures AppInv(plan, h, i, start, AppNext(plan, h, i, a), n)
  {
    hide AppInv;
    if a.phase == Ready {
      CollectKeeps(plan, h, i, start, a, n);
    } else if a.phase == Writing {
      if a.call < |plan.levels| {
        if Offline(plan, a.call) {
          OfflineKeeps(plan, h, i, start, a, n);
        } else {
          InlineKeeps(plan, h, i, start, a, n);
        }
      } else {
        FinishKeeps(plan, h, i, start, a, n);
      }
    } else if a.phase == Informing {
      InformKeeps(plan, h, i, start, a, n);
    } else if a.phase == Processing {
      PostprocessKeeps(plan, h, i, start, a, n);
    }
  }
}
