/** What the staging protocol tells, which IDs it hands out, and that every request ends. */
module StagingTheorems {
  import opened StageFields
  import opened StageTable
  import opened StagingProtocol

  // ------------------------------------------------------------------ what is told

  /** The events that a step adds, by the life of the ID so far. */
  predicate Logs(s: State, step: Step, events: seq<Event>)
    requires InRange(s) && Enabled(s, step)
  {
    match step
    case Send => events == [Issued(s.app.id)]
    case WriteActive => events == [Activated(s.head.id)]
    case WriteSuccess => events == [Finished(s.head.id, SCES)]
    case WriteFail => events == [Finished(s.head.id, FAIL)]
    case WriteRelease => PhaseOf(s.log, s.app.id).Done? && events == [Told(s.app.id, PhaseOf(s.log, s.app.id).result)]
    case Ask(id, _) =>
      (match PhaseOf(s.log, id)
       case Free => events == [Told(id, NINI)]
       case Queued => events == [Told(id, PEND)]
       case Active => events == [Told(id, ACTV)]
       case Done(_) => events == [])
    case _ => events == []
  }

  /**
   * Every look at a status is answered by the state the request is in: not initialised, pending from issue to
   * activation, active from then to its end; the end itself is told once the ID is released.
   */
  lemma {:induction false} EveryLookIsAnswered(states: seq<State>, steps: seq<Step>, t: nat)
    requires Run(states, steps) && t < |steps|
    ensures |states[t].log| <= |states[t + 1].log| && states[t + 1].log[..|states[t].log|] == states[t].log
    ensures Logs(states[t], steps[t], states[t + 1].log[|states[t].log|..])
    ensures steps[t].Ask? && PhaseOf(states[t].log, steps[t].id).Done? ==>
            states[t + 1].app == Reporting(steps[t].id, PhaseOf(states[t].log, steps[t].id).result)
    ensures steps[t].Ask? && !PhaseOf(states[t].log, steps[t].id).Done? ==> states[t + 1].app.Idle?
  {
    RunKeepsInv(states, steps, t);
    StepLogs(states[t], steps[t]);
    hide Inv, After, Enabled, Logs, PhaseOf, InRange;
  }

  lemma StepLogs(s: State, step: Step)
    requires Inv(s) && Enabled(s, step)
    ensures var s' := After(s, step);
      && |s.log| <= |s'.log| && s'.log[..|s.log|] == s.log && Logs(s, step, s'.log[|s.log|..])
      && (step.Ask? && PhaseOf(s.log, step.id).Done? ==>
            s'.app == Reporting(step.id, PhaseOf(s.log, step.id).result))
      && (step.Ask? && !PhaseOf(s.log, step.id).Done? ==> s'.app.Idle?)
  {
    if step.Ask? {
      At(s, step.id);
      StatusTells(s, step.id);
    } else if step.WriteRelease? {
      At(s, s.app.id);
      InAppsHands(s, s.app.id);
    }
    hide Inv, IdOk, GetVal, Taken, SetVal, SetTaken, PhaseOf, Freed, Unlisted, NewId, Has;
  }

  // ------------------------------------------------------------------ the requests of the application

  /**
   * The application keeps a request from its issue on; a look at the status drops it exactly if its message was sent
   * or the request is no longer pending, and nothing else does.
   */
  lemma {:induction false} RequestKept(states: seq<State>, steps: seq<Step>, t: nat, id: nat)
    requires Run(states, steps) && t < |steps| && id < MAX_NUM
    ensures Has(states[t + 1].table, id) <==>
            || (steps[t].WritePending? && states[t].app.id == id)
            || (&& Has(states[t].table, id)
                && !(steps[t].Ask? && steps[t].id == id && (steps[t].sent || PhaseOf(states[t].log, id) != Queued)))
  {
    RunKeepsInv(states, steps, t);
    StepKeepsRequest(states[t], steps[t], id);
    hide Inv, After, PhaseOf, Has;
  }

  lemma {:induction false} StepKeepsRequest(s: State, step: Step, id: nat)
    requires Inv(s) && Enabled(s, step) && id < MAX_NUM
    ensures Has(After(s, step).table, id) <==>
            || (step.WritePending? && s.app.id == id)
            || (Has(s.table, id) && !(step.Ask? && step.id == id && (step.sent || PhaseOf(s.log, id) != Queued)))
  {
    if step.WritePending? {
      HasAppend(s.table, s.app.id, id);
    } else if step.Ask? {
      FreedFacts(s.table, step.id);
      At(s, step.id);
      StatusTells(s, step.id);
    }
    hide Inv, IdOk, GetVal, Taken, SetVal, SetTaken, PhaseOf, Freed, Unlisted, NewId, Has;
  }

  // ------------------------------------------------------------------ which IDs are handed out

  predicate EverIssued(log: seq<Event>, id: nat) {
    Issued(id) in log
  }

  /** The counter is past exactly the IDs that were issued, or are about to be. */
  predicate Counted(s: State, id: nat) {
    && (EverIssued(s.log, id) ==> id < s.reqCnt)
    && (id < s.reqCnt ==> EverIssued(s.log, id) || AppOn(s, id))
  }

  ghost predicate CountInv(s: State, id: nat) {
    && Counted(s, id) && (AppOn(s, id) ==> id < s.reqCnt)
    && (AppOn(s, id) && !Issuing(s) ==> EverIssued(s.log, id))
  }

  lemma CountedStep(s: State, step: Step, id: nat)
    requires Inv(s) && Enabled(s, step) && CountInv(s, id)
    ensures CountInv(After(s, step), id)
  {
    if step.Ask? {
      At(s, step.id);
      StatusTells(s, step.id);
    }
    StepLogs(s, step);
    hide Inv, IdOk, GetVal, Taken, SetVal, SetTaken, PhaseOf, Freed, Unlisted, Has;
  }

  /** The application is in `FTI_SendFile`. */
  predicate Issuing(s: State) {
    s.app.Chosen? || s.app.Claiming? || s.app.Claimed? || s.app.Pending? || s.app.Listed?
  }

  lemma StartCounts(id: nat)
    ensures CountInv(Start(), id)
  {
  }

  lemma {:induction false} RunCounts(states: seq<State>, steps: seq<Step>, t: nat, id: nat)
    requires Run(states, steps) && t < |states| && id < MAX_NUM
    ensures CountInv(states[t], id)
    decreases t
  {
    hide Inv, After, Enabled, CountInv, Start;
    if t == 0 {
      StartCounts(id);
    } else {
      RunCounts(states, steps, t - 1, id);
      RunKeepsInv(states, steps, t - 1);
      assert states[t - 1 + 1] == After(states[t - 1], steps[t - 1]);
      CountedStep(states[t - 1], steps[t - 1], id);
    }
  }

  /** The ID has no request, or the end of its last one was told. */
  predicate Unused(log: seq<Event>, id: nat) {
    PhaseOf(log, id) == Free
  }

  /** Between two calls an ID is taken exactly while it is in use. */
  lemma {:induction false} TakenInUse(s: State, id: nat)
    requires InRange(s) && id < MAX_NUM && IdOk(s, id) && s.app.Idle?
    ensures Taken(s.bytes[id]) <==> PhaseOf(s.log, id) != Free
  {
    hide GetVal, Taken, PhaseOf, Has;
  }

  /**
   * A new request gets an ID if and only if one is not in use.  IDs that were never issued go first, in order; after
   * that it is the least ID that is not in use.
   */
  lemma {:induction false} NewIdIff(states: seq<State>, steps: seq<Step>, t: nat)
    requires Run(states, steps) && t < |states| && states[t].app.Idle?
    ensures |states[t].bytes| == MAX_NUM
    ensures var s := states[t];
      && (NewId(s) < MAX_NUM <==> exists id: nat :: id < MAX_NUM && Unused(s.log, id))
      && (forall id :: 0 <= id < MAX_NUM ==> (EverIssued(s.log, id) <==> id < s.reqCnt))
      && (s.reqCnt < MAX_NUM ==> NewId(s) == s.reqCnt)
      && (s.reqCnt == MAX_NUM && NewId(s) < MAX_NUM ==> Unused(s.log, NewId(s)))
      && (s.reqCnt == MAX_NUM ==> forall id: nat :: id < NewId(s) && id < MAX_NUM ==> !Unused(s.log, id))
  {
    var s := states[t];
    RunKeepsInv(states, steps, t);
    forall id: nat | id < MAX_NUM
      ensures Taken(s.bytes[id]) <==> !Unused(s.log, id)
      ensures EverIssued(s.log, id) <==> id < s.reqCnt
      ensures s.reqCnt <= id ==> Unused(s.log, id)
    {
      At(s, id);
      TakenInUse(s, id);
      RunCounts(states, steps, t, id);
      hide Run, Inv, Taken, PhaseOf, EverIssued;
    }
    InvInRange(s);
    hide Run, Inv, Taken, Unused, EverIssued, FirstAvailable;
    var first := FirstAvailable(s.bytes, MAX_NUM, 0);
    if s.reqCnt < MAX_NUM {
      assert Unused(s.log, s.reqCnt);
    } else if id: nat :| id < MAX_NUM && Unused(s.log, id) {
      assert !Taken(s.bytes[id]);
      assert first < MAX_NUM;
    }
    if first < MAX_NUM {
      assert !Taken(s.bytes[first]);
    }
  }

  // ------------------------------------------------------------------ every request ends

  /** What a call still has to do. */
  function AppLeft(app: App): nat {
    match app
    case Idle => 0
    case Chosen(_) => 6
    case Claiming(_, _) => 5
    case Claimed(_) => 4
    case Pending(_, _) => 3
    case Listed(_) => 1
    case Reporting(_, _) => 4
    case Clearing(_, _, _) => 3
    case Cleared(_, _) => 2
    case Releasing(_, _, _) => 1
  }

  function HeadLeft(head: Head): nat {
    match head
    case Waiting => 0
    case Received(_) => 5
    case Activating(_, _) => 4
    case Working(_) => 3
    case Succeeding(_, _) => 2
    case Succeeded(_) => 1
    case Failed(_) => 2
    case Failing(_, _) => 1
  }

  predicate HeadStep(step: Step) {
    step.Receive? || Heading(step) || step.WriteActive? || step.WriteSuccess? || step.WriteFail?
  }

  /** What the head still has to do: at most six steps for each request. */
  function Work(s: State): nat {
    6 * |s.channel| + HeadLeft(s.head)
  }

  /** Every call of the application ends after at most six steps of its own, whatever the head does. */
  lemma CallsEnd(s: State, step: Step)
    requires Inv(s) && Enabled(s, step)
    ensures !HeadStep(step) && !s.app.Idle? ==> AppLeft(After(s, step).app) < AppLeft(s.app) <= 6
    ensures HeadStep(step) ==> After(s, step).app == s.app && Work(After(s, step)) < Work(s)
    ensures !s.app.Idle? ==> exists next :: InRange(s) && !HeadStep(next) && Enabled(s, next)
  {
    hide Inv, GetVal, Taken, SetVal, SetTaken, PhaseOf, Freed, Unlisted, NewId;
    InvInRange(s);
    if !s.app.Idle? {
      var next := NextCall(s.app);
      assert InRange(s) && !HeadStep(next) && Enabled(s, next);
    }
  }

  function NextCall(app: App): Step
    requires !app.Idle?
  {
    match app
    case Chosen(_) => ReadAvl
    case Claiming(_, _) => WriteAvl
    case Claimed(_) => ReadVal
    case Pending(_, _) => WritePending
    case Listed(_) => Send
    case Reporting(_, _) => ReadForClear
    case Clearing(_, _, _) => WriteClear
    case Cleared(_, _) => ReadForRelease
    case Releasing(_, _, _) => WriteRelease
  }

  function NextHead(s: State): Step
    requires 0 < Work(s)
  {
    match s.head
    case Waiting => Receive
    case Received(_) => ReadForActive
    case Activating(_, _) => WriteActive
    case Working(_) => ReadForSuccess
    case Succeeding(_, _) => WriteSuccess
    case Succeeded(_) => FreeDone
    case Failed(_) => ReadForFail
    case Failing(_, _) => WriteFail
  }

  /** From every reachable state the head alone can end all requests, in no more steps than it has work. */
  lemma {:induction false} EveryRequestEnds(s: State) returns (states: seq<State>, steps: seq<Step>)
    requires Inv(s)
    ensures |states| == |steps| + 1 && states[0] == s && |steps| <= Work(s)
    ensures forall t :: 0 <= t < |steps| ==>
            HeadStep(steps[t]) && InRange(states[t]) && Enabled(states[t], steps[t])
            && states[t + 1] == After(states[t], steps[t])
    ensures Inv(states[|steps|]) && states[|steps|].app == s.app
    ensures forall id :: 0 <= id < MAX_NUM ==>
            PhaseOf(states[|steps|].log, id) != Queued && PhaseOf(states[|steps|].log, id) != Active
    decreases Work(s)
  {
    hide Inv, IdOk, GetVal, Taken, SetVal, SetTaken, PhaseOf, Freed, Unlisted, NewId;
    if Work(s) == 0 {
      states, steps := [s], [];
      NothingInFlight(s);
    } else {
      var step := NextHead(s);
      InvInRange(s);
      assert HeadStep(step) && Enabled(s, step);
      CallsEnd(s, step);
      StepKeepsInv(s, step);
      var states', steps' := EveryRequestEnds(After(s, step));
      states, steps := [s] + states', [step] + steps';
      hide Work, After, Enabled, HeadStep;
    }
  }

  lemma InvInRange(s: State)
    requires Inv(s)
    ensures InRange(s) && s.reqCnt <= MAX_NUM
  {
    hide IdOk, Orderly, Distinct;
  }

  lemma {:induction false} NothingInFlight(s: State)
    requires Inv(s) && s.channel == [] && s.head.Waiting?
    ensures forall id :: 0 <= id < MAX_NUM ==> PhaseOf(s.log, id) != Queued && PhaseOf(s.log, id) != Active
  {
    forall id | 0 <= id < MAX_NUM ensures PhaseOf(s.log, id) != Queued && PhaseOf(s.log, id) != Active {
      At(s, id);
      hide Inv, GetVal, Taken, PhaseOf;
    }
  }
}
