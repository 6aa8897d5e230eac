/**
 * Staging as a protocol between an application process and the head of its node.  The two share one status byte per
 * request ID; each change of it is a read, a computation on a copy, and a write, with anything in between.
 */
module StagingProtocol {
  import opened StageFields
  import opened StageTable

  /** Where the application is in `FTI_SendFile` or `FTI_GetStageStatus`. */
  datatype App =
    | Idle
    | Chosen(id: nat)                          // has an ID, about to mark it as taken
    | Claiming(id: nat, copy: Cell)
    | Claimed(id: nat)
    | Pending(id: nat, copy: Cell)
    | Listed(id: nat)                          // request in the table, about to be sent
    | Reporting(id: nat, result: Status)          // found a final status, about to clear it
    | Clearing(id: nat, result: Status, copy: Cell)
    | Cleared(id: nat, result: Status)
    | Releasing(id: nat, result: Status, copy: Cell)

  /** Where the head is in `FTI_HandleStageRequest`. */
  datatype Head =
    | Waiting
    | Received(id: nat)
    | Activating(id: nat, copy: Cell)
    | Working(id: nat)
    | Succeeding(id: nat, copy: Cell)
    | Succeeded(id: nat)                       // success is visible, the request is still listed
    | Failed(id: nat)                          // the request is freed, failure is not yet visible
    | Failing(id: nat, copy: Cell)

  /** What an observer of the interface sees. */
  datatype Event =
    | Issued(id: nat)
    | Activated(id: nat)
    | Finished(id: nat, result: Status)
    | Told(id: nat, status: Status)

  datatype State = State(
    bytes: seq<Cell>, reqCnt: nat, table: seq<nat>, app: App,
    channel: seq<nat>, list: seq<nat>, head: Head, log: seq<Event>)

  predicate Has(ids: seq<nat>, id: nat) {
    id in ids
  }

  lemma HasAppend(ids: seq<nat>, last: nat, id: nat)
    ensures Has(ids + [last], id) <==> Has(ids, id) || id == last
    ensures Distinct(ids) && !Has(ids, last) ==> Distinct(ids + [last])
  {
  }

  lemma HasRest(ids: seq<nat>, id: nat)
    requires ids != [] && Distinct(ids)
    ensures Has(ids[1..], id) <==> Has(ids, id) && id != ids[0]
    ensures Has(ids, ids[0]) && Distinct(ids[1..])
  {
    assert ids == [ids[0]] + ids[1..];
  }

  predicate Final(v: Status) {
    v == SCES || v == FAIL
  }

  /** One step of one of the two processes. */
  datatype Step =
    | Choose | ReadAvl | WriteAvl | ReadVal | WritePending | Send
    | Ask(id: nat, sent: bool) | ReadForClear | WriteClear | ReadForRelease | WriteRelease
    | Receive | ReadForActive | WriteActive | ReadForSuccess | WriteSuccess | FreeDone | Fail | ReadForFail | WriteFail

  /** The table without the request of an ID, if it has one. */
  function Freed(table: seq<nat>, id: nat): seq<nat> {
    if table == [] then [] else if table[0] == id then table[1..] else [table[0]] + Freed(table[1..], id)
  }

  /** The first available ID below `n`, or `n`. */
  function FirstAvailable(bytes: seq<Cell>, n: nat, from: nat): (r: nat)
    requires from <= n <= |bytes|
    ensures from <= r <= n && (r < n ==> !Taken(bytes[r]))
    ensures forall i :: from <= i < r ==> Taken(bytes[i])
    decreases n - from
  {
    if from == n || !Taken(bytes[from]) then from else FirstAvailable(bytes, n, from + 1)
  }

  /** The search of `FTI_GetRequestID` for an ID that is available again. */
  method FindAvailable(bytes: seq<Cell>) returns (id: int)
    ensures id == if FirstAvailable(bytes, |bytes|, 0) < |bytes| then FirstAvailable(bytes, |bytes|, 0) else -1
    ensures id == -1 <==> forall i :: 0 <= i < |bytes| ==> Taken(bytes[i])
    ensures id != -1 ==> 0 <= id < |bytes| && !Taken(bytes[id]) && forall i :: 0 <= i < id ==> Taken(bytes[i])
  {
    hide Taken;
    id := -1;
    for i := 0 to |bytes|
      invariant id == -1 && forall k :: 0 <= k < i ==> Taken(bytes[k])
    {
      if !Taken(bytes[i]) {
        id := i;
        break;
      }
    }
  }

  /** The ID for a new request: fresh ones first, then the first one that is available again. */
  function NewId(s: State): nat
    requires |s.bytes| == MAX_NUM
  {
    if s.reqCnt < MAX_NUM then s.reqCnt else FirstAvailable(s.bytes, MAX_NUM, 0)
  }

  /** The head looks only at the first entry of its list. */
  function HeadSearch(list: seq<nat>, id: nat): nat {
    if list != [] && list[0] == id then 0 else |list|
  }

  predicate InRange(s: State) {
    && |s.bytes| == MAX_NUM
    && (match s.app case Idle => true case _ => s.app.id < MAX_NUM)
    && (match s.head case Waiting => true case _ => s.head.id < MAX_NUM)
    && forall i :: 0 <= i < |s.channel| ==> s.channel[i] < MAX_NUM
  }

  predicate Enabled(s: State, step: Step)
    requires InRange(s)
  {
    match step
    case Choose => s.app.Idle? && NewId(s) < MAX_NUM
    case ReadAvl => s.app.Chosen?
    case WriteAvl => s.app.Claiming?
    case ReadVal => s.app.Claimed?
    case WritePending => s.app.Pending?
    case Send => s.app.Listed?
    case Ask(id, sent) => s.app.Idle? && id < MAX_NUM
    case ReadForClear => s.app.Reporting?
    case WriteClear => s.app.Clearing?
    case ReadForRelease => s.app.Cleared?
    case WriteRelease => s.app.Releasing?
    case Receive => s.head.Waiting? && s.channel != []
    case ReadForActive => s.head.Received?
    case WriteActive => s.head.Activating?
    case ReadForSuccess => s.head.Working?
    case WriteSuccess => s.head.Succeeding?
    case FreeDone => s.head.Succeeded?
    case Fail => s.head.Working?
    case ReadForFail => s.head.Failed?
    case WriteFail => s.head.Failing?
  }

  /** The head's list without the entry that its search finds. */
  function Unlisted(list: seq<nat>, id: nat): seq<nat> {
    var idx := HeadSearch(list, id);
    if idx == |list| then list else Without(list, idx)
  }

  /** What one call of `FTI_GetStageStatus` does up to its last look at the status. */
  function Asked(s: State, id: nat, sent: bool): State
    requires InRange(s) && id < MAX_NUM
  {
    var v := GetVal(s.bytes[id]);
    var table := if v == PEND && Has(s.table, id) && !sent then s.table else Freed(s.table, id);
    if Final(v) then s.(table := table, app := Reporting(id, v))
    else s.(table := table, log := s.log + [Told(id, v)])
  }

  function After(s: State, step: Step): State
    requires InRange(s) && Enabled(s, step)
  {
    match step
    case Choose =>
      s.(app := Chosen(NewId(s)), reqCnt := if s.reqCnt < MAX_NUM then s.reqCnt + 1 else s.reqCnt)
    case ReadAvl => s.(app := Claiming(s.app.id, s.bytes[s.app.id]))
    case WriteAvl => s.(app := Claimed(s.app.id), bytes := s.bytes[s.app.id := SetTaken(s.app.copy, true)])
    case ReadVal => s.(app := Pending(s.app.id, s.bytes[s.app.id]))
    case WritePending =>
      s.(app := Listed(s.app.id), bytes := s.bytes[s.app.id := SetVal(s.app.copy, PEND)], table := s.table + [s.app.id])
    case Send => s.(app := Idle, channel := s.channel + [s.app.id], log := s.log + [Issued(s.app.id)])
    case Ask(id, sent) => Asked(s, id, sent)
    case ReadForClear => s.(app := Clearing(s.app.id, s.app.result, s.bytes[s.app.id]))
    case WriteClear =>
      s.(app := Cleared(s.app.id, s.app.result), bytes := s.bytes[s.app.id := SetVal(s.app.copy, NINI)])
    case ReadForRelease => s.(app := Releasing(s.app.id, s.app.result, s.bytes[s.app.id]))
    case WriteRelease =>
      s.(app := Idle, bytes := s.bytes[s.app.id := SetTaken(s.app.copy, false)],
         log := s.log + [Told(s.app.id, s.app.result)])
    case Receive => s.(head := Received(s.channel[0]), list := s.list + [s.channel[0]], channel := s.channel[1..])
    case ReadForActive => s.(head := Activating(s.head.id, s.bytes[s.head.id]))
    case WriteActive =>
      s.(head := Working(s.head.id), bytes := s.bytes[s.head.id := SetVal(s.head.copy, ACTV)],
         log := s.log + [Activated(s.head.id)])
    case ReadForSuccess => s.(head := Succeeding(s.head.id, s.bytes[s.head.id]))
    case WriteSuccess =>
      s.(head := Succeeded(s.head.id), bytes := s.bytes[s.head.id := SetVal(s.head.copy, SCES)],
         log := s.log + [Finished(s.head.id, SCES)])
    case FreeDone => s.(head := Waiting, list := Unlisted(s.list, s.head.id))
    case Fail => s.(head := Failed(s.head.id), list := Unlisted(s.list, s.head.id))
    case ReadForFail => s.(head := Failing(s.head.id, s.bytes[s.head.id]))
    case WriteFail =>
      s.(head := Waiting, bytes := s.bytes[s.head.id := SetVal(s.head.copy, FAIL)],
         log := s.log + [Finished(s.head.id, FAIL)])
  }

  function Start(): State {
    State(seq(MAX_NUM, _ => Cell(0)), 0, [], Idle, [], [], Waiting, [])
  }

  // ------------------------------------------------------------------ what the interface promises

  /** The life of an ID: free, queued from its issue on, active until its end, then done and not yet reported. */
  datatype Phase = Free | Queued | Active | Done(result: Status)

  function PhaseOf(log: seq<Event>, id: nat): Phase {
    if log == [] then Free
    else
      var e := log[|log| - 1];
      if e.id != id then PhaseOf(log[..|log| - 1], id)
      else match e
        case Issued(_) => Queued
        case Activated(_) => Active
        case Finished(_, r) => Done(r)
        case Told(_, v) => if Final(v) then Free else PhaseOf(log[..|log| - 1], id)
  }

  /** An event fits the life of its ID. */
  predicate Fitting(log: seq<Event>, e: Event) {
    var phase := PhaseOf(log, e.id);
    match e
    case Issued(_) => phase == Free
    case Activated(_) => phase == Queued
    case Finished(_, r) => phase == Active && Final(r)
    case Told(_, v) =>
      match v
      case NINI => phase == Free
      case PEND => phase == Queued
      case ACTV => phase == Active
      case SCES => phase == Done(SCES)
      case FAIL => phase == Done(FAIL)
  }

  /**
   * A history in order: an ID is issued only when it is free, is then activated once and ends once, and its end is
   * reported once and as it was.  Until then it is told to be pending before and active after it was activated; after
   * that it counts as not initialised until it is issued again.
   */
  predicate Orderly(log: seq<Event>) {
    log == [] || (Orderly(log[..|log| - 1]) && Fitting(log[..|log| - 1], log[|log| - 1]))
  }

  lemma {:induction false} LogStep(log: seq<Event>, e: Event, id: nat)
    ensures Orderly(log + [e]) <==> Orderly(log) && Fitting(log, e)
    ensures PhaseOf(log + [e], id) ==
            if e.id != id then PhaseOf(log, id)
            else match e
              case Issued(_) => Queued
              case Activated(_) => Active
              case Finished(_, r) => Done(r)
              case Told(_, v) => if Final(v) then Free else PhaseOf(log, id)
  {
    assert (log + [e])[..|log|] == log;
  }

  // ------------------------------------------------------------------ the invariant

  predicate AppOn(s: State, id: nat) {
    !s.app.Idle? && s.app.id == id
  }

  /** The head has the request of this ID in hand and has not ended it. */
  predicate HeadOn(s: State, id: nat) {
    !s.head.Waiting? && !s.head.Succeeded? && s.head.id == id
  }

  /** The head has not yet activated the request. */
  predicate Fresh(head: Head) {
    head.Received? || head.Activating?
  }

  /** The phases that the steps of the application belong to. */
  predicate AppPhase(s: State, phase: Phase) {
    match s.app
    case Idle => true
    case Chosen(_) => phase == Free
    case Claiming(_, _) => phase == Free
    case Claimed(_) => phase == Free
    case Pending(_, _) => phase == Free
    case Listed(_) => phase == Free
    case Reporting(_, r) => phase == Done(r)
    case Clearing(_, r, _) => phase == Done(r)
    case Cleared(_, r) => phase == Done(r)
    case Releasing(_, r, _) => phase == Done(r)
  }

  /** What the status of an ID must be. */
  function RightVal(s: State, id: nat, phase: Phase): Status {
    if AppOn(s, id) && s.app.Listed? then PEND
    else if AppOn(s, id) && (s.app.Cleared? || s.app.Releasing?) then NINI
    else match phase
      case Free => NINI
      case Done(r) => r
      case Queued => PEND
      case Active => ACTV
  }

  predicate RightTaken(s: State, id: nat, phase: Phase) {
    phase != Free || (AppOn(s, id) && (s.app.Claimed? || s.app.Pending? || s.app.Listed?))
  }

  /** Nobody changed the byte since the copy was read: writing the changed copy back loses nothing. */
  predicate CopiesCurrent(s: State, id: nat, b: Cell) {
    && (AppOn(s, id) ==> match s.app
         case Claiming(_, c) => c == b
         case Pending(_, c) => c == b
         case Clearing(_, _, c) => c == b
         case Releasing(_, _, c) => c == b
         case _ => true)
    && (HeadOn(s, id) ==> match s.head
         case Activating(_, c) => c == b
         case Succeeding(_, c) => c == b
         case Failing(_, c) => c == b
         case _ => true)
  }

  predicate IdOk(s: State, id: nat)
    requires InRange(s) && id < MAX_NUM
  {
    var b, phase := s.bytes[id], PhaseOf(s.log, id);
    && GetVal(b) == RightVal(s, id, phase) && (Taken(b) <==> RightTaken(s, id, phase))
    && (AppOn(s, id) ==> AppPhase(s, phase))
    && (phase == Queued <==> Has(s.channel, id) || (HeadOn(s, id) && Fresh(s.head)))
    && (phase == Active <==> HeadOn(s, id) && !Fresh(s.head))
    && !(Has(s.channel, id) && HeadOn(s, id))
    && (phase.Done? ==> Final(phase.result))
    && CopiesCurrent(s, id, b)
    && (Has(s.table, id) ==> if AppOn(s, id) then s.app.Listed? else phase != Free)
    && (s.reqCnt <= id ==> phase == Free && !AppOn(s, id))
  }

  /** The head's list has the one request it works on, and nothing else. */
  predicate ListOk(s: State) {
    match s.head
    case Waiting => s.list == []
    case Received(id) => s.list == [id]
    case Activating(id, _) => s.list == [id]
    case Working(id) => s.list == [id]
    case Succeeding(id, _) => s.list == [id]
    case Succeeded(id) => s.list == [id]
    case Failed(_) => s.list == []
    case Failing(_, _) => s.list == []
  }

  ghost predicate Inv(s: State) {
    && InRange(s) && s.reqCnt <= MAX_NUM && Orderly(s.log) && ListOk(s) && Distinct(s.channel) && Distinct(s.table)
    && forall id :: 0 <= id < MAX_NUM ==> IdOk(s, id)
  }

  lemma StartOk()
    ensures Inv(Start())
  {
    hide GetVal, Taken;
    ClearCell();
  }

  /** A search that looks at the first entry only is right for every ID exactly if the list has at most one entry. */
  lemma SearchNeedsShortList(list: seq<nat>)
    requires Distinct(list)
    ensures |list| <= 1 <==> forall i :: 0 <= i < |list| ==> HeadSearch(list, list[i]) == i
  {
    if 1 < |list| {
      assert HeadSearch(list, list[1]) == |list|;
    }
  }

  lemma HasCons(first: nat, rest: seq<nat>, id: nat)
    ensures Has([first] + rest, id) <==> id == first || Has(rest, id)
    ensures Distinct(rest) && !Has(rest, first) ==> Distinct([first] + rest)
  {
  }

  lemma {:induction false} FreedFacts(table: seq<nat>, id: nat)
    requires Distinct(table)
    ensures !Has(Freed(table, id), id) && Distinct(Freed(table, id))
    ensures forall other :: Has(Freed(table, id), other) <==> Has(table, other) && other != id
    decreases |table|
  {
    if table != [] {
      hide Has, Distinct;
      var first, rest := table[0], table[1..];
      HasRest(table, first);
      FreedFacts(rest, id);
      HasCons(first, Freed(rest, id), id);
      forall other
        ensures Has(Freed(table, id), other) <==> Has(table, other) && other != id
      {
        HasRest(table, other);
        HasCons(first, Freed(rest, id), other);
      }
    } else {
      assert forall other :: !Has(table, other);
    }
  }

  /** The table of the application does the same. */
  lemma {:induction false} FreedIsWithout(table: seq<nat>, i: nat)
    requires Distinct(table) && i < |table|
    ensures Freed(table, table[i]) == Without(table, i)
    decreases |table|
  {
    if i != 0 {
      FreedIsWithout(table[1..], i - 1);
    }
  }

  // ------------------------------------------------------------------ every step keeps it

  lemma At(s: State, id: nat)
    requires Inv(s) && id < MAX_NUM
    ensures IdOk(s, id)
  {
  }

  /** A step that concerns another ID. */
  lemma {:induction false} OtherId(s: State, s': State, id: nat)
    requires InRange(s) && InRange(s') && id < MAX_NUM && IdOk(s, id)
    requires s'.bytes[id] == s.bytes[id] && PhaseOf(s'.log, id) == PhaseOf(s.log, id) && s.reqCnt <= s'.reqCnt
    requires (Has(s'.channel, id) <==> Has(s.channel, id)) && (Has(s'.table, id) ==> Has(s.table, id))
    requires s'.app == s.app || (!AppOn(s, id) && !AppOn(s', id))
    requires s'.head == s.head || (!HeadOn(s, id) && !HeadOn(s', id))
    ensures IdOk(s', id)
  {
    hide GetVal, Taken, PhaseOf, Has;
  }

  predicate Sending(step: Step) {
    step.Choose? || step.ReadAvl? || step.WriteAvl? || step.ReadVal? || step.WritePending?
  }

  /** The steps of `FTI_SendFile` up to the request in the table. */
  lemma SendingKeepsId(s: State, step: Step, id: nat)
    requires Inv(s) && Enabled(s, step) && id < MAX_NUM && Sending(step)
    ensures InRange(After(s, step)) && IdOk(After(s, step), id)
  {
    var touched := if step.Choose? then NewId(s) else s.app.id;
    At(s, id);
    At(s, touched);
    HasAppend(s.table, touched, id);
    if step.WriteAvl? || step.WritePending? {
      CellLaws(s.app.copy, PEND, true);
    }
    hide Inv, Has, GetVal, Taken, SetVal, SetTaken, PhaseOf, Freed, Distinct, Orderly;
    if id != touched {
      hide IdOk;
      OtherId(s, After(s, step), id);
    }
  }

  lemma SendKeepsId(s: State, id: nat)
    requires Inv(s) && Enabled(s, Send) && id < MAX_NUM
    ensures InRange(After(s, Send)) && IdOk(After(s, Send), id)
  {
    var sent := s.app.id;
    var s' := s.(app := Idle, channel := s.channel + [sent], log := s.log + [Issued(sent)]);
    assert After(s, Send) == s' && s.app.Listed?;
    At(s, id);
    At(s, sent);
    SentKeepsId(s, s', sent, id);
  }

  lemma SentKeepsId(s: State, s': State, sent: nat, id: nat)
    requires InRange(s) && id < MAX_NUM && s.app == Listed(sent) && IdOk(s, sent) && IdOk(s, id)
    requires s' == s.(app := Idle, channel := s.channel + [sent], log := s.log + [Issued(sent)])
    ensures InRange(s') && IdOk(s', id)
  {
    LogStep(s.log, Issued(sent), id);
    HasAppend(s.channel, sent, id);
    hide Has, GetVal, Taken, PhaseOf;
    if id != sent {
      hide IdOk;
      OtherId(s, s', id);
    }
  }

  /** What a look at the status tells when the application is not in the middle of a call. */
  lemma {:induction false} StatusTells(s: State, id: nat)
    requires InRange(s) && id < MAX_NUM && IdOk(s, id) && s.app.Idle?
    ensures var v, phase := GetVal(s.bytes[id]), PhaseOf(s.log, id);
            && (v == NINI <==> phase == Free) && (Final(v) <==> phase.Done?) && (phase.Done? ==> phase.result == v)
            && (v == PEND <==> phase == Queued) && (v == ACTV <==> phase == Active)
  {
    hide GetVal, Taken, PhaseOf, Has;
  }

  lemma {:induction false} LookFits(s: State, id: nat)
    requires InRange(s) && id < MAX_NUM && IdOk(s, id) && s.app.Idle?
    ensures Fitting(s.log, Told(id, GetVal(s.bytes[id])))
    ensures var v := GetVal(s.bytes[id]); !Final(v) ==> PhaseOf(s.log + [Told(id, v)], id) == PhaseOf(s.log, id)
  {
    StatusTells(s, id);
    LogStep(s.log, Told(id, GetVal(s.bytes[id])), id);
    hide GetVal, Taken, PhaseOf, Has, IdOk, InRange;
  }

  /** A look that finds no final status changes nothing but the table. */
  lemma {:induction false} LookKeepsId(s: State, s': State, asked: nat, id: nat)
    requires InRange(s) && id < MAX_NUM && asked < MAX_NUM && IdOk(s, id) && s.app.Idle?
    requires s' == s.(table := s'.table, log := s'.log)
    requires PhaseOf(s'.log, id) == PhaseOf(s.log, id) && (Has(s'.table, id) ==> Has(s.table, id))
    ensures InRange(s') && IdOk(s', id)
  {
    hide GetVal, Taken, PhaseOf, Has;
  }

  lemma FoundKeepsId(s: State, s': State, asked: nat, id: nat)
    requires InRange(s) && id < MAX_NUM && asked < MAX_NUM && IdOk(s, id) && IdOk(s, asked) && s.app.Idle?
    requires Final(GetVal(s.bytes[asked]))
             && s' == s.(table := s'.table, app := Reporting(asked, GetVal(s.bytes[asked])))
    requires !Has(s'.table, asked) && (Has(s'.table, id) ==> Has(s.table, id))
    ensures InRange(s') && IdOk(s', id)
  {
    StatusTells(s, asked);
    hide GetVal, Taken, PhaseOf, Has;
  }

  lemma AskKeepsId(s: State, asked: nat, sent: bool, id: nat)
    requires Inv(s) && Enabled(s, Ask(asked, sent)) && id < MAX_NUM
    ensures InRange(After(s, Ask(asked, sent))) && IdOk(After(s, Ask(asked, sent)), id)
  {
    var s', v := After(s, Ask(asked, sent)), GetVal(s.bytes[asked]);
    At(s, id);
    At(s, asked);
    FreedFacts(s.table, asked);
    hide IdOk, Inv, Has, Distinct, Orderly, PhaseOf, GetVal, Taken, Freed;
    if Final(v) {
      assert s'.app == Reporting(asked, v) && s'.table == Freed(s.table, asked);
      FoundKeepsId(s, s', asked, id);
    } else {
      LookFits(s, asked);
      LogStep(s.log, Told(asked, v), id);
      LookKeepsId(s, s', asked, id);
    }
  }

  predicate Ending(step: Step) {
    step.ReadForClear? || step.WriteClear? || step.ReadForRelease? || step.WriteRelease?
  }

  lemma ReadingKeepsId(s: State, s': State, id: nat)
    requires InRange(s) && id < MAX_NUM && !s.app.Idle? && IdOk(s, s.app.id) && IdOk(s, id)
    requires s.app.Reporting? || s.app.Cleared?
    requires s' == s.(app :=
      if s.app.Reporting? then Clearing(s.app.id, s.app.result, s.bytes[s.app.id])
        else Releasing(s.app.id, s.app.result, s.bytes[s.app.id]))
    ensures InRange(s') && IdOk(s', id)
  {
    hide Has, GetVal, Taken, PhaseOf;
    if id != s.app.id {
      hide IdOk;
      OtherId(s, s', id);
    }
  }

  lemma ClearingKeepsId(s: State, s': State, id: nat)
    requires InRange(s) && id < MAX_NUM && s.app.Clearing? && IdOk(s, s.app.id) && IdOk(s, id)
    requires s' == s.(app := Cleared(s.app.id, s.app.result), bytes := s.bytes[s.app.id := SetVal(s.app.copy, NINI)])
    ensures InRange(s') && IdOk(s', id)
  {
    CellLaws(s.app.copy, NINI, false);
    hide Has, GetVal, Taken, SetVal, PhaseOf;
    if id != s.app.id {
      hide IdOk;
      OtherId(s, s', id);
    }
  }

  lemma ReleasingKeepsId(s: State, s': State, id: nat)
    requires InRange(s) && id < MAX_NUM && s.app.Releasing? && IdOk(s, s.app.id) && IdOk(s, id)
    requires s' == s.(app := Idle, bytes := s.bytes[s.app.id := SetTaken(s.app.copy, false)],
      log := s.log + [Told(s.app.id, s.app.result)])
    ensures InRange(s') && IdOk(s', id)
  {
    CellLaws(s.app.copy, NINI, false);
    LogStep(s.log, Told(s.app.id, s.app.result), id);
    hide Has, GetVal, Taken, SetTaken, PhaseOf;
    if id != s.app.id {
      hide IdOk;
      OtherId(s, s', id);
    }
  }

  /** The steps that report a final status. */
  lemma EndingKeepsId(s: State, step: Step, id: nat)
    requires Inv(s) && Enabled(s, step) && id < MAX_NUM && Ending(step)
    ensures InRange(After(s, step)) && IdOk(After(s, step), id)
  {
    At(s, id);
    At(s, s.app.id);
    hide Inv, IdOk, SetVal, SetTaken;
    if step.WriteClear? {
      ClearingKeepsId(s, After(s, step), id);
    } else if step.WriteRelease? {
      ReleasingKeepsId(s, After(s, step), id);
    } else {
      ReadingKeepsId(s, After(s, step), id);
    }
  }

  predicate Heading(step: Step) {
    step.ReadForActive? || step.WriteActive? || step.ReadForSuccess? || step.FreeDone? || step.Fail?
      || step.ReadForFail?
  }

  /** The head moves on with the same request and does not write. */
  lemma HeadMovesKeepsId(s: State, s': State, id: nat)
    requires InRange(s) && id < MAX_NUM && !s.head.Waiting? && IdOk(s, s.head.id) && IdOk(s, id)
    requires s' == s.(head := s'.head, list := s'.list)
    requires match s.head
      case Received(h) => s'.head == Activating(h, s.bytes[h])
      case Working(h) => s'.head == Succeeding(h, s.bytes[h]) || s'.head == Failed(h)
      case Failed(h) => s'.head == Failing(h, s.bytes[h])
      case Succeeded(h) => s'.head == Waiting
      case _ => false
    ensures InRange(s') && IdOk(s', id)
  {
    hide Has, GetVal, Taken, PhaseOf;
    if id != s.head.id {
      hide IdOk;
      OtherId(s, s', id);
    }
  }

  lemma ActivatingKeepsId(s: State, s': State, id: nat)
    requires InRange(s) && id < MAX_NUM && s.head.Activating? && IdOk(s, s.head.id) && IdOk(s, id)
    requires s' == s.(head := Working(s.head.id), bytes := s.bytes[s.head.id := SetVal(s.head.copy, ACTV)],
      log := s.log + [Activated(s.head.id)])
    ensures InRange(s') && IdOk(s', id)
  {
    CellLaws(s.head.copy, ACTV, true);
    LogStep(s.log, Activated(s.head.id), id);
    hide Has, GetVal, Taken, SetVal, PhaseOf;
    if id != s.head.id {
      hide IdOk;
      OtherId(s, s', id);
    }
  }

  lemma HeadKeepsId(s: State, step: Step, id: nat)
    requires Inv(s) && Enabled(s, step) && id < MAX_NUM && Heading(step)
    ensures InRange(After(s, step)) && IdOk(After(s, step), id)
  {
    At(s, id);
    At(s, s.head.id);
    hide Inv, IdOk, SetVal, Unlisted;
    if step.WriteActive? {
      ActivatingKeepsId(s, After(s, step), id);
    } else {
      HeadMovesKeepsId(s, After(s, step), id);
    }
  }

  lemma ReceiveKeepsId(s: State, id: nat)
    requires Inv(s) && Enabled(s, Receive) && id < MAX_NUM
    ensures InRange(After(s, Receive)) && IdOk(After(s, Receive), id)
  {
    At(s, id);
    HasRest(s.channel, id);
    HasRest(s.channel, s.channel[0]);
    At(s, s.channel[0]);
    hide Inv, Has, GetVal, Taken, SetVal, SetTaken, PhaseOf, Freed, Distinct, Orderly, Unlisted;
    if id != s.channel[0] {
      hide IdOk;
      OtherId(s, After(s, Receive), id);
    }
  }

  lemma EndKeepsId(s: State, s': State, result: Status, id: nat)
    requires InRange(s) && id < MAX_NUM && Final(result) && IdOk(s, id)
    requires if result == SCES then s.head.Succeeding? && s'.head == Succeeded(s.head.id)
             else s.head.Failing? && s'.head == Waiting
    requires IdOk(s, s.head.id)
    requires s' == s.(head := s'.head, bytes := s.bytes[s.head.id := SetVal(s.head.copy, result)],
      log := s.log + [Finished(s.head.id, result)])
    ensures InRange(s') && IdOk(s', id)
  {
    CellLaws(s.head.copy, result, true);
    LogStep(s.log, Finished(s.head.id, result), id);
    hide Has, GetVal, Taken, SetVal, PhaseOf;
    if id != s.head.id {
      hide IdOk;
      OtherId(s, s', id);
    }
  }

  lemma FinishKeepsId(s: State, step: Step, id: nat)
    requires Inv(s) && Enabled(s, step) && id < MAX_NUM && (step.WriteSuccess? || step.WriteFail?)
    ensures InRange(After(s, step)) && IdOk(After(s, step), id)
  {
    At(s, id);
    At(s, s.head.id);
    hide Inv, IdOk, SetVal;
    EndKeepsId(s, After(s, step), if step.WriteSuccess? then SCES else FAIL, id);
  }

  lemma StepKeepsId(s: State, step: Step, id: nat)
    requires Inv(s) && Enabled(s, step) && id < MAX_NUM
    ensures InRange(After(s, step)) && IdOk(After(s, step), id)
  {
    hide *;
    WhichGroup(step);
    if step.Send? {
      SendKeepsId(s, id);
    } else if step.Ask? {
      AskKeepsId(s, step.id, step.sent, id);
    } else if step.Receive? {
      ReceiveKeepsId(s, id);
    } else if step.WriteSuccess? || step.WriteFail? {
      FinishKeepsId(s, step, id);
    } else if Sending(step) {
      SendingKeepsId(s, step, id);
    } else if Ending(step) {
      EndingKeepsId(s, step, id);
    } else {
      HeadKeepsId(s, step, id);
    }
  }

  lemma WhichGroup(step: Step)
    ensures step.Send? || step.Ask? || step.Receive? || step.WriteSuccess? || step.WriteFail? || Sending(step)
            || Ending(step) || Heading(step)
  {
  }

  lemma {:induction false} InHeadsHands(s: State, id: nat)
    requires InRange(s) && id < MAX_NUM && IdOk(s, id) && HeadOn(s, id)
    ensures PhaseOf(s.log, id) == if Fresh(s.head) then Queued else Active
  {
    hide GetVal, Taken, PhaseOf, Has, RightVal, RightTaken, AppPhase, CopiesCurrent;
  }

  lemma {:induction false} InAppsHands(s: State, id: nat)
    requires InRange(s) && id < MAX_NUM && IdOk(s, id) && AppOn(s, id)
    ensures s.app.Listed? ==> PhaseOf(s.log, id) == Free
    ensures s.app.Releasing? ==> PhaseOf(s.log, id) == Done(s.app.result) && Final(s.app.result)
  {
    hide GetVal, Taken, PhaseOf, Has, RightVal, RightTaken, CopiesCurrent;
  }

  lemma {:induction false} FittingEvent(log: seq<Event>, log': seq<Event>, e: Event)
    requires Orderly(log) && Fitting(log, e) && log' == log + [e]
    ensures Orderly(log')
  {
    hide Orderly, Fitting, PhaseOf;
    LogStep(log, e, 0);
  }

  /** Every event that a step adds fits the history. */
  lemma AppEventFits(s: State, step: Step)
    requires Inv(s) && Enabled(s, step) && (step.Send? || step.Ask? || step.WriteRelease?)
    ensures Orderly(After(s, step).log)
  {
    OrderlyOf(s);
    var id := if step.Ask? then step.id else s.app.id;
    At(s, id);
    hide Inv, IdOk, GetVal, Taken, SetVal, SetTaken, PhaseOf, Freed, Orderly, NewId, Has;
    if step.Send? {
      InAppsHands(s, id);
      FittingEvent(s.log, After(s, step).log, Issued(id));
    } else if step.Ask? {
      LookFits(s, id);
      if !Final(GetVal(s.bytes[id])) {
        FittingEvent(s.log, After(s, step).log, Told(id, GetVal(s.bytes[id])));
      }
    } else {
      InAppsHands(s, id);
      FittingEvent(s.log, After(s, step).log, Told(id, s.app.result));
    }
  }

  lemma HeadEventFits(s: State, step: Step)
    requires Inv(s) && Enabled(s, step) && (step.WriteActive? || step.WriteSuccess? || step.WriteFail?)
    ensures Orderly(After(s, step).log)
  {
    OrderlyOf(s);
    At(s, s.head.id);
    hide Inv, IdOk, GetVal, Taken, SetVal, SetTaken, PhaseOf, Freed, Orderly, NewId, Has, Unlisted;
    InHeadsHands(s, s.head.id);
    if step.WriteActive? {
      FittingEvent(s.log, After(s, step).log, Activated(s.head.id));
    } else {
      FittingEvent(s.log, After(s, step).log, Finished(s.head.id, if step.WriteSuccess? then SCES else FAIL));
    }
  }

  lemma OrderlyOf(s: State)
    requires Inv(s)
    ensures Orderly(s.log)
  {
    hide Orderly, IdOk;
  }

  lemma StepKeepsOrder(s: State, step: Step)
    requires Inv(s) && Enabled(s, step)
    ensures Orderly(After(s, step).log)
  {
    hide Inv, Orderly, Freed, Unlisted, NewId, GetVal, Taken, SetVal, SetTaken;
    if step.Send? || step.Ask? || step.WriteRelease? {
      AppEventFits(s, step);
    } else if step.WriteActive? || step.WriteSuccess? || step.WriteFail? {
      HeadEventFits(s, step);
    } else {
      OrderlyOf(s);
    }
  }

  lemma StepKeepsLists(s: State, step: Step)
    requires Inv(s) && Enabled(s, step)
    ensures var s' := After(s, step);
            ListOk(s') && s'.reqCnt <= MAX_NUM && Distinct(s'.channel) && Distinct(s'.table)
  {
    if step.WritePending? || step.Send? {
      At(s, s.app.id);
      HasAppend(if step.Send? then s.channel else s.table, s.app.id, 0);
    } else if step.Receive? {
      HasRest(s.channel, 0);
    } else if step.Ask? {
      FreedFacts(s.table, step.id);
    }
    hide GetVal, Taken, SetVal, SetTaken, PhaseOf, Freed, Orderly, NewId, Has, Distinct;
  }

  lemma StepKeepsInv(s: State, step: Step)
    requires Inv(s) && Enabled(s, step)
    ensures Inv(After(s, step))
  {
    StepKeepsOrder(s, step);
    StepKeepsLists(s, step);
    var s' := After(s, step);
    hide *;
    StepKeepsId(s, step, 0);
    forall id | 0 <= id < MAX_NUM
      ensures IdOk(s', id)
    {
      StepKeepsId(s, step, id);
    }
    AllOk(s');
  }

  lemma AllOk(s: State)
    requires InRange(s) && s.reqCnt <= MAX_NUM && Orderly(s.log) && ListOk(s) && Distinct(s.channel)
             && Distinct(s.table)
    requires forall id :: 0 <= id < MAX_NUM ==> IdOk(s, id)
    ensures Inv(s)
  {
  }

  // ------------------------------------------------------------------ runs

  ghost predicate Run(states: seq<State>, steps: seq<Step>) {
    && |states| == |steps| + 1 && states[0] == Start()
    && forall t :: 0 <= t < |steps| ==>
         InRange(states[t]) && Enabled(states[t], steps[t]) && states[t + 1] == After(states[t], steps[t])
  }

  lemma {:induction false} RunKeepsInv(states: seq<State>, steps: seq<Step>, t: nat)
    requires Run(states, steps) && t < |states|
    ensures Inv(states[t])
    decreases t
  {
    hide Inv, After, Enabled;
    if t == 0 {
      StartOk();
    } else {
      RunKeepsInv(states, steps, t - 1);
      assert states[t - 1 + 1] == After(states[t - 1], steps[t - 1]);
      StepKeepsInv(states[t - 1], steps[t - 1]);
    }
  }

  /**
   * In every interleaving of the two processes: the history of every ID is in order (it is issued only when free, ends
   * once, and its end is reported once and truly), no write of a status byte undoes another one, and the head's list
   * has at most one entry, the one it searches for.
   */
  lemma EveryInterleavingOrderly(states: seq<State>, steps: seq<Step>, t: nat)
    requires Run(states, steps) && t < |states|
    ensures Orderly(states[t].log)
    ensures |states[t].list| <= 1
    ensures t < |steps| && (steps[t].FreeDone? || steps[t].Fail?) ==> states[t].list == [states[t].head.id]
    ensures forall id :: 0 <= id < MAX_NUM ==>
            |states[t].bytes| == MAX_NUM && CopiesCurrent(states[t], id, states[t].bytes[id])
  {
    hide GetVal, Taken, SetVal, SetTaken, PhaseOf, Freed, Orderly, Distinct, Unlisted, After;
    RunKeepsInv(states, steps, t);
    forall id | 0 <= id < MAX_NUM
      ensures CopiesCurrent(states[t], id, states[t].bytes[id])
    {
      At(states[t], id);
    }
  }

  /** An ID that is handed out is not in flight, its last end was reported, and it has no request in the table. */
  lemma NewIdIsFree(states: seq<State>, steps: seq<Step>, t: nat)
    requires Run(states, steps) && t < |steps| && steps[t].Choose?
    ensures var s := states[t];
            var id := NewId(s);
            && PhaseOf(s.log, id) == Free && !Has(s.channel, id) && !HeadOn(s, id) && !Has(s.table, id)
  {
    RunKeepsInv(states, steps, t);
    At(states[t], NewId(states[t]));
    hide GetVal, Taken, SetVal, SetTaken, PhaseOf, Freed, Orderly, Distinct, Unlisted;
  }
}
