/**
 * Processes that exchange blocks of files by fully synchronous messages: a send completes only together with its
 * receive.  If all operations can be given times that every process meets in order and that both ends of a message
 * share, no run gets stuck and every block arrives where it belongs.
 */
module Rendezvous {
  import opened FileBytes

  /** A logical time, compared field by field. */
  datatype Time = Time(round: nat, slot: nat, block: nat)

  predicate Earlier(a: Time, b: Time) {
    a.round < b.round || (a.round == b.round && (a.slot < b.slot || (a.slot == b.slot && a.block < b.block)))
  }

  /** A checkpoint file of a process, or the copy it keeps of another one. */
  datatype FileId = Own(index: nat) | Copy(index: nat)

  /** One blocking operation: open a file for writing, or send or receive one block of a file. */
  datatype Op =
    | Create(file: FileId, time: Time)
    | Send(peer: nat, file: FileId, offset: nat, size: nat, time: Time)
    | Recv(peer: nat, file: FileId, offset: nat, size: nat, time: Time)

  type Disk = map<FileId, File>

  /** The programs of all processes, and what every file is meant to hold. */
  datatype System = System(progs: seq<seq<Op>>, want: seq<Disk>)

  /** How far every process is, and what its files hold. */
  datatype Net = Net(pc: seq<nat>, disks: seq<Disk>)

  ghost predicate Fits(sys: System, s: Net) {
    && |s.pc| == |s.disks| == |sys.progs| == |sys.want|
    && forall p :: 0 <= p < |s.pc| ==> s.pc[p] <= |sys.progs[p]|
  }

  /** The next operation of `p`, if there is one. */
  predicate Has(sys: System, s: Net, p: nat) {
    p < |s.pc| && p < |sys.progs| && s.pc[p] < |sys.progs[p]|
  }

  function Next(sys: System, s: Net, p: nat): Op
    requires Has(sys, s, p)
  {
    sys.progs[p][s.pc[p]]
  }

  /** Process `p` can open its next file. */
  predicate CanCreate(sys: System, s: Net, p: nat) {
    Has(sys, s, p) && Next(sys, s, p).Create? && p < |s.disks|
  }

  function AfterCreate(sys: System, s: Net, p: nat): Net
    requires CanCreate(sys, s, p)
  {
    Net(s.pc[p := s.pc[p] + 1], s.disks[p := s.disks[p][Next(sys, s, p).file := []]])
  }

  /** Process `p` is about to send to `q`, which is about to receive from `p`; the block is on the disk of `p`. */
  predicate CanMeet(sys: System, s: Net, p: nat, q: nat) {
    && Has(sys, s, p) && Has(sys, s, q) && p != q && p < |s.disks| && q < |s.disks|
    && var a := Next(sys, s, p);
       var b := Next(sys, s, q);
       && a.Send? && b.Recv? && a.peer == q && b.peer == p && a.size == b.size
       && a.file in s.disks[p] && a.offset + a.size <= |s.disks[p][a.file]| && b.file in s.disks[q]
  }

  /** The receiver appends the block to its file. */
  function AfterMeet(sys: System, s: Net, p: nat, q: nat): Net
    requires CanMeet(sys, s, p, q)
  {
    var a, b := Next(sys, s, p), Next(sys, s, q);
    var data := s.disks[p][a.file][a.offset..a.offset + a.size];
    Net(s.pc[p := s.pc[p] + 1][q := s.pc[q] + 1], s.disks[q := s.disks[q][b.file := s.disks[q][b.file] + data]])
  }

  ghost predicate Step(sys: System, s: Net, s': Net) {
    || (exists p :: CanCreate(sys, s, p) && s' == AfterCreate(sys, s, p))
    || (exists p, q :: CanMeet(sys, s, p, q) && s' == AfterMeet(sys, s, p, q))
  }

  ghost predicate CanStep(sys: System, s: Net) {
    (exists p :: CanCreate(sys, s, p)) || exists p, q :: CanMeet(sys, s, p, q)
  }

  ghost predicate Finished(sys: System, s: Net) {
    forall p :: 0 <= p < |s.pc| && p < |sys.progs| ==> s.pc[p] == |sys.progs[p]|
  }

  // ------------------------------------------------------------------ well-timed systems

  ghost predicate InOrder(ops: seq<Op>) {
    forall i, j :: 0 <= i < j < |ops| ==> Earlier(ops[i].time, ops[j].time)
  }

  /** The other end of an operation of `p`. */
  predicate Partners(p: nat, a: Op, b: Op) {
    && a.time == b.time && !a.Create? && !b.Create? && a.offset == b.offset && a.size == b.size && b.peer == p
    && (a.Send? <==> b.Recv?)
  }

  /** Operation `a` of `p` has its other end in the program of its peer, for files that are meant to be the same. */
  ghost predicate Matched(sys: System, p: nat, a: Op)
    requires p < |sys.progs| == |sys.want|
  {
    a.Create? || (
      && a.peer < |sys.progs| && a.peer != p && a.file in sys.want[p]
      && exists b :: b in sys.progs[a.peer] && Partners(p, a, b) && b.file in sys.want[a.peer] &&
           sys.want[p][a.file] == sys.want[a.peer][b.file])
  }

  /** How many bytes of a file the first `i` operations received since they opened it, or -1 if they did not. */
  function Received(ops: seq<Op>, i: nat, file: FileId): int
    requires i <= |ops|
  {
    if i == 0 then -1
    else
      var op := ops[i - 1];
      if op.Create? && op.file == file then 0
      else if op.Recv? && op.file == file then op.offset + op.size
      else Received(ops, i - 1, file)
  }

  /** What file `f` of a process holds after its first `i` operations. */
  function Holds(ops: seq<Op>, i: nat, f: FileId, start: Disk, want: Disk): File
    requires i <= |ops|
  {
    var n := Received(ops, i, f);
    if n < 0 then (if f in start then start[f] else [])
    else if f in want && n <= |want[f]| then want[f][..n] else []
  }

  /** An operation finds what it needs: receives append to what was received, sends find their block. */
  ghost predicate Local(ops: seq<Op>, i: nat, start: Disk, want: Disk)
    requires i < |ops|
  {
    var op := ops[i];
    op.file in want &&
    (op.Recv? ==> op.offset == Received(ops, i, op.file) && op.offset + op.size <= |want[op.file]|) &&
    (op.Send? ==>
      && op.offset + op.size <= |want[op.file]|
      && (Received(ops, i, op.file) < 0 ==> op.file in start && start[op.file] == want[op.file])
      && (0 <= Received(ops, i, op.file) ==> op.offset + op.size <= Received(ops, i, op.file)))
  }

  ghost predicate WellTimed(sys: System, start: seq<Disk>) {
    && |start| == |sys.progs| == |sys.want|
    && forall p :: 0 <= p < |sys.progs| ==> ProcessOk(sys, start, p)
  }

  ghost predicate ProcessOk(sys: System, start: seq<Disk>, p: nat)
    requires p < |start| == |sys.progs| == |sys.want|
  {
    && InOrder(sys.progs[p])
    && (forall i :: 0 <= i < |sys.progs[p]| ==> Local(sys.progs[p], i, start[p], sys.want[p]))
    && (forall i :: 0 <= i < |sys.progs[p]| ==> Matched(sys, p, sys.progs[p][i]))
  }

  // ------------------------------------------------------------------ what every run keeps

  /** The operation with this time is behind process `p`. */
  ghost predicate Passed(sys: System, s: Net, p: nat, time: Time) {
    p < |s.pc| && p < |sys.progs| && forall i :: 0 <= i < |sys.progs[p]| && sys.progs[p][i].time == time ==> i < s.pc[p]
  }

  /** Both ends of a message are behind their processes, or neither is. */
  ghost predicate InStep(sys: System, s: Net) {
    forall p, a :: 0 <= p < |sys.progs| && a in sys.progs[p] && !a.Create? ==>
      (Passed(sys, s, p, a.time) <==> Passed(sys, s, a.peer, a.time))
  }

  /** Every file holds what the operations so far make of it. */
  ghost predicate Contents(sys: System, start: seq<Disk>, s: Net)
    requires Fits(sys, s) && |start| == |s.pc|
  {
    forall p: nat, f: FileId :: p < |s.pc| ==> FileIs(sys, start, s, p, f)
  }

  ghost predicate FileIs(sys: System, start: seq<Disk>, s: Net, p: nat, f: FileId)
    requires Fits(sys, s) && |start| == |s.pc| && p < |s.pc|
  {
    && (f in s.disks[p] <==> f in start[p] || 0 <= Received(sys.progs[p], s.pc[p], f))
    && (f in s.disks[p] ==> s.disks[p][f] == Holds(sys.progs[p], s.pc[p], f, start[p], sys.want[p]))
  }

  ghost predicate Good(sys: System, start: seq<Disk>, s: Net) {
    Fits(sys, s) && |start| == |s.pc| && InStep(sys, s) && Contents(sys, start, s)
  }

  function Initial(sys: System, start: seq<Disk>): Net {
    Net(seq(|sys.progs|, _ => 0), start)
  }

  // ------------------------------------------------------------------ order

  lemma EarlierIsTotal(a: Time, b: Time)
    ensures Earlier(a, b) || a == b || Earlier(b, a)
    ensures !(Earlier(a, b) && Earlier(b, a)) && !Earlier(a, a)
  {
  }

  lemma EarlierTransitive(a: Time, b: Time, c: Time)
    requires Earlier(a, b) && Earlier(b, c)
    ensures Earlier(a, c)
  {
  }

  /** Operations in order differ in time. */
  lemma TimesIdentify(ops: seq<Op>, i: nat, j: nat)
    requires InOrder(ops) && i < |ops| && j < |ops| && ops[i].time == ops[j].time
    ensures i == j
  {
    EarlierIsTotal(ops[i].time, ops[j].time);
  }

  lemma PassedIsBehind(sys: System, s: Net, p: nat, i: nat)
    requires Fits(sys, s) && p < |sys.progs| && InOrder(sys.progs[p]) && i < |sys.progs[p]|
    ensures Passed(sys, s, p, sys.progs[p][i].time) <==> i < s.pc[p]
  {
    hide Earlier;
    forall m | 0 <= m < |sys.progs[p]| && sys.progs[p][m].time == sys.progs[p][i].time
      ensures m == i
    {
      TimesIdentify(sys.progs[p], m, i);
    }
  }

  /** If an operation is still ahead of a process, its next one is not later. */
  lemma NextIsFirst(sys: System, s: Net, p: nat, i: nat)
    requires Fits(sys, s) && p < |sys.progs| && InOrder(sys.progs[p]) && s.pc[p] <= i < |sys.progs[p]|
    ensures Has(sys, s, p) && !Earlier(sys.progs[p][i].time, Next(sys, s, p).time)
    ensures sys.progs[p][i].time == Next(sys, s, p).time ==> i == s.pc[p]
  {
    EarlierIsTotal(sys.progs[p][i].time, sys.progs[p][s.pc[p]].time);
    if sys.progs[p][i].time == Next(sys, s, p).time {
      TimesIdentify(sys.progs[p], i, s.pc[p]);
    }
  }

  /** Where the other end of an operation is. */
  lemma PartnerOf(sys: System, start: seq<Disk>, p: nat, i: nat) returns (q: nat, j: nat)
    requires WellTimed(sys, start) && p < |sys.progs| && i < |sys.progs[p]| && !sys.progs[p][i].Create?
    ensures q == sys.progs[p][i].peer && q < |sys.progs| && q != p && j < |sys.progs[q]|
    ensures Partners(p, sys.progs[p][i], sys.progs[q][j])
    ensures sys.progs[p][i].file in sys.want[p] && sys.progs[q][j].file in sys.want[q]
    ensures sys.want[p][sys.progs[p][i].file] == sys.want[q][sys.progs[q][j].file]
  {
    hide InOrder, Local;
    assert ProcessOk(sys, start, p);
    var a := sys.progs[p][i];
    assert Matched(sys, p, a);
    q := a.peer;
    var b :| b in sys.progs[q] && Partners(p, a, b) && b.file in sys.want[q]
      && sys.want[p][a.file] == sys.want[q][b.file];
    j :| 0 <= j < |sys.progs[q]| && sys.progs[q][j] == b;
  }

  lemma InOrderOf(sys: System, start: seq<Disk>, p: nat)
    requires WellTimed(sys, start) && p < |sys.progs|
    ensures InOrder(sys.progs[p])
  {
    assert ProcessOk(sys, start, p);
  }

  lemma LocalOf(sys: System, start: seq<Disk>, p: nat, i: nat)
    requires WellTimed(sys, start) && p < |sys.progs| && i < |sys.progs[p]|
    ensures Local(sys.progs[p], i, start[p], sys.want[p])
  {
    hide Local, InOrder, Matched;
    assert ProcessOk(sys, start, p);
  }

  lemma InStepOf(sys: System, s: Net, p: nat, i: nat)
    requires InStep(sys, s) && p < |sys.progs| && i < |sys.progs[p]| && !sys.progs[p][i].Create?
    ensures Passed(sys, s, p, sys.progs[p][i].time) <==> Passed(sys, s, sys.progs[p][i].peer, sys.progs[p][i].time)
  {
    hide Passed;
    assert sys.progs[p][i] in sys.progs[p];
  }

  /** The other end of the next operation is not behind its process. */
  lemma PartnerAhead(sys: System, start: seq<Disk>, s: Net, p: nat) returns (q: nat, j: nat)
    requires WellTimed(sys, start) && Fits(sys, s) && InStep(sys, s) && Has(sys, s, p) && !Next(sys, s, p).Create?
    ensures q == Next(sys, s, p).peer && q < |sys.progs| && q != p && s.pc[q] <= j < |sys.progs[q]|
    ensures Partners(p, Next(sys, s, p), sys.progs[q][j])
    ensures Next(sys, s, p).file in sys.want[p] && sys.progs[q][j].file in sys.want[q]
    ensures sys.want[p][Next(sys, s, p).file] == sys.want[q][sys.progs[q][j].file]
  {
    hide InOrder, Passed, Partners, InStep;
    q, j := PartnerOf(sys, start, p, s.pc[p]);
    InOrderOf(sys, start, p);
    InOrderOf(sys, start, q);
    PassedIsBehind(sys, s, p, s.pc[p]);
    PassedIsBehind(sys, s, q, j);
    InStepOf(sys, s, p, s.pc[p]);
    SameTime(p, Next(sys, s, p), sys.progs[q][j]);
  }

  lemma SameTime(p: nat, a: Op, b: Op)
    requires Partners(p, a, b)
    ensures a.time == b.time
  {
  }

  /** Two processes that can meet are at the two ends of one message. */
  lemma MeetingEnds(sys: System, start: seq<Disk>, s: Net, p: nat, q: nat)
    requires WellTimed(sys, start) && Fits(sys, s) && InStep(sys, s) && CanMeet(sys, s, p, q)
    ensures Partners(p, Next(sys, s, p), Next(sys, s, q))
    ensures Next(sys, s, p).file in sys.want[p] && Next(sys, s, q).file in sys.want[q]
    ensures sys.want[p][Next(sys, s, p).file] == sys.want[q][Next(sys, s, q).file]
  {
    hide InOrder, Passed, InStep, WellTimed, Earlier;
    var q', j := PartnerAhead(sys, start, s, p);
    var p', i := PartnerAhead(sys, start, s, q);
    InOrderOf(sys, start, p);
    InOrderOf(sys, start, q);
    NextIsFirst(sys, s, q, j);
    NextIsFirst(sys, s, p, i);
    EarlierIsTotal(Next(sys, s, p).time, Next(sys, s, q).time);
  }

  // ------------------------------------------------------------------ every step keeps it

  lemma ReceivedStep(ops: seq<Op>, i: nat, f: FileId)
    requires i < |ops|
    ensures Received(ops, i + 1, f) ==
            if ops[i].Create? && ops[i].file == f then 0
            else if ops[i].Recv? && ops[i].file == f then ops[i].offset + ops[i].size
            else Received(ops, i, f)
  {
  }

  /** A file that the next operation does not write stays what it is. */
  lemma FileUnchanged(sys: System, start: seq<Disk>, s: Net, s': Net, p: nat, f: FileId)
    requires Fits(sys, s) && Fits(sys, s') && |start| == |s.pc| && p < |s.pc| && FileIs(sys, start, s, p, f)
    requires (f in s'.disks[p] <==> f in s.disks[p]) && (f in s.disks[p] ==> s'.disks[p][f] == s.disks[p][f])
    requires s'.pc[p] == s.pc[p]
             || (s'.pc[p] == s.pc[p] + 1 && (sys.progs[p][s.pc[p]].file != f || sys.progs[p][s.pc[p]].Send?))
    ensures FileIs(sys, start, s', p, f)
  {
    hide Received;
    if s'.pc[p] == s.pc[p] + 1 {
      ReceivedStep(sys.progs[p], s.pc[p], f);
    }
  }

  lemma CreateKeepsContents(sys: System, start: seq<Disk>, s: Net, p: nat, r: nat, f: FileId)
    requires WellTimed(sys, start) && Fits(sys, s) && |start| == |s.pc| && Contents(sys, start, s)
             && CanCreate(sys, s, p)
    requires r < |s.pc|
    ensures Fits(sys, AfterCreate(sys, s, p)) && FileIs(sys, start, AfterCreate(sys, s, p), r, f)
  {
    hide Received, Local, WellTimed;
    var s' := AfterCreate(sys, s, p);
    assert FileIs(sys, start, s, r, f);
    if r == p && f == Next(sys, s, p).file {
      ReceivedStep(sys.progs[p], s.pc[p], f);
      LocalOf(sys, start, p, s.pc[p]);
      WantedFile(sys, start, p, s.pc[p]);
    } else {
      FileUnchanged(sys, start, s, s', r, f);
    }
  }

  lemma WantedFile(sys: System, start: seq<Disk>, p: nat, i: nat)
    requires WellTimed(sys, start) && p < |sys.progs| && i < |sys.progs[p]|
    ensures sys.progs[p][i].file in sys.want[p]
  {
    hide Received;
    LocalOf(sys, start, p, i);
  }

  /** No process receives more of a file than it is meant to hold. */
  lemma {:induction false} ReceivedFits(sys: System, start: seq<Disk>, p: nat, i: nat, f: FileId)
    requires WellTimed(sys, start) && p < |sys.progs| && i <= |sys.progs[p]| && f in sys.want[p]
    ensures Received(sys.progs[p], i, f) <= |sys.want[p][f]|
    decreases i
  {
    if i != 0 {
      hide WellTimed;
      ReceivedFits(sys, start, p, i - 1, f);
      LocalOf(sys, start, p, i - 1);
    }
  }

  /** The block that a process sends is the block that is meant to be there. */
  lemma SentBlock(sys: System, start: seq<Disk>, s: Net, p: nat)
    requires WellTimed(sys, start) && Fits(sys, s) && |start| == |s.pc| && Contents(sys, start, s)
    requires Has(sys, s, p) && Next(sys, s, p).Send?
    ensures var a, want := Next(sys, s, p), sys.want[p];
            && a.file in want && a.offset + a.size <= |want[a.file]|
            && a.file in s.disks[p] && a.offset + a.size <= |s.disks[p][a.file]|
            && s.disks[p][a.file][a.offset..a.offset + a.size] == want[a.file][a.offset..a.offset + a.size]
  {
    hide Received, WellTimed;
    LocalOf(sys, start, p, s.pc[p]);
    assert FileIs(sys, start, s, p, Next(sys, s, p).file);
    ReceivedFits(sys, start, p, s.pc[p], Next(sys, s, p).file);
  }

  /** A process that is about to receive has the file open, with everything before the block in it. */
  lemma AwaitedBlock(sys: System, start: seq<Disk>, s: Net, q: nat)
    requires WellTimed(sys, start) && Fits(sys, s) && |start| == |s.pc| && Contents(sys, start, s)
    requires Has(sys, s, q) && Next(sys, s, q).Recv?
    ensures var b, want := Next(sys, s, q), sys.want[q];
            && b.file in want && b.offset + b.size <= |want[b.file]|
            && b.file in s.disks[q] && s.disks[q][b.file] == want[b.file][..b.offset]
  {
    hide Received, WellTimed;
    LocalOf(sys, start, q, s.pc[q]);
    assert FileIs(sys, start, s, q, Next(sys, s, q).file);
  }

  lemma MeetKeepsContents(sys: System, start: seq<Disk>, s: Net, p: nat, q: nat, r: nat, f: FileId)
    requires WellTimed(sys, start) && Good(sys, start, s) && CanMeet(sys, s, p, q) && r < |s.pc|
    ensures Fits(sys, AfterMeet(sys, s, p, q)) && FileIs(sys, start, AfterMeet(sys, s, p, q), r, f)
  {
    var a, b, s' := Next(sys, s, p), Next(sys, s, q), AfterMeet(sys, s, p, q);
    MeetingEnds(sys, start, s, p, q);
    hide Received, WellTimed, InStep, Passed;
    assert FileIs(sys, start, s, r, f);
    if r == q && f == b.file {
      SentBlock(sys, start, s, p);
      AwaitedBlock(sys, start, s, q);
      ReceivedStep(sys.progs[q], s.pc[q], f);
      var want := sys.want[q][f];
      assert want[..b.offset] + want[b.offset..b.offset + b.size] == want[..b.offset + b.size];
    } else {
      FileUnchanged(sys, start, s, s', r, f);
    }
  }

  lemma CreateKeepsStep(sys: System, start: seq<Disk>, s: Net, p: nat)
    requires WellTimed(sys, start) && Fits(sys, s) && InStep(sys, s) && CanCreate(sys, s, p)
    ensures InStep(sys, AfterCreate(sys, s, p))
  {
    hide WellTimed, InOrder, Matched;
    var s' := AfterCreate(sys, s, p);
    forall r, c | 0 <= r < |sys.progs| && c in sys.progs[r] && !c.Create?
      ensures Passed(sys, s', r, c.time) <==> Passed(sys, s', c.peer, c.time)
    {
      var i :| 0 <= i < |sys.progs[r]| && sys.progs[r][i] == c;
      var q, j := PartnerOf(sys, start, r, i);
      InStepOf(sys, s, r, i);
      InOrderOf(sys, start, r);
      InOrderOf(sys, start, q);
      PassedIsBehind(sys, s, r, i);
      PassedIsBehind(sys, s, q, j);
      PassedIsBehind(sys, s', r, i);
      PassedIsBehind(sys, s', q, j);
    }
  }

  lemma MeetKeepsStep(sys: System, start: seq<Disk>, s: Net, p: nat, q: nat)
    requires WellTimed(sys, start) && Fits(sys, s) && InStep(sys, s) && CanMeet(sys, s, p, q)
    ensures InStep(sys, AfterMeet(sys, s, p, q))
  {
    MeetingEnds(sys, start, s, p, q);
    var s' := AfterMeet(sys, s, p, q);
    forall r, c | 0 <= r < |sys.progs| && c in sys.progs[r] && !c.Create?
      ensures Passed(sys, s', r, c.time) <==> Passed(sys, s', c.peer, c.time)
    {
      hide WellTimed, InOrder, Matched, InStep, Passed;
      var i :| 0 <= i < |sys.progs[r]| && sys.progs[r][i] == c;
      OneMessageKeepsStep(sys, start, s, p, q, r, i);
    }
  }

  lemma OneMessageKeepsStep(sys: System, start: seq<Disk>, s: Net, p: nat, q: nat, r: nat, i: nat)
    requires WellTimed(sys, start) && Fits(sys, s) && InStep(sys, s) && CanMeet(sys, s, p, q)
    requires Partners(p, Next(sys, s, p), Next(sys, s, q))
    requires r < |sys.progs| && i < |sys.progs[r]| && !sys.progs[r][i].Create?
    ensures var s', c := AfterMeet(sys, s, p, q), sys.progs[r][i];
            Passed(sys, s', r, c.time) <==> Passed(sys, s', c.peer, c.time)
  {
    hide WellTimed, InOrder, Matched, InStep, Passed;
    var s' := AfterMeet(sys, s, p, q);
    var o, j := PartnerOf(sys, start, r, i);
    InStepOf(sys, s, r, i);
    InOrderOf(sys, start, r);
    InOrderOf(sys, start, o);
    PassedIsBehind(sys, s, r, i);
    PassedIsBehind(sys, s, o, j);
    PassedIsBehind(sys, s', r, i);
    PassedIsBehind(sys, s', o, j);
    var c, d := sys.progs[r][i], sys.progs[o][j];
    if i == s.pc[r] && (r == p || r == q) {
      var other := if r == p then q else p;
      assert o == other && d.time == sys.progs[other][s.pc[other]].time;
      InOrderOf(sys, start, other);
      TimesIdentify(sys.progs[other], j, s.pc[other]);
    }
    if j == s.pc[o] && (o == p || o == q) {
      var other := if o == p then q else p;
      assert d.peer == r;
      assert r == other && c.time == sys.progs[other][s.pc[other]].time;
      InOrderOf(sys, start, other);
      TimesIdentify(sys.progs[other], i, s.pc[other]);
    }
  }

  /** Every step keeps messages in step and files right. */
  lemma StepKeepsGood(sys: System, start: seq<Disk>, s: Net, s': Net)
    requires WellTimed(sys, start) && Good(sys, start, s) && Step(sys, s, s')
    ensures Good(sys, start, s') && Progress(s') == Progress(s) + if Creates(sys, s, s') then 1 else 2
  {
    hide WellTimed, InStep, FileIs, CanMeet, CanCreate, AfterCreate, AfterMeet, Contents;
    if p :| CanCreate(sys, s, p) && s' == AfterCreate(sys, s, p) {
      CreateKeepsStep(sys, start, s, p);
      AllCreated(sys, start, s, p);
      CreateProgress(sys, s, p);
    } else {
      var p, q :| CanMeet(sys, s, p, q) && s' == AfterMeet(sys, s, p, q);
      MeetKeepsStep(sys, start, s, p, q);
      AllMet(sys, start, s, p, q);
      MeetProgress(sys, s, p, q);
    }
  }

  ghost predicate Creates(sys: System, s: Net, s': Net) {
    exists p :: CanCreate(sys, s, p) && s' == AfterCreate(sys, s, p)
  }

  lemma AllCreated(sys: System, start: seq<Disk>, s: Net, p: nat)
    requires WellTimed(sys, start) && Good(sys, start, s) && CanCreate(sys, s, p)
    ensures Fits(sys, AfterCreate(sys, s, p)) && Contents(sys, start, AfterCreate(sys, s, p))
  {
    hide WellTimed, InStep, FileIs;
    forall r: nat, f: FileId | r < |s.pc|
      ensures FileIs(sys, start, AfterCreate(sys, s, p), r, f)
    {
      CreateKeepsContents(sys, start, s, p, r, f);
    }
  }

  lemma AllMet(sys: System, start: seq<Disk>, s: Net, p: nat, q: nat)
    requires WellTimed(sys, start) && Good(sys, start, s) && CanMeet(sys, s, p, q)
    ensures Fits(sys, AfterMeet(sys, s, p, q)) && Contents(sys, start, AfterMeet(sys, s, p, q))
  {
    hide WellTimed, InStep, FileIs, Contents, CanMeet;
    assert Fits(sys, AfterMeet(sys, s, p, q)) by {
      MeetFits(sys, s, p, q);
    }
    forall r: nat, f: FileId | r < |s.pc|
      ensures FileIs(sys, start, AfterMeet(sys, s, p, q), r, f)
    {
      MeetKeepsContents(sys, start, s, p, q, r, f);
    }
    AllFiles(sys, start, AfterMeet(sys, s, p, q));
  }

  lemma MeetFits(sys: System, s: Net, p: nat, q: nat)
    requires Fits(sys, s) && CanMeet(sys, s, p, q)
    ensures Fits(sys, AfterMeet(sys, s, p, q)) && |AfterMeet(sys, s, p, q).pc| == |s.pc|
  {
  }

  lemma AllFiles(sys: System, start: seq<Disk>, s: Net)
    requires Fits(sys, s) && |start| == |s.pc| && forall r: nat, f: FileId :: r < |s.pc| ==> FileIs(sys, start, s, r, f)
    ensures Contents(sys, start, s)
  {
  }

  // ------------------------------------------------------------------ progress

  function Sum(s: seq<nat>): nat {
    if s == [] then 0 else Sum(s[..|s| - 1]) + s[|s| - 1]
  }

  /** The number of operations behind all processes. */
  function Progress(s: Net): nat {
    Sum(s.pc)
  }

  lemma {:induction false} SumStep(s: seq<nat>, p: nat)
    requires p < |s|
    ensures Sum(s[p := s[p] + 1]) == Sum(s) + 1
    decreases |s|
  {
    var s' := s[p := s[p] + 1];
    if p < |s| - 1 {
      SumStep(s[..|s| - 1], p);
      assert s'[..|s| - 1] == s[..|s| - 1][p := s[p] + 1];
    } else {
      assert s'[..|s| - 1] == s[..|s| - 1];
    }
  }

  lemma CreateProgress(sys: System, s: Net, p: nat)
    requires CanCreate(sys, s, p)
    ensures Progress(AfterCreate(sys, s, p)) == Progress(s) + 1
  {
    SumStep(s.pc, p);
  }

  lemma MeetProgress(sys: System, s: Net, p: nat, q: nat)
    requires CanMeet(sys, s, p, q)
    ensures Progress(AfterMeet(sys, s, p, q)) == Progress(s) + 2 && !Creates(sys, s, AfterMeet(sys, s, p, q))
  {
    SumStep(s.pc, p);
    SumStep(s.pc[p := s.pc[p] + 1], q);
    if Creates(sys, s, AfterMeet(sys, s, p, q)) {
      var r :| CanCreate(sys, s, r) && AfterMeet(sys, s, p, q) == AfterCreate(sys, s, r);
      CreateProgress(sys, s, r);
      assert false;
    }
  }

  lemma {:induction false} SumBounded(a: seq<nat>, b: seq<nat>)
    requires |a| == |b| && forall i :: 0 <= i < |a| ==> a[i] <= b[i]
    ensures Sum(a) <= Sum(b)
    decreases |a|
  {
    if a != [] {
      SumBounded(a[..|a| - 1], b[..|b| - 1]);
    }
  }

  /** The number of operations of all programs. */
  function Work(sys: System): nat {
    Sum(seq(|sys.progs|, p requires 0 <= p < |sys.progs| => |sys.progs[p]|))
  }

  lemma ProgressBounded(sys: System, s: Net)
    requires Fits(sys, s)
    ensures Progress(s) <= Work(sys)
  {
    SumBounded(s.pc, seq(|sys.progs|, p requires 0 <= p < |sys.progs| => |sys.progs[p]|));
  }

  /** Among the processes below `n` that are not done, one whose next operation is the earliest. */
  lemma {:induction false} EarliestNext(sys: System, s: Net, n: nat) returns (some: bool, p: nat)
    requires Fits(sys, s) && n <= |s.pc|
    ensures some ==> p < n && Has(sys, s, p)
    ensures some ==> forall q :: 0 <= q < n && Has(sys, s, q) ==> !Earlier(Next(sys, s, q).time, Next(sys, s, p).time)
    ensures !some ==> forall q :: 0 <= q < n ==> !Has(sys, s, q)
    decreases n
  {
    hide Earlier;
    some, p := false, 0;
    if 0 < n {
      some, p := EarliestNext(sys, s, n - 1);
      if Has(sys, s, n - 1) {
        if !some {
          some, p := true, n - 1;
          EarlierIsTotal(Next(sys, s, p).time, Next(sys, s, p).time);
        } else if Earlier(Next(sys, s, n - 1).time, Next(sys, s, p).time) {
          forall q | 0 <= q < n && Has(sys, s, q)
            ensures !Earlier(Next(sys, s, q).time, Next(sys, s, n - 1).time)
          {
            EarlierIsTotal(Next(sys, s, n - 1).time, Next(sys, s, n - 1).time);
            if Earlier(Next(sys, s, q).time, Next(sys, s, n - 1).time) {
              EarlierTransitive(Next(sys, s, q).time, Next(sys, s, n - 1).time, Next(sys, s, p).time);
            }
          }
          p := n - 1;
        }
      }
    }
  }

  /** As long as a process is not done, some step is possible. */
  lemma NeverStuck(sys: System, start: seq<Disk>, s: Net)
    requires WellTimed(sys, start) && Good(sys, start, s)
    ensures Finished(sys, s) || CanStep(sys, s)
  {
    hide WellTimed, InStep, Contents, Earlier, Passed;
    var some, p := EarliestNext(sys, s, |s.pc|);
    if some {
      var a := Next(sys, s, p);
      if a.Create? {
        assert CanCreate(sys, s, p);
      } else {
        var q, j := PartnerAhead(sys, start, s, p);
        InOrderOf(sys, start, q);
        NextIsFirst(sys, s, q, j);
        EarlierIsTotal(Next(sys, s, q).time, a.time);
        assert Next(sys, s, q) == sys.progs[q][j];
        var from, to := if a.Send? then p else q, if a.Send? then q else p;
        SentBlock(sys, start, s, from);
        AwaitedBlock(sys, start, s, to);
        assert CanMeet(sys, s, from, to);
      }
    } else {
      forall q | 0 <= q < |s.pc|
        ensures s.pc[q] == |sys.progs[q]|
      {
        assert !Has(sys, s, q);
      }
    }
  }

  // ------------------------------------------------------------------ runs

  /** A run from the start, with the processes interleaved in any way. */
  ghost predicate Execution(sys: System, start: seq<Disk>, run: seq<Net>) {
    && run != [] && |start| == |sys.progs| && run[0] == Initial(sys, start)
    && forall t :: 0 <= t < |run| - 1 ==> Step(sys, run[t], run[t + 1])
  }

  lemma InitiallyGood(sys: System, start: seq<Disk>)
    requires WellTimed(sys, start)
    ensures Good(sys, start, Initial(sys, start)) && Progress(Initial(sys, start)) == 0
  {
    var s := Initial(sys, start);
    ZeroSum(|sys.progs|);
    forall p, a | 0 <= p < |sys.progs| && a in sys.progs[p] && !a.Create?
      ensures Passed(sys, s, p, a.time) <==> Passed(sys, s, a.peer, a.time)
    {
      hide WellTimed, InOrder, Passed;
      var i :| 0 <= i < |sys.progs[p]| && sys.progs[p][i] == a;
      var q, j := PartnerOf(sys, start, p, i);
      InOrderOf(sys, start, p);
      InOrderOf(sys, start, q);
      PassedIsBehind(sys, s, p, i);
      PassedIsBehind(sys, s, q, j);
    }
  }

  lemma {:induction false} ZeroSum(n: nat)
    ensures Sum(seq(n, _ => 0)) == 0
    decreases n
  {
    if n != 0 {
      ZeroSum(n - 1);
      assert seq(n, _ => 0)[..n - 1] == seq(n - 1, _ => 0);
    }
  }

  lemma {:induction false} ExecutionGood(sys: System, start: seq<Disk>, run: seq<Net>, t: nat)
    requires WellTimed(sys, start) && Execution(sys, start, run) && t < |run|
    ensures Good(sys, start, run[t]) && t <= Progress(run[t])
    decreases t
  {
    hide WellTimed, Good, Step, Progress;
    if t == 0 {
      InitiallyGood(sys, start);
    } else {
      ExecutionGood(sys, start, run, t - 1);
      assert Step(sys, run[t - 1], run[t - 1 + 1]);
      StepKeepsGood(sys, start, run[t - 1], run[t]);
    }
  }

  /**
   * In a well-timed system no run is longer than the programs, every run that is not finished can go on, and a
   * finished run leaves every received file complete.
   */
  lemma EveryRunDelivers(sys: System, start: seq<Disk>, run: seq<Net>)
    requires WellTimed(sys, start) && Execution(sys, start, run)
    ensures |run| <= Work(sys) + 1
    ensures Finished(sys, run[|run| - 1]) || CanStep(sys, run[|run| - 1])
    ensures Good(sys, start, run[|run| - 1])
  {
    hide WellTimed, InStep, Contents, Step, Finished, Work, CanStep;
    ExecutionGood(sys, start, run, |run| - 1);
    ProgressBounded(sys, run[|run| - 1]);
    NeverStuck(sys, start, run[|run| - 1]);
  }

  /** What a process holds when it is done. */
  lemma {:induction false} FinishedFile(sys: System, start: seq<Disk>, s: Net, p: nat, f: FileId)
    requires WellTimed(sys, start) && Good(sys, start, s) && Finished(sys, s) && p < |sys.progs|
    ensures var n := Received(sys.progs[p], |sys.progs[p]|, f);
            && (f in s.disks[p] <==> f in start[p] || 0 <= n)
            && (f in s.disks[p] ==> s.disks[p][f] == Holds(sys.progs[p], |sys.progs[p]|, f, start[p], sys.want[p]))
  {
    hide WellTimed, InStep;
    assert FileIs(sys, start, s, p, f);
  }
}
