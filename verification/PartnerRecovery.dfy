/**
 * Recovery at level 2: first the lost checkpoint files come back from the copies on the right neighbours, then the
 * lost copies are made again from the checkpoint files, the repaired ones among them.
 */
module PartnerRecovery {
  import opened BlockTransfers
  import opened FileBytes
  import opened PartnerRing
  import opened Rendezvous

  /** The checkpoint files of a group; `lost[r]` and `lost[r + n]` say that rank `r` lost its file or its copy. */
  datatype Group = Group(n: nat, bs: nat, files: seq<File>, lost: seq<bool>)

  predicate ValidGroup(g: Group) {
    2 <= g.n && 0 < g.bs && |g.files| == g.n && |g.lost| == 2 * g.n
  }

  /** Rank `r` lost its file, and its right neighbour the copy of it. */
  predicate BothLost(g: Group, r: nat)
    requires ValidGroup(g) && r < g.n
  {
    g.lost[r] && g.lost[Right(r, g.n) + g.n]
  }

  ghost predicate Recoverable(g: Group)
    requires ValidGroup(g)
  {
    forall r :: 0 <= r < g.n ==> !BothLost(g, r)
  }

  datatype Decision = NothingLost | CannotRecover | Repair

  const FTI_SCES: int := 0
  const FTI_NSCS: int := -1

  /** What one rank contributes to the common decision: both checks that it can make. */
  function Vote(g: Group, r: nat): int
    requires ValidGroup(g) && r < g.n
  {
    if g.lost[r] && g.lost[Right(r, g.n) + g.n] then FTI_NSCS
    else if g.lost[r + g.n] && g.lost[Left(r, g.n)] then FTI_NSCS
    else FTI_SCES
  }

  /** The decision all ranks of a group come to: counts the losses, then adds up the votes. */
  method Decide(g: Group) returns (d: Decision)
    requires ValidGroup(g)
    ensures d == NothingLost <==> forall i :: 0 <= i < 2 * g.n ==> !g.lost[i]
    ensures d != NothingLost ==> (d == CannotRecover <==> !Recoverable(g))
  {
    hide Vote;
    var i := 0;
    for j := 0 to 2 * g.n
      invariant 0 <= i && (i == 0 <==> forall m :: 0 <= m < j ==> !g.lost[m])
    {
      if g.lost[j] {
        i := i + 1;
      }
    }
    if i == 0 {
      return NothingLost;
    }
    var allRes := 0;
    for r := 0 to g.n
      invariant allRes <= 0 && (allRes == 0 <==> forall m :: 0 <= m < r ==> Vote(g, m) == FTI_SCES)
    {
      VoteRange(g, r);
      allRes := allRes + Vote(g, r);
    }
    VotesAgree(g);
    d := if allRes != FTI_SCES then CannotRecover else Repair;
  }

  lemma VoteRange(g: Group, r: nat)
    requires ValidGroup(g) && r < g.n
    ensures Vote(g, r) == FTI_SCES || Vote(g, r) == FTI_NSCS
  {
  }

  /** All votes are good exactly if no file is gone together with its copy. */
  lemma VotesAgree(g: Group)
    requires ValidGroup(g)
    ensures Recoverable(g) <==> forall r :: 0 <= r < g.n ==> Vote(g, r) == FTI_SCES
  {
    if Recoverable(g) {
      forall r | 0 <= r < g.n
        ensures Vote(g, r) == FTI_SCES
      {
        RingNeighbours(r, g.n);
        assert !BothLost(g, r) && !BothLost(g, Left(r, g.n));
      }
    } else {
      var r :| 0 <= r < g.n && BothLost(g, r);
      assert Vote(g, r) == FTI_NSCS;
    }
  }

  // ------------------------------------------------------------------ the programs

  /** When the copy that `s` returns to its left neighbour is on its way. */
  function BackSlot(s: nat): nat {
    if s % 2 == 1 then 0 else if s == 0 then 1 else 2
  }

  lemma BackSlotsFollowRank(r: nat, n: nat)
    requires 2 <= n && r < n
    ensures r % 2 == 1 ==> BackSlot(r) < BackSlot(Right(r, n))
    ensures r % 2 == 0 ==> BackSlot(Right(r, n)) < BackSlot(r)
  {
  }

  function ReturnCopy(g: Group, r: nat): seq<Op>
    requires ValidGroup(g) && r < g.n
  {
    var left := Left(r, g.n);
    if g.lost[left] then SendOps(left, Copy(0), |g.files[left]|, g.bs, 0, BackSlot(r)) else []
  }

  function FetchFile(g: Group, r: nat): seq<Op>
    requires ValidGroup(g) && r < g.n
  {
    var right := Right(r, g.n);
    if g.lost[r] then RecvOps(right, Own(0), |g.files[r]|, g.bs, 0, BackSlot(right)) else []
  }

  function SendFileAgain(g: Group, r: nat): seq<Op>
    requires ValidGroup(g) && r < g.n
  {
    var right := Right(r, g.n);
    if g.lost[right + g.n] then SendOps(right, Own(0), |g.files[r]|, g.bs, 1, Slot(r, g.n)) else []
  }

  function FetchCopy(g: Group, r: nat): seq<Op>
    requires ValidGroup(g) && r < g.n
  {
    var left := Left(r, g.n);
    if g.lost[r + g.n] then RecvOps(left, Copy(0), |g.files[left]|, g.bs, 1, Slot(left, g.n)) else []
  }

  function Files(g: Group, r: nat): seq<Op>
    requires ValidGroup(g) && r < g.n
  {
    if r % 2 == 1 then ReturnCopy(g, r) + FetchFile(g, r) else FetchFile(g, r) + ReturnCopy(g, r)
  }

  function Copies(g: Group, r: nat): seq<Op>
    requires ValidGroup(g) && r < g.n
  {
    if r % 2 == 1 then SendFileAgain(g, r) + FetchCopy(g, r) else FetchCopy(g, r) + SendFileAgain(g, r)
  }

  /** What rank `r` does once the group has decided to repair: odd ranks send first, even ranks receive first. */
  method RecoverL2(g: Group, r: nat) returns (ops: seq<Op>)
    requires ValidGroup(g) && r < g.n
    ensures ops == Files(g, r) + Copies(g, r)
  {
    hide SendOps, RecvOps, BackSlot, Slot;
    var source, destination := Right(r, g.n), Left(r, g.n);
    ops := [];
    var more;
    if r % 2 == 1 {
      if g.lost[destination] {
        more := SendFile(destination, Copy(0), |g.files[destination]|, g.bs, 0, BackSlot(r));
        ops := ops + more;
      }
      if g.lost[r] {
        more := RecvFile(source, Own(0), |g.files[r]|, g.bs, 0, BackSlot(source));
        ops := ops + more;
      }
    } else {
      if g.lost[r] {
        more := RecvFile(source, Own(0), |g.files[r]|, g.bs, 0, BackSlot(source));
        ops := ops + more;
      }
      if g.lost[destination] {
        more := SendFile(destination, Copy(0), |g.files[destination]|, g.bs, 0, BackSlot(r));
        ops := ops + more;
      }
    }
    assert ops == Files(g, r);
    var again := [];
    if r % 2 == 1 {
      if g.lost[source + g.n] {
        more := SendFile(source, Own(0), |g.files[r]|, g.bs, 1, Slot(r, g.n));
        again := again + more;
      }
      if g.lost[r + g.n] {
        more := RecvFile(destination, Copy(0), |g.files[destination]|, g.bs, 1, Slot(destination, g.n));
        again := again + more;
      }
    } else {
      if g.lost[r + g.n] {
        more := RecvFile(destination, Copy(0), |g.files[destination]|, g.bs, 1, Slot(destination, g.n));
        again := again + more;
      }
      if g.lost[source + g.n] {
        more := SendFile(source, Own(0), |g.files[r]|, g.bs, 1, Slot(r, g.n));
        again := again + more;
      }
    }
    assert again == Copies(g, r);
    ops := ops + again;
  }

  // ------------------------------------------------------------------ the system

  function Meant(g: Group, r: nat): Disk
    requires ValidGroup(g) && r < g.n
  {
    map[Own(0) := g.files[r], Copy(0) := g.files[Left(r, g.n)]]
  }

  function RecoverySystem(g: Group): (sys: System)
    requires ValidGroup(g)
    ensures |sys.progs| == |sys.want| == g.n
    ensures forall r :: 0 <= r < g.n ==> sys.progs[r] == Files(g, r) + Copies(g, r) && sys.want[r] == Meant(g, r)
  {
    System(seq(g.n, r requires 0 <= r < g.n => Files(g, r) + Copies(g, r)),
           seq(g.n, r requires 0 <= r < g.n => Meant(g, r)))
  }

  /** The files that rank `r` still has. */
  function Remaining(g: Group, r: nat): set<FileId>
    requires ValidGroup(g) && r < g.n
  {
    (if g.lost[r] then {} else {Own(0)}) + (if g.lost[r + g.n] then {} else {Copy(0)})
  }

  /** What was not lost is intact. */
  ghost predicate RestIntact(g: Group, start: seq<Disk>)
    requires ValidGroup(g)
  {
    |start| == g.n && forall r :: 0 <= r < g.n ==> Complete(Remaining(g, r), start[r], Meant(g, r))
  }

  // ------------------------------------------------------------------ every rank finds what it needs

  lemma ReturnSound(g: Group, r: nat, have: set<FileId>)
    requires ValidGroup(g) && r < g.n && (g.lost[Left(r, g.n)] ==> Copy(0) in have)
    ensures Sound(ReturnCopy(g, r), have, Meant(g, r))
    ensures forall f :: f in have * {Own(0), Copy(0)} ==> CompleteAfter(ReturnCopy(g, r), f, have, Meant(g, r))
  {
    hide SendOps, Received;
    var left := Left(r, g.n);
    if g.lost[left] {
      SendSound(left, Copy(0), |g.files[left]|, g.bs, 0, BackSlot(r), have, Meant(g, r));
    } else {
      Nothing(have, Meant(g, r));
    }
  }

  lemma AgainSound(g: Group, r: nat, have: set<FileId>)
    requires ValidGroup(g) && r < g.n && (g.lost[Right(r, g.n) + g.n] ==> Own(0) in have)
    ensures Sound(SendFileAgain(g, r), have, Meant(g, r))
    ensures forall f :: f in have * {Own(0), Copy(0)} ==> CompleteAfter(SendFileAgain(g, r), f, have, Meant(g, r))
  {
    hide SendOps, Received;
    var right := Right(r, g.n);
    if g.lost[right + g.n] {
      SendSound(right, Own(0), |g.files[r]|, g.bs, 1, Slot(r, g.n), have, Meant(g, r));
    } else {
      Nothing(have, Meant(g, r));
    }
  }

  lemma FetchFileSound(g: Group, r: nat, have: set<FileId>)
    requires ValidGroup(g) && r < g.n
    ensures Sound(FetchFile(g, r), have, Meant(g, r))
    ensures forall f :: f in have * {Own(0), Copy(0)} ==> CompleteAfter(FetchFile(g, r), f, have, Meant(g, r))
    ensures g.lost[r] ==> CompleteAfter(FetchFile(g, r), Own(0), have, Meant(g, r))
  {
    hide RecvOps, Received;
    var right := Right(r, g.n);
    if g.lost[r] {
      RecvSound(right, Own(0), |g.files[r]|, g.bs, 0, BackSlot(right), have, Meant(g, r));
    } else {
      Nothing(have, Meant(g, r));
    }
  }

  lemma FetchCopySound(g: Group, r: nat, have: set<FileId>)
    requires ValidGroup(g) && r < g.n
    ensures Sound(FetchCopy(g, r), have, Meant(g, r))
    ensures forall f :: f in have * {Own(0), Copy(0)} ==> CompleteAfter(FetchCopy(g, r), f, have, Meant(g, r))
    ensures g.lost[r + g.n] ==> CompleteAfter(FetchCopy(g, r), Copy(0), have, Meant(g, r))
  {
    hide RecvOps, Received;
    var left := Left(r, g.n);
    if g.lost[r + g.n] {
      RecvSound(left, Copy(0), |g.files[left]|, g.bs, 1, Slot(left, g.n), have, Meant(g, r));
    } else {
      Nothing(have, Meant(g, r));
    }
  }

  lemma Nothing(have: set<FileId>, want: Disk)
    ensures Sound([], have, want)
    ensures forall f :: f in have && f in want ==> CompleteAfter([], f, have, want)
  {
  }

  /** After the first phase every rank has its checkpoint file, and the copies that were not lost. */
  lemma FilesSound(g: Group, r: nat)
    requires ValidGroup(g) && r < g.n && Recoverable(g)
    ensures Sound(Files(g, r), Remaining(g, r), Meant(g, r))
    ensures forall f :: f in Remaining(g, r) + {Own(0)} ==> CompleteAfter(Files(g, r), f, Remaining(g, r), Meant(g, r))
  {
    hide ReturnCopy, FetchFile, Sound, CompleteAfter, Received;
    var have, want, a, b := Remaining(g, r), Meant(g, r), ReturnCopy(g, r), FetchFile(g, r);
    RingNeighbours(r, g.n);
    assert !BothLost(g, Left(r, g.n));
    ReturnSound(g, r, have);
    ReturnSound(g, r, have + {Own(0)});
    FetchFileSound(g, r, have);
    if r % 2 == 1 {
      SoundAppend(a, b, have, have, want);
      forall f | f in have + {Own(0)}
        ensures CompleteAfter(a + b, f, have, want)
      {
        CompleteAppend(a, b, f, have, have, want);
      }
    } else {
      SoundAppend(b, a, have, have + {Own(0)}, want);
      forall f | f in have + {Own(0)}
        ensures CompleteAfter(b + a, f, have, want)
      {
        CompleteAppend(b, a, f, have, have + {Own(0)}, want);
      }
    }
  }

  /** The second phase starts from the repaired checkpoint file and leaves both files complete. */
  lemma CopiesSound(g: Group, r: nat)
    requires ValidGroup(g) && r < g.n
    ensures var have := Remaining(g, r) + {Own(0)};
            && Sound(Copies(g, r), have, Meant(g, r))
            && CompleteAfter(Copies(g, r), Own(0), have, Meant(g, r))
            && CompleteAfter(Copies(g, r), Copy(0), have, Meant(g, r))
  {
    hide SendFileAgain, FetchCopy, Sound, CompleteAfter, Received;
    var have, want, a, b := Remaining(g, r) + {Own(0)}, Meant(g, r), SendFileAgain(g, r), FetchCopy(g, r);
    AgainSound(g, r, have);
    AgainSound(g, r, have + {Copy(0)});
    FetchCopySound(g, r, have);
    if r % 2 == 1 {
      SoundAppend(a, b, have, have, want);
      CompleteAppend(a, b, Own(0), have, have, want);
      CompleteAppend(a, b, Copy(0), have, have, want);
    } else {
      SoundAppend(b, a, have, have + {Copy(0)}, want);
      CompleteAppend(b, a, Own(0), have, have + {Copy(0)}, want);
      CompleteAppend(b, a, Copy(0), have, have + {Copy(0)}, want);
    }
  }

  lemma RecoverySound(g: Group, r: nat)
    requires ValidGroup(g) && r < g.n && Recoverable(g)
    ensures Sound(Files(g, r) + Copies(g, r), Remaining(g, r), Meant(g, r))
    ensures CompleteAfter(Files(g, r) + Copies(g, r), Own(0), Remaining(g, r), Meant(g, r))
    ensures CompleteAfter(Files(g, r) + Copies(g, r), Copy(0), Remaining(g, r), Meant(g, r))
  {
    hide Files, Copies, Sound, CompleteAfter, Received;
    var have, want, a, b := Remaining(g, r), Meant(g, r), Files(g, r), Copies(g, r);
    FilesSound(g, r);
    CopiesSound(g, r);
    SoundAppend(a, b, have, have + {Own(0)}, want);
    CompleteAppend(a, b, Own(0), have, have + {Own(0)}, want);
    CompleteAppend(a, b, Copy(0), have, have + {Own(0)}, want);
  }

  // ------------------------------------------------------------------ order

  lemma Empty(round: nat, slot: nat)
    ensures InOrder([]) && InSlot([], round, slot, 0)
  {
  }

  lemma FilesOrdered(g: Group, r: nat)
    requires ValidGroup(g) && r < g.n
    ensures InOrder(Files(g, r)) && forall m :: 0 <= m < |Files(g, r)| ==> Files(g, r)[m].time.round == 0
  {
    hide SendOps, RecvOps, InOrder, Earlier;
    var left, right := Left(r, g.n), Right(r, g.n);
    SendOpsOrdered(left, Copy(0), |g.files[left]|, g.bs, 0, BackSlot(r));
    RecvOpsOrdered(right, Own(0), |g.files[r]|, g.bs, 0, BackSlot(right));
    Empty(0, BackSlot(r));
    Empty(0, BackSlot(right));
    BackSlotsFollowRank(r, g.n);
    Joined(ReturnCopy(g, r), FetchFile(g, r), r, 0, BackSlot(r), BackSlot(right));
  }

  lemma CopiesOrdered(g: Group, r: nat)
    requires ValidGroup(g) && r < g.n
    ensures InOrder(Copies(g, r)) && forall m :: 0 <= m < |Copies(g, r)| ==> Copies(g, r)[m].time.round == 1
  {
    hide SendOps, RecvOps, InOrder, Earlier;
    var left, right := Left(r, g.n), Right(r, g.n);
    SendOpsOrdered(right, Own(0), |g.files[r]|, g.bs, 1, Slot(r, g.n));
    RecvOpsOrdered(left, Copy(0), |g.files[left]|, g.bs, 1, Slot(left, g.n));
    Empty(1, Slot(r, g.n));
    Empty(1, Slot(left, g.n));
    SlotsFollowRank(r, g.n);
    Joined(SendFileAgain(g, r), FetchCopy(g, r), r, 1, Slot(r, g.n), Slot(left, g.n));
  }

  /** A send and a receive in the order that the rank prescribes. */
  lemma Joined(sends: seq<Op>, recvs: seq<Op>, r: nat, round: nat, slot: nat, slot': nat)
    requires InOrder(sends) && InOrder(recvs) && InSlot(sends, round, slot, 0) && InSlot(recvs, round, slot', 0)
    requires if r % 2 == 1 then slot < slot' else slot' < slot
    ensures var ops := if r % 2 == 1 then sends + recvs else recvs + sends;
            InOrder(ops) && forall m :: 0 <= m < |ops| ==> ops[m].time.round == round
  {
    hide InOrder;
    if r % 2 == 1 {
      SlotsApart(sends, recvs, round, slot, slot');
      InOrderAppend(sends, recvs);
    } else {
      SlotsApart(recvs, sends, round, slot', slot);
      InOrderAppend(recvs, sends);
    }
  }

  lemma RecoveryOrdered(g: Group, r: nat)
    requires ValidGroup(g) && r < g.n
    ensures InOrder(Files(g, r) + Copies(g, r))
  {
    hide Files, Copies, InOrder;
    FilesOrdered(g, r);
    CopiesOrdered(g, r);
    RoundsApart(Files(g, r), Copies(g, r), 1);
    InOrderAppend(Files(g, r), Copies(g, r));
  }

  // ------------------------------------------------------------------ both ends

  /** A block that `p` sends for file `f` from slot to slot, and that `q` receives as file `g`. */
  lemma SendMatched(sys: System, p: nat, q: nat, f: FileId, h: FileId, size: nat, bs: nat, round: nat, slot: nat,
                    op: Op)
    requires 0 < bs && p < |sys.progs| == |sys.want| && q < |sys.progs| && p != q
    requires op in SendOps(q, f, size, bs, round, slot)
    requires forall b :: b in RecvOps(p, h, size, bs, round, slot) ==> b in sys.progs[q]
    requires f in sys.want[p] && h in sys.want[q] && sys.want[p][f] == sys.want[q][h]
    ensures Matched(sys, p, op)
  {
    hide SendFrom, RecvFrom;
    BlocksMatch(p, q, f, h, size, bs, round, slot, 0);
    var sends, recvs := SendFrom(q, f, size, bs, round, slot, 0), RecvFrom(p, h, size, bs, round, slot, 0);
    var m :| 0 <= m < |sends| && sends[m] == op;
    SendShape(q, f, size, bs, round, slot, 0, m);
    RecvShape(p, h, size, bs, round, slot, 0, m);
    assert recvs[m] in RecvOps(p, h, size, bs, round, slot);
    assert recvs[m] in sys.progs[q] && Partners(p, op, recvs[m]);
  }

  lemma RecvMatched(sys: System, p: nat, q: nat, f: FileId, h: FileId, size: nat, bs: nat, round: nat, slot: nat,
                    op: Op)
    requires 0 < bs && p < |sys.progs| == |sys.want| && q < |sys.progs| && p != q
    requires op in RecvOps(p, h, size, bs, round, slot)
    requires forall a :: a in SendOps(q, f, size, bs, round, slot) ==> a in sys.progs[p]
    requires f in sys.want[p] && h in sys.want[q] && sys.want[p][f] == sys.want[q][h]
    ensures Matched(sys, q, op)
  {
    hide SendFrom, RecvFrom;
    if !op.Create? {
      BlocksMatch(p, q, f, h, size, bs, round, slot, 0);
      var sends, recvs := SendFrom(q, f, size, bs, round, slot, 0), RecvFrom(p, h, size, bs, round, slot, 0);
      assert op in recvs;
      var m :| 0 <= m < |recvs| && recvs[m] == op;
      SendShape(q, f, size, bs, round, slot, 0, m);
      RecvShape(p, h, size, bs, round, slot, 0, m);
      assert sends[m] in SendOps(q, f, size, bs, round, slot);
      assert sends[m] in sys.progs[p] && Partners(q, op, sends[m]);
    }
  }

  /** The program of a rank consists of its four parts. */
  lemma FourParts(g: Group, r: nat)
    requires ValidGroup(g) && r < g.n
    ensures var ops := RecoverySystem(g).progs[r];
            forall op :: op in ops <==>
              op in ReturnCopy(g, r) || op in FetchFile(g, r) || op in SendFileAgain(g, r) || op in FetchCopy(g, r)
  {
    hide ReturnCopy, FetchFile, SendFileAgain, FetchCopy;
  }

  lemma Meanings(g: Group, r: nat)
    requires ValidGroup(g) && r < g.n
    ensures var left := Left(r, g.n);
            && left < g.n && Right(left, g.n) == r && left != r
            && Own(0) in Meant(g, left) && Copy(0) in Meant(g, r) && Meant(g, left)[Own(0)] == Meant(g, r)[Copy(0)]
  {
  }

  lemma RecoveryMatched(g: Group, r: nat, op: Op)
    requires ValidGroup(g) && r < g.n && op in Files(g, r) + Copies(g, r)
    ensures Matched(RecoverySystem(g), r, op)
  {
    hide SendOps, RecvOps, Matched, BackSlot, Slot, Files, Copies, Meant;
    var sys, left, right := RecoverySystem(g), Left(r, g.n), Right(r, g.n);
    RingNeighbours(r, g.n);
    FourParts(g, r);
    FourParts(g, left);
    FourParts(g, right);
    Meanings(g, r);
    Meanings(g, right);
    if op in ReturnCopy(g, r) {
      SendMatched(sys, r, left, Copy(0), Own(0), |g.files[left]|, g.bs, 0, BackSlot(r), op);
    } else if op in FetchFile(g, r) {
      RecvMatched(sys, right, r, Copy(0), Own(0), |g.files[r]|, g.bs, 0, BackSlot(right), op);
    } else if op in SendFileAgain(g, r) {
      SendMatched(sys, r, right, Own(0), Copy(0), |g.files[r]|, g.bs, 1, Slot(r, g.n), op);
    } else {
      RecvMatched(sys, left, r, Own(0), Copy(0), |g.files[left]|, g.bs, 1, Slot(left, g.n), op);
    }
  }

  lemma RecoveryWellTimed(g: Group, start: seq<Disk>)
    requires ValidGroup(g) && Recoverable(g) && RestIntact(g, start)
    ensures WellTimed(RecoverySystem(g), start)
  {
    hide Files, Copies, InOrder, Local, Matched, Sound, CompleteAfter, Complete, Recoverable;
    var sys := RecoverySystem(g);
    forall r | 0 <= r < g.n
      ensures ProcessOk(sys, start, r)
    {
      RecoveryOrdered(g, r);
      RecoverySound(g, r);
      SoundIsLocal(sys.progs[r], Remaining(g, r), start[r], sys.want[r]);
      forall i | 0 <= i < |sys.progs[r]|
        ensures Matched(sys, r, sys.progs[r][i])
      {
        RecoveryMatched(g, r, sys.progs[r][i]);
      }
    }
  }

  ghost predicate Repaired(g: Group, s: Net)
    requires ValidGroup(g)
  {
    |s.disks| == g.n && forall r :: 0 <= r < g.n ==> RankRepaired(g, s, r)
  }

  ghost predicate RankRepaired(g: Group, s: Net, r: nat)
    requires ValidGroup(g) && |s.disks| == g.n && r < g.n
  {
    && Own(0) in s.disks[r] && s.disks[r][Own(0)] == g.files[r]
    && Copy(0) in s.disks[r] && s.disks[r][Copy(0)] == g.files[Left(r, g.n)]
  }

  /**
   * Level 2 recovery.  If no file is gone together with its copy, then for any ring size from two on and any other
   * losses no run gets stuck or goes on forever, and when it is over every checkpoint file and every copy is back.
   */
  lemma RecoveryExact(g: Group, start: seq<Disk>, run: seq<Net>)
    requires ValidGroup(g) && Recoverable(g) && RestIntact(g, start) && Execution(RecoverySystem(g), start, run)
    ensures |run| <= Work(RecoverySystem(g)) + 1
    ensures var s := run[|run| - 1];
            CanStep(RecoverySystem(g), s) || (Finished(RecoverySystem(g), s) && Repaired(g, s))
  {
    hide WellTimed, Good, CanStep, Step, Work, Files, Copies, CompleteAfter, Sound, Complete, Recoverable;
    var sys, s := RecoverySystem(g), run[|run| - 1];
    RecoveryWellTimed(g, start);
    EveryRunDelivers(sys, start, run);
    if Finished(sys, s) {
      GoodFits(sys, start, s);
      forall r | 0 <= r < g.n
        ensures RankRepaired(g, s, r)
      {
        RecoverySound(g, r);
        CompleteWhenFinished(sys, start, s, r, Own(0), Remaining(g, r));
        CompleteWhenFinished(sys, start, s, r, Copy(0), Remaining(g, r));
      }
    }
  }
}
