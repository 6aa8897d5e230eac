/** Programs that send or receive whole files block by block, and how such programs are put together. */
module BlockTransfers {
  import opened Rendezvous

  // ------------------------------------------------------------------ one file

  /** The size of the block at `offset`: the block size, except for a short last block. */
  function BlockAt(size: nat, bs: nat, offset: nat): nat
    requires offset <= size
  {
    if size - offset > bs then bs else size - offset
  }

  /** Sends the rest of a file from `offset` on. */
  function SendFrom(peer: nat, file: FileId, size: nat, bs: nat, round: nat, slot: nat, offset: nat): seq<Op>
    requires 0 < bs && offset <= size
    decreases size - offset
  {
    if offset == size then []
    else
      [Send(peer, file, offset, BlockAt(size, bs, offset), Time(round, slot, offset + 1))]
      + SendFrom(peer, file, size, bs, round, slot, offset + BlockAt(size, bs, offset))
  }

  function RecvFrom(peer: nat, file: FileId, size: nat, bs: nat, round: nat, slot: nat, offset: nat): seq<Op>
    requires 0 < bs && offset <= size
    decreases size - offset
  {
    if offset == size then []
    else
      [Recv(peer, file, offset, BlockAt(size, bs, offset), Time(round, slot, offset + 1))]
      + RecvFrom(peer, file, size, bs, round, slot, offset + BlockAt(size, bs, offset))
  }

  function SendOps(peer: nat, file: FileId, size: nat, bs: nat, round: nat, slot: nat): seq<Op>
    requires 0 < bs
  {
    SendFrom(peer, file, size, bs, round, slot, 0)
  }

  /** The receiver opens the file first, so that an empty file is created too. */
  function RecvOps(peer: nat, file: FileId, size: nat, bs: nat, round: nat, slot: nat): seq<Op>
    requires 0 < bs
  {
    [Create(file, Time(round, slot, 0))] + RecvFrom(peer, file, size, bs, round, slot, 0)
  }

  /** The send loop: as long as something is left, one more block. */
  method SendFile(peer: nat, file: FileId, fs: nat, bs: nat, round: nat, slot: nat) returns (ops: seq<Op>)
    requires 0 < bs
    ensures ops == SendOps(peer, file, fs, bs, round, slot)
  {
    ops := [];
    var toSend := fs;
    while toSend > 0
      invariant 0 <= toSend <= fs
      invariant SendOps(peer, file, fs, bs, round, slot) == ops + SendFrom(peer, file, fs, bs, round, slot, fs - toSend)
    {
      var sendSize := if toSend > bs then bs else toSend;
      var op := Send(peer, file, fs - toSend, sendSize, Time(round, slot, fs - toSend + 1));
      assert ops + ([op] + SendFrom(peer, file, fs, bs, round, slot, fs - toSend + sendSize)) ==
             ops + [op] + SendFrom(peer, file, fs, bs, round, slot, fs - toSend + sendSize);
      ops := ops + [op];
      toSend := toSend - sendSize;
    }
  }

  method RecvFile(peer: nat, file: FileId, pfs: nat, bs: nat, round: nat, slot: nat) returns (ops: seq<Op>)
    requires 0 < bs
    ensures ops == RecvOps(peer, file, pfs, bs, round, slot)
  {
    ops := [Create(file, Time(round, slot, 0))];
    var toRecv := pfs;
    while toRecv > 0
      invariant 0 <= toRecv <= pfs
      invariant RecvOps(peer, file, pfs, bs, round, slot) ==
                ops + RecvFrom(peer, file, pfs, bs, round, slot, pfs - toRecv)
    {
      var recvSize := if toRecv > bs then bs else toRecv;
      var op := Recv(peer, file, pfs - toRecv, recvSize, Time(round, slot, pfs - toRecv + 1));
      assert ops + ([op] + RecvFrom(peer, file, pfs, bs, round, slot, pfs - toRecv + recvSize)) ==
             ops + [op] + RecvFrom(peer, file, pfs, bs, round, slot, pfs - toRecv + recvSize);
      ops := ops + [op];
      toRecv := toRecv - recvSize;
    }
  }

  // ------------------------------------------------------------------ order

  /** All operations belong to one slot of one round, none before `from`. */
  ghost predicate InSlot(ops: seq<Op>, round: nat, slot: nat, from: nat) {
    forall i :: 0 <= i < |ops| ==> ops[i].time.round == round && ops[i].time.slot == slot && from <= ops[i].time.block
  }

  lemma {:induction false} SendInSlot(peer: nat, file: FileId, size: nat, bs: nat, round: nat, slot: nat, offset: nat)
    requires 0 < bs && offset <= size
    ensures var ops := SendFrom(peer, file, size, bs, round, slot, offset);
            InSlot(ops, round, slot, offset + 1) && InOrder(ops)
    decreases size - offset
  {
    if offset < size {
      SendInSlot(peer, file, size, bs, round, slot, offset + BlockAt(size, bs, offset));
    }
  }

  lemma {:induction false} RecvInSlot(peer: nat, file: FileId, size: nat, bs: nat, round: nat, slot: nat, offset: nat)
    requires 0 < bs && offset <= size
    ensures var ops := RecvFrom(peer, file, size, bs, round, slot, offset);
            InSlot(ops, round, slot, offset + 1) && InOrder(ops)
    decreases size - offset
  {
    if offset < size {
      RecvInSlot(peer, file, size, bs, round, slot, offset + BlockAt(size, bs, offset));
    }
  }

  lemma SendOpsOrdered(peer: nat, file: FileId, size: nat, bs: nat, round: nat, slot: nat)
    requires 0 < bs
    ensures InSlot(SendOps(peer, file, size, bs, round, slot), round, slot, 0)
            && InOrder(SendOps(peer, file, size, bs, round, slot))
  {
    SendInSlot(peer, file, size, bs, round, slot, 0);
  }

  lemma RecvOpsOrdered(peer: nat, file: FileId, size: nat, bs: nat, round: nat, slot: nat)
    requires 0 < bs
    ensures InSlot(RecvOps(peer, file, size, bs, round, slot), round, slot, 0)
            && InOrder(RecvOps(peer, file, size, bs, round, slot))
  {
    RecvInSlot(peer, file, size, bs, round, slot, 0);
  }

  ghost predicate AllEarlier(a: seq<Op>, b: seq<Op>) {
    forall i, j :: 0 <= i < |a| && 0 <= j < |b| ==> Earlier(a[i].time, b[j].time)
  }

  lemma InOrderAppend(a: seq<Op>, b: seq<Op>)
    requires InOrder(a) && InOrder(b) && AllEarlier(a, b)
    ensures InOrder(a + b)
  {
    hide Earlier;
    var ops := a + b;
    forall i, j | 0 <= i < j < |ops|
      ensures Earlier(ops[i].time, ops[j].time)
    {
      if j < |a| {
      } else if i < |a| {
        assert Earlier(a[i].time, b[j - |a|].time);
      } else {
        assert Earlier(b[i - |a|].time, b[j - |a|].time);
      }
    }
  }

  // ------------------------------------------------------------------ what is there to send

  /** As `Rendezvous.Local`, with the files that are complete at the start. */
  ghost predicate LocalWith(ops: seq<Op>, i: nat, have: set<FileId>, want: Disk)
    requires i < |ops|
  {
    var op := ops[i];
    op.file in want &&
    (op.Recv? ==> op.offset == Received(ops, i, op.file) && op.offset + op.size <= |want[op.file]|) &&
    (op.Send? ==>
      && op.offset + op.size <= |want[op.file]|
      && (Received(ops, i, op.file) < 0 ==> op.file in have)
      && (0 <= Received(ops, i, op.file) ==> op.offset + op.size <= Received(ops, i, op.file)))
  }

  ghost predicate Sound(ops: seq<Op>, have: set<FileId>, want: Disk) {
    forall i :: 0 <= i < |ops| ==> LocalWith(ops, i, have, want)
  }

  /** A file is complete after the operations. */
  ghost predicate CompleteAfter(ops: seq<Op>, f: FileId, have: set<FileId>, want: Disk) {
    && f in want
    && (Received(ops, |ops|, f) < 0 ==> f in have)
    && (0 <= Received(ops, |ops|, f) ==> |want[f]| <= Received(ops, |ops|, f))
  }

  lemma {:induction false} ReceivedAppend(a: seq<Op>, b: seq<Op>, i: nat, f: FileId)
    requires i <= |b|
    ensures Received(a + b, |a| + i, f) == if 0 <= Received(b, i, f) then Received(b, i, f) else Received(a, |a|, f)
    decreases i
  {
    if i == 0 {
      ReceivedPrefix(a, b, |a|, f);
    } else {
      ReceivedAppend(a, b, i - 1, f);
      assert (a + b)[|a| + i - 1] == b[i - 1];
    }
  }

  lemma {:induction false} ReceivedPrefix(a: seq<Op>, b: seq<Op>, i: nat, f: FileId)
    requires i <= |a|
    ensures Received(a + b, i, f) == Received(a, i, f)
    decreases i
  {
    if i != 0 {
      ReceivedPrefix(a, b, i - 1, f);
      assert (a + b)[i - 1] == a[i - 1];
    }
  }

  /** Two programs one after the other, when the second needs only files that the first leaves complete. */
  lemma SoundAppend(a: seq<Op>, b: seq<Op>, have: set<FileId>, have': set<FileId>, want: Disk)
    requires Sound(a, have, want) && Sound(b, have', want)
    requires forall f :: f in have' ==> CompleteAfter(a, f, have, want)
    ensures Sound(a + b, have, want)
  {
    hide Received;
    var ops := a + b;
    forall i | 0 <= i < |ops|
      ensures LocalWith(ops, i, have, want)
    {
      if i < |a| {
        assert LocalWith(a, i, have, want);
        ReceivedPrefix(a, b, i, a[i].file);
      } else {
        var j := i - |a|;
        assert LocalWith(b, j, have', want);
        ReceivedAppend(a, b, j, b[j].file);
      }
    }
  }

  lemma CompleteAppend(a: seq<Op>, b: seq<Op>, f: FileId, have: set<FileId>, have': set<FileId>, want: Disk)
    requires CompleteAfter(b, f, have', want) && (f in have' ==> CompleteAfter(a, f, have, want))
    ensures CompleteAfter(a + b, f, have, want)
  {
    hide Received;
    ReceivedAppend(a, b, |b|, f);
  }

  lemma NothingDone(f: FileId, have: set<FileId>, want: Disk)
    requires f in have && f in want
    ensures CompleteAfter([], f, have, want) && Sound([], have, want)
  {
  }

  lemma {:induction false} SendReceivesNothing(peer: nat, file: FileId, size: nat, bs: nat, round: nat, slot: nat,
                                               offset: nat, i: nat, f: FileId)
    requires 0 < bs && offset <= size && i <= |SendFrom(peer, file, size, bs, round, slot, offset)|
    ensures Received(SendFrom(peer, file, size, bs, round, slot, offset), i, f) == -1
    decreases i
  {
    if i != 0 {
      SendReceivesNothing(peer, file, size, bs, round, slot, offset, i - 1, f);
      SendShape(peer, file, size, bs, round, slot, offset, i - 1);
    }
  }

  lemma {:induction false} SendShape(peer: nat, file: FileId, size: nat, bs: nat, round: nat, slot: nat, offset: nat,
                                     i: nat)
    requires 0 < bs && offset <= size && i < |SendFrom(peer, file, size, bs, round, slot, offset)|
    ensures var op := SendFrom(peer, file, size, bs, round, slot, offset)[i];
            op.Send? && op.peer == peer && op.file == file && op.offset + op.size <= size
    decreases size - offset
  {
    if i != 0 {
      SendShape(peer, file, size, bs, round, slot, offset + BlockAt(size, bs, offset), i - 1);
    }
  }

  lemma SendSound(peer: nat, file: FileId, size: nat, bs: nat, round: nat, slot: nat, have: set<FileId>, want: Disk)
    requires 0 < bs && file in have && file in want && |want[file]| == size
    ensures Sound(SendOps(peer, file, size, bs, round, slot), have, want)
    ensures forall f :: f in have && f in want ==>
            CompleteAfter(SendOps(peer, file, size, bs, round, slot), f, have, want)
  {
    hide Received, SendFrom;
    var ops := SendOps(peer, file, size, bs, round, slot);
    forall i | 0 <= i < |ops|
      ensures LocalWith(ops, i, have, want)
    {
      SendShape(peer, file, size, bs, round, slot, 0, i);
      SendReceivesNothing(peer, file, size, bs, round, slot, 0, i, file);
    }
    forall f | f in have && f in want
      ensures CompleteAfter(ops, f, have, want)
    {
      SendReceivesNothing(peer, file, size, bs, round, slot, 0, |ops|, f);
    }
  }

  lemma {:induction false} RecvShape(peer: nat, file: FileId, size: nat, bs: nat, round: nat, slot: nat, offset: nat,
                                     i: nat)
    requires 0 < bs && offset <= size && i < |RecvFrom(peer, file, size, bs, round, slot, offset)|
    ensures var ops := RecvFrom(peer, file, size, bs, round, slot, offset);
            && ops[i].Recv? && ops[i].peer == peer && ops[i].file == file && ops[i].offset + ops[i].size <= size
            && (i == 0 ==> ops[i].offset == offset)
            && (0 < i ==> ops[i - 1].Recv? && ops[i - 1].offset + ops[i - 1].size == ops[i].offset)
            && (i == |ops| - 1 ==> ops[i].offset + ops[i].size == size)
    decreases size - offset
  {
    var next := offset + BlockAt(size, bs, offset);
    if i != 0 {
      RecvShape(peer, file, size, bs, round, slot, next, i - 1);
    }
  }

  /** What the receiver has after each block. */
  lemma {:induction false} RecvReceives(peer: nat, file: FileId, size: nat, bs: nat, round: nat, slot: nat, i: nat,
                                        f: FileId)
    requires 0 < bs && i < |RecvOps(peer, file, size, bs, round, slot)|
    ensures var ops := RecvOps(peer, file, size, bs, round, slot);
            && (f != file ==> Received(ops, i + 1, f) == -1)
            && (0 < i ==> ops[i].Recv? && Received(ops, i + 1, file) == ops[i].offset + ops[i].size)
            && (i == 0 ==> Received(ops, i + 1, file) == 0)
    decreases i
  {
    hide RecvFrom;
    var ops := RecvOps(peer, file, size, bs, round, slot);
    if i != 0 {
      RecvReceives(peer, file, size, bs, round, slot, i - 1, f);
      RecvShape(peer, file, size, bs, round, slot, 0, i - 1);
    } else {
      assert Received(ops, 0, f) == -1;
    }
  }

  lemma RecvSound(peer: nat, file: FileId, size: nat, bs: nat, round: nat, slot: nat, have: set<FileId>, want: Disk)
    requires 0 < bs && file in want && |want[file]| == size
    ensures Sound(RecvOps(peer, file, size, bs, round, slot), have, want)
    ensures forall f :: f in have + {file} && f in want ==>
            CompleteAfter(RecvOps(peer, file, size, bs, round, slot), f, have, want)
  {
    hide Received, RecvFrom;
    var ops := RecvOps(peer, file, size, bs, round, slot);
    forall i | 0 <= i < |ops|
      ensures LocalWith(ops, i, have, want)
    {
      if 0 < i {
        RecvShape(peer, file, size, bs, round, slot, 0, i - 1);
        RecvReceives(peer, file, size, bs, round, slot, i - 1, file);
        if 1 < i {
          RecvShape(peer, file, size, bs, round, slot, 0, i - 2);
        }
      }
    }
    forall f | f in have + {file} && f in want
      ensures CompleteAfter(ops, f, have, want)
    {
      RecvReceives(peer, file, size, bs, round, slot, |ops| - 1, f);
      RecvReceives(peer, file, size, bs, round, slot, |ops| - 1, file);
      if 1 < |ops| {
        RecvShape(peer, file, size, bs, round, slot, 0, |ops| - 2);
      } else {
        NoBlocks(peer, file, size, bs, round, slot);
      }
    }
  }

  lemma NoBlocks(peer: nat, file: FileId, size: nat, bs: nat, round: nat, slot: nat)
    requires 0 < bs && |RecvOps(peer, file, size, bs, round, slot)| == 1
    ensures size == 0
  {
  }

  // ------------------------------------------------------------------ both ends

  /** Every block that is sent is received at the same time, and the other way round. */
  lemma {:induction false} BlocksMatch(p: nat, q: nat, f: FileId, g: FileId, size: nat, bs: nat, round: nat, slot: nat,
                                       offset: nat)
    requires 0 < bs && offset <= size
    ensures var sends, recvs :=
            SendFrom(q, f, size, bs, round, slot, offset), RecvFrom(p, g, size, bs, round, slot, offset);
            && |sends| == |recvs| && forall i :: 0 <= i < |sends| ==>
                 Partners(p, sends[i], recvs[i]) && Partners(q, recvs[i], sends[i])
    decreases size - offset
  {
    if offset < size {
      BlocksMatch(p, q, f, g, size, bs, round, slot, offset + BlockAt(size, bs, offset));
    }
  }

  // ------------------------------------------------------------------ whole systems

  /** The files that are complete at the start. */
  ghost predicate Complete(have: set<FileId>, start: Disk, want: Disk) {
    forall f :: f in have && f in want ==> f in start && start[f] == want[f]
  }

  lemma SoundIsLocal(ops: seq<Op>, have: set<FileId>, start: Disk, want: Disk)
    requires Sound(ops, have, want) && Complete(have, start, want)
    ensures forall i :: 0 <= i < |ops| ==> Local(ops, i, start, want)
  {
    hide Received;
    forall i | 0 <= i < |ops|
      ensures Local(ops, i, start, want)
    {
      assert LocalWith(ops, i, have, want);
    }
  }

  /** A file that the program of a process leaves complete is complete when all are done. */
  lemma CompleteWhenFinished(sys: System, start: seq<Disk>, s: Net, p: nat, f: FileId, have: set<FileId>)
    requires WellTimed(sys, start) && Good(sys, start, s) && Finished(sys, s) && p < |sys.progs|
    requires CompleteAfter(sys.progs[p], f, have, sys.want[p]) && Complete(have, start[p], sys.want[p])
    ensures f in s.disks[p] && s.disks[p][f] == sys.want[p][f]
  {
    hide Received, WellTimed, Good, Finished;
    GoodFits(sys, start, s);
    FinishedFile(sys, start, s, p, f);
    ReceivedFits(sys, start, p, |sys.progs[p]|, f);
  }

  lemma GoodFits(sys: System, start: seq<Disk>, s: Net)
    requires Good(sys, start, s)
    ensures Fits(sys, s) && |start| == |s.pc|
  {
  }
}
