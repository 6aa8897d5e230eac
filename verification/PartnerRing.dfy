/**
 * Level 2: every process of a ring sends its checkpoint files to its right neighbour and keeps copies of those of its
 * left neighbour.  Odd ranks send first, even ranks receive first.
 */
module PartnerRing {
  import opened BlockTransfers
  import opened FileBytes
  import opened Rendezvous

  function Right(r: nat, n: nat): nat
    requires r < n
  {
    if r == n - 1 then 0 else r + 1
  }

  function Left(r: nat, n: nat): nat
    requires r < n
  {
    if r == 0 then n - 1 else r - 1
  }

  lemma RingNeighbours(r: nat, n: nat)
    requires 2 <= n && r < n
    ensures Left(r, n) < n && Right(r, n) < n && Left(r, n) != r && Right(r, n) != r
    ensures Right(Left(r, n), n) == r && Left(Right(r, n), n) == r
    ensures Left(r, n) == (r + n - 1) % n && Right(r, n) == (r + 1) % n
  {
  }

  /**
   * Block size, the processes of a node that take part, and `files[r][i]`, the file of process `i` on the node of
   * rank `r`.
   */
  datatype Ring = Ring(n: nat, bs: nat, first: nat, last: nat, files: seq<seq<File>>)

  ghost predicate ValidRing(g: Ring) {
    && 2 <= g.n && 0 < g.bs && g.first <= g.last
    && |g.files| == g.n && forall r :: 0 <= r < g.n ==> g.last <= |g.files[r]|
  }

  /** When in a round the message of sender `s` is on its way. */
  function Slot(s: nat, n: nat): nat {
    if s % 2 == 1 then 0 else if s == n - 1 then 1 else 2
  }

  /** Sending and receiving in one round never meet the wrong way round. */
  lemma SlotsFollowRank(r: nat, n: nat)
    requires 2 <= n && r < n
    ensures r % 2 == 1 ==> Slot(r, n) < Slot(Left(r, n), n)
    ensures r % 2 == 0 ==> Slot(Left(r, n), n) < Slot(r, n)
  {
  }

  function Sends(g: Ring, r: nat, i: nat): seq<Op>
    requires ValidRing(g) && r < g.n && i < g.last
  {
    SendOps(Right(r, g.n), Own(i), |g.files[r][i]|, g.bs, i, Slot(r, g.n))
  }

  function Receives(g: Ring, r: nat, i: nat): seq<Op>
    requires ValidRing(g) && r < g.n && i < g.last
  {
    var left := Left(r, g.n);
    RecvOps(left, Copy(i), |g.files[left][i]|, g.bs, i, Slot(left, g.n))
  }

  /** What rank `r` does for process `i` of its node. */
  function Round(g: Ring, r: nat, i: nat): seq<Op>
    requires ValidRing(g) && r < g.n && i < g.last
  {
    if r % 2 == 1 then Sends(g, r, i) + Receives(g, r, i) else Receives(g, r, i) + Sends(g, r, i)
  }

  function Program(g: Ring, r: nat, k: nat): seq<Op>
    requires ValidRing(g) && r < g.n && g.first <= k <= g.last
    decreases k
  {
    if k == g.first then [] else Program(g, r, k - 1) + Round(g, r, k - 1)
  }

  /** The loop over the processes of the node. */
  method Ptner(g: Ring, r: nat) returns (ops: seq<Op>)
    requires ValidRing(g) && r < g.n
    ensures ops == Program(g, r, g.last)
  {
    hide SendOps, RecvOps, Slot;
    var source, destination := Left(r, g.n), Right(r, g.n);
    ops := [];
    for i := g.first to g.last
      invariant ops == Program(g, r, i)
    {
      if r % 2 == 1 {
        var sends := SendFile(destination, Own(i), |g.files[r][i]|, g.bs, i, Slot(r, g.n));
        var recvs := RecvFile(source, Copy(i), |g.files[source][i]|, g.bs, i, Slot(source, g.n));
        ops := ops + (sends + recvs);
      } else {
        var recvs := RecvFile(source, Copy(i), |g.files[source][i]|, g.bs, i, Slot(source, g.n));
        var sends := SendFile(destination, Own(i), |g.files[r][i]|, g.bs, i, Slot(r, g.n));
        ops := ops + (recvs + sends);
      }
    }
  }

  // ------------------------------------------------------------------ the system

  function OwnFiles(g: Ring): (r: set<FileId>)
    ensures forall f :: f in r <==> f.Own? && g.first <= f.index < g.last
  {
    set i: nat | g.first <= i < g.last :: Own(i)
  }

  function CopyFiles(g: Ring): (r: set<FileId>)
    ensures forall f :: f in r <==> f.Copy? && g.first <= f.index < g.last
  {
    set i: nat | g.first <= i < g.last :: Copy(i)
  }

  /** A rank is to hold its own files and copies of those of its left neighbour. */
  function Wanted(g: Ring, r: nat): (want: Disk)
    requires ValidRing(g) && r < g.n
    ensures want.Keys == OwnFiles(g) + CopyFiles(g)
    ensures forall i :: g.first <= i < g.last ==>
            want[Own(i)] == g.files[r][i] && want[Copy(i)] == g.files[Left(r, g.n)][i]
  {
    map f | f in OwnFiles(g) + CopyFiles(g) :: if f.Own? then g.files[r][f.index] else g.files[Left(r, g.n)][f.index]
  }

  function RingSystem(g: Ring): (sys: System)
    requires ValidRing(g)
    ensures |sys.progs| == |sys.want| == g.n
    ensures forall r :: 0 <= r < g.n ==> sys.progs[r] == Program(g, r, g.last) && sys.want[r] == Wanted(g, r)
  {
    System(seq(g.n, r requires 0 <= r < g.n => Program(g, r, g.last)),
           seq(g.n, r requires 0 <= r < g.n => Wanted(g, r)))
  }

  /** Every rank has its own files. */
  ghost predicate HasOwnFiles(g: Ring, start: seq<Disk>)
    requires ValidRing(g)
  {
    |start| == g.n && forall r :: 0 <= r < g.n ==> Complete(OwnFiles(g), start[r], Wanted(g, r))
  }

  // ------------------------------------------------------------------ one round

  lemma RoundOrdered(g: Ring, r: nat, i: nat)
    requires ValidRing(g) && r < g.n && i < g.last
    ensures InOrder(Round(g, r, i)) && forall m :: 0 <= m < |Round(g, r, i)| ==> Round(g, r, i)[m].time.round == i
  {
    hide SendOps, RecvOps, InOrder, Earlier;
    var left := Left(r, g.n);
    SendOpsOrdered(Right(r, g.n), Own(i), |g.files[r][i]|, g.bs, i, Slot(r, g.n));
    RecvOpsOrdered(left, Copy(i), |g.files[left][i]|, g.bs, i, Slot(left, g.n));
    SlotsFollowRank(r, g.n);
    if r % 2 == 1 {
      SlotsApart(Sends(g, r, i), Receives(g, r, i), i, Slot(r, g.n), Slot(left, g.n));
      InOrderAppend(Sends(g, r, i), Receives(g, r, i));
    } else {
      SlotsApart(Receives(g, r, i), Sends(g, r, i), i, Slot(left, g.n), Slot(r, g.n));
      InOrderAppend(Receives(g, r, i), Sends(g, r, i));
    }
  }

  lemma SlotsApart(a: seq<Op>, b: seq<Op>, round: nat, slot: nat, slot': nat)
    requires InSlot(a, round, slot, 0) && InSlot(b, round, slot', 0) && slot < slot'
    ensures AllEarlier(a, b)
  {
  }

  lemma RoundSound(g: Ring, r: nat, i: nat)
    requires ValidRing(g) && r < g.n && g.first <= i < g.last
    ensures Sound(Round(g, r, i), OwnFiles(g), Wanted(g, r))
    ensures forall f :: f in OwnFiles(g) + {Copy(i)} ==> CompleteAfter(Round(g, r, i), f, OwnFiles(g), Wanted(g, r))
  {
    hide SendOps, RecvOps, Sound, CompleteAfter;
    var left, have, want := Left(r, g.n), OwnFiles(g), Wanted(g, r);
    SendSound(Right(r, g.n), Own(i), |g.files[r][i]|, g.bs, i, Slot(r, g.n), have, want);
    RecvSound(left, Copy(i), |g.files[left][i]|, g.bs, i, Slot(left, g.n), have, want);
    SendSound(Right(r, g.n), Own(i), |g.files[r][i]|, g.bs, i, Slot(r, g.n), have + {Copy(i)}, want);
    var a, b := Sends(g, r, i), Receives(g, r, i);
    if r % 2 == 1 {
      SoundAppend(a, b, have, have, want);
      forall f | f in have + {Copy(i)}
        ensures CompleteAfter(a + b, f, have, want)
      {
        CompleteAppend(a, b, f, have, have, want);
      }
    } else {
      SoundAppend(b, a, have, have + {Copy(i)}, want);
      forall f | f in have + {Copy(i)}
        ensures CompleteAfter(b + a, f, have, want)
      {
        CompleteAppend(b, a, f, have, have + {Copy(i)}, want);
      }
    }
  }

  // ------------------------------------------------------------------ the whole program

  lemma {:induction false} ProgramOrdered(g: Ring, r: nat, k: nat)
    requires ValidRing(g) && r < g.n && g.first <= k <= g.last
    ensures InOrder(Program(g, r, k)) && forall m :: 0 <= m < |Program(g, r, k)| ==> Program(g, r, k)[m].time.round < k
    decreases k
  {
    hide Round, InOrder;
    if k == g.first {
      NothingOrdered();
    } else {
      ProgramOrdered(g, r, k - 1);
      RoundOrdered(g, r, k - 1);
      RoundsApart(Program(g, r, k - 1), Round(g, r, k - 1), k - 1);
      InOrderAppend(Program(g, r, k - 1), Round(g, r, k - 1));
    }
  }

  lemma NothingOrdered()
    ensures InOrder([])
  {
  }

  lemma RoundsApart(a: seq<Op>, b: seq<Op>, k: nat)
    requires forall m :: 0 <= m < |a| ==> a[m].time.round < k
    requires forall m :: 0 <= m < |b| ==> b[m].time.round == k
    ensures AllEarlier(a, b)
  {
  }

  lemma {:induction false} ProgramSound(g: Ring, r: nat, k: nat)
    requires ValidRing(g) && r < g.n && g.first <= k <= g.last
    ensures Sound(Program(g, r, k), OwnFiles(g), Wanted(g, r))
    ensures forall f :: f in OwnFiles(g) ==> CompleteAfter(Program(g, r, k), f, OwnFiles(g), Wanted(g, r))
    ensures forall i :: g.first <= i < k ==> CompleteAfter(Program(g, r, k), Copy(i), OwnFiles(g), Wanted(g, r))
    decreases k
  {
    hide Round, Sound, CompleteAfter;
    var have, want := OwnFiles(g), Wanted(g, r);
    if k == g.first {
      forall f | f in have
        ensures CompleteAfter([], f, have, want)
      {
        NothingDone(f, have, want);
      }
      NothingSound(have, want);
    } else {
      var a, b := Program(g, r, k - 1), Round(g, r, k - 1);
      ProgramSound(g, r, k - 1);
      RoundSound(g, r, k - 1);
      SoundAppend(a, b, have, have, want);
      forall f | f in have
        ensures CompleteAfter(a + b, f, have, want)
      {
        CompleteAppend(a, b, f, have, have, want);
      }
      forall i | g.first <= i < k
        ensures CompleteAfter(a + b, Copy(i), have, want)
      {
        if i == k - 1 {
          CompleteAppend(a, b, Copy(i), have, have, want);
        } else {
          OlderCopy(g, r, i, k - 1);
          CompleteAppend(a, b, Copy(i), have, have + {Copy(i)}, want);
        }
      }
    }
  }

  lemma NothingSound(have: set<FileId>, want: Disk)
    ensures Sound([], have, want)
  {
  }

  /** A later round does not touch a copy. */
  lemma OlderCopy(g: Ring, r: nat, i: nat, k: nat)
    requires ValidRing(g) && r < g.n && g.first <= i < k < g.last
    ensures CompleteAfter(Round(g, r, k), Copy(i), OwnFiles(g) + {Copy(i)}, Wanted(g, r))
  {
    hide SendOps, RecvOps, Sound, CompleteAfter;
    var left, have, want := Left(r, g.n), OwnFiles(g) + {Copy(i)}, Wanted(g, r);
    SendSound(Right(r, g.n), Own(k), |g.files[r][k]|, g.bs, k, Slot(r, g.n), have, want);
    RecvSound(left, Copy(k), |g.files[left][k]|, g.bs, k, Slot(left, g.n), have, want);
    var a, b := Sends(g, r, k), Receives(g, r, k);
    if r % 2 == 1 {
      CompleteAppend(a, b, Copy(i), have, have, want);
    } else {
      CompleteAppend(b, a, Copy(i), have, have, want);
    }
  }

  // ------------------------------------------------------------------ both ends

  lemma {:induction false} RoundInProgram(g: Ring, r: nat, i: nat, k: nat)
    requires ValidRing(g) && r < g.n && g.first <= i < k <= g.last
    ensures forall op :: op in Round(g, r, i) ==> op in Program(g, r, k)
    decreases k
  {
    hide Round;
    if i < k - 1 {
      RoundInProgram(g, r, i, k - 1);
    }
  }

  lemma {:induction false} ProgramInRounds(g: Ring, r: nat, k: nat, op: Op) returns (i: nat)
    requires ValidRing(g) && r < g.n && g.first <= k <= g.last && op in Program(g, r, k)
    ensures g.first <= i < k && op in Round(g, r, i)
    decreases k
  {
    hide Round;
    if op in Round(g, r, k - 1) {
      i := k - 1;
    } else {
      i := ProgramInRounds(g, r, k - 1, op);
    }
  }

  lemma {:induction false} OpMatched(g: Ring, r: nat, op: Op)
    requires ValidRing(g) && r < g.n && op in Program(g, r, g.last)
    ensures Matched(RingSystem(g), r, op)
  {
    hide Program, SendFrom, RecvFrom, Matched, RingSystem;
    var i := ProgramInRounds(g, r, g.last, op);
    if op in Sends(g, r, i) {
      SendMatched(g, r, op, i);
    } else if op.Create? {
      CreateMatched(g, r, op);
    } else {
      RecvMatched(g, r, op, i);
    }
  }

  lemma {:induction false} CreateMatched(g: Ring, r: nat, op: Op)
    requires ValidRing(g) && r < g.n && op.Create?
    ensures Matched(RingSystem(g), r, op)
  {
    hide RingSystem;
  }

  lemma {:induction false} SendMatched(g: Ring, r: nat, op: Op, i: nat)
    requires ValidRing(g) && r < g.n && g.first <= i < g.last && op in Sends(g, r, i)
    ensures Matched(RingSystem(g), r, op)
  {
    hide Program, SendFrom, RecvFrom;
    var q := Right(r, g.n);
    RingNeighbours(r, g.n);
    BlocksMatch(r, q, Own(i), Copy(i), |g.files[r][i]|, g.bs, i, Slot(r, g.n), 0);
    var m :| 0 <= m < |Sends(g, r, i)| && Sends(g, r, i)[m] == op;
    SendShape(q, Own(i), |g.files[r][i]|, g.bs, i, Slot(r, g.n), 0, m);
    RecvShape(r, Copy(i), |g.files[r][i]|, g.bs, i, Slot(r, g.n), 0, m);
    var b := RecvFrom(r, Copy(i), |g.files[r][i]|, g.bs, i, Slot(r, g.n), 0)[m];
    assert b in Receives(g, q, i);
    RoundInProgram(g, q, i, g.last);
    assert b in RingSystem(g).progs[q] && Partners(r, op, b);
  }

  lemma {:induction false} RecvMatched(g: Ring, r: nat, op: Op, i: nat)
    requires ValidRing(g) && r < g.n && g.first <= i < g.last && op in Receives(g, r, i) && !op.Create?
    ensures Matched(RingSystem(g), r, op)
  {
    hide Program, SendFrom, RecvFrom;
    var q := Left(r, g.n);
    RingNeighbours(r, g.n);
    BlocksMatch(q, r, Own(i), Copy(i), |g.files[q][i]|, g.bs, i, Slot(q, g.n), 0);
    var recvs := RecvFrom(q, Copy(i), |g.files[q][i]|, g.bs, i, Slot(q, g.n), 0);
    assert op in recvs;
    var m :| 0 <= m < |recvs| && recvs[m] == op;
    RecvShape(q, Copy(i), |g.files[q][i]|, g.bs, i, Slot(q, g.n), 0, m);
    SendShape(r, Own(i), |g.files[q][i]|, g.bs, i, Slot(q, g.n), 0, m);
    var a := SendFrom(r, Own(i), |g.files[q][i]|, g.bs, i, Slot(q, g.n), 0)[m];
    assert a in Sends(g, q, i);
    RoundInProgram(g, q, i, g.last);
    assert a in RingSystem(g).progs[q] && Partners(r, op, a);
  }

  /** The ring is well timed, for any number of ranks from two on, odd or even, and any file sizes. */
  lemma RingWellTimed(g: Ring, start: seq<Disk>)
    requires ValidRing(g) && HasOwnFiles(g, start)
    ensures WellTimed(RingSystem(g), start)
  {
    hide Program, InOrder, Local, Matched, Sound, CompleteAfter, Complete;
    var sys := RingSystem(g);
    forall r | 0 <= r < g.n
      ensures ProcessOk(sys, start, r)
    {
      ProgramOrdered(g, r, g.last);
      ProgramSound(g, r, g.last);
      SoundIsLocal(sys.progs[r], OwnFiles(g), start[r], sys.want[r]);
      forall i | 0 <= i < |sys.progs[r]|
        ensures Matched(sys, r, sys.progs[r][i])
      {
        OpMatched(g, r, sys.progs[r][i]);
      }
    }
  }

  /**
   * Level 2 post-processing.  With fully synchronous sends, for any ring size from two on, odd or even, any number of
   * processes a node, and any file sizes: no run gets stuck or goes on forever, and when it is over every rank holds
   * its own files unchanged and an exact copy of each file of its left neighbour.
   */
  lemma PartnerCopiesExact(g: Ring, start: seq<Disk>, run: seq<Net>)
    requires ValidRing(g) && HasOwnFiles(g, start) && Execution(RingSystem(g), start, run)
    ensures |run| <= Work(RingSystem(g)) + 1
    ensures var s := run[|run| - 1];
            CanStep(RingSystem(g), s) || (Finished(RingSystem(g), s) && HoldsCopies(g, s))
  {
    hide WellTimed, Good, CanStep, Step, Work, Program, CompleteAfter, Sound, Complete;
    var sys, s := RingSystem(g), run[|run| - 1];
    RingWellTimed(g, start);
    EveryRunDelivers(sys, start, run);
    if Finished(sys, s) {
      GoodFits(sys, start, s);
      forall r, i | 0 <= r < g.n && g.first <= i < g.last
        ensures HoldsCopy(g, s, r, i)
      {
        ProgramSound(g, r, g.last);
        CompleteWhenFinished(sys, start, s, r, Own(i), OwnFiles(g));
        CompleteWhenFinished(sys, start, s, r, Copy(i), OwnFiles(g));
      }
    }
  }

  ghost predicate HoldsCopy(g: Ring, s: Net, r: nat, i: nat)
    requires ValidRing(g) && |s.disks| == g.n && r < g.n && g.first <= i < g.last
  {
    && Own(i) in s.disks[r] && s.disks[r][Own(i)] == g.files[r][i]
    && Copy(i) in s.disks[r] && s.disks[r][Copy(i)] == g.files[Left(r, g.n)][i]
  }

  ghost predicate HoldsCopies(g: Ring, s: Net)
    requires ValidRing(g)
  {
    |s.disks| == g.n && forall r, i :: 0 <= r < g.n && g.first <= i < g.last ==> HoldsCopy(g, s, r, i)
  }

  /** A ring of one would wait for itself forever: a process cannot meet itself. */
  lemma RingOfOneStuck(data: File, bs: nat, start: seq<Disk>)
    requires 0 < bs && data != [] && |start| == 1
    ensures var sends := SendOps(0, Own(0), |data|, bs, 0, 2);
            var recvs := RecvOps(0, Copy(0), |data|, bs, 0, 2);
            var sys := System([recvs + sends], [map[Own(0) := data, Copy(0) := data]]);
            !CanStep(sys, Net([1], start)) && !Finished(sys, Net([1], start))
  {
    var sends := SendOps(0, Own(0), |data|, bs, 0, 2);
    var recvs := RecvOps(0, Copy(0), |data|, bs, 0, 2);
    var sys, s := System([recvs + sends], [map[Own(0) := data, Copy(0) := data]]), Net([1], start);
    assert Next(sys, s, 0).Recv?;
    forall p | CanCreate(sys, s, p)
      ensures false
    {
    }
    forall p, q | CanMeet(sys, s, p, q)
      ensures false
    {
    }
  }
}
