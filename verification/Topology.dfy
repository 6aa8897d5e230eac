/** Where a process stands: its node, its group and ring, its application rank, and its part of a shared file. */
module Topology {
  import opened FileBytes

  /** The size of a node and of a group, whether every node has a head, and the ranks by position. */
  datatype Layout = Layout(nodeSize: nat, groupSize: nat, nbHeads: nat, nodeList: seq<nat>)

  ghost predicate ValidLayout(t: Layout) {
    && 0 < t.nodeSize && 0 < t.groupSize && t.nbHeads <= 1 && (t.nbHeads == 1 ==> 1 < t.nodeSize)
    && |t.nodeList| % t.nodeSize == 0 && (|t.nodeList| / t.nodeSize) % t.groupSize == 0
    && forall i, j :: 0 <= i < j < |t.nodeList| ==> t.nodeList[i] != t.nodeList[j]
  }

  function NbNodes(t: Layout): nat
    requires 0 < t.nodeSize
  {
    |t.nodeList| / t.nodeSize
  }

  /** What `FTI_Topology` works out for the process at a position of the list. */
  datatype Place = Place(nodeID: nat, nodeRank: nat, sectorID: nat, groupRank: nat)

  function PlaceOf(t: Layout, pos: nat): Place
    requires 0 < t.nodeSize && 0 < t.groupSize
  {
    var node := pos / t.nodeSize;
    Place(node, pos % t.nodeSize, node / t.groupSize, node % t.groupSize)
  }

  /** The position of slot `q` of a node. */
  function Position(t: Layout, node: nat, q: nat): nat {
    node * t.nodeSize + q
  }

  lemma DivideUp(n: nat, q: nat, r: nat, size: nat)
    requires n == q * size + r && r < size
    ensures n / size == q && n % size == r
  {
    var q', r' := n / size, n % size;
    MultiplyUp(n, size);
    if q < q' {
      MultipleBelow(q, q', r, size);
    } else if q' < q {
      MultipleBelow(q', q, r', size);
    }
  }

  lemma Monotone(a: nat, b: nat, size: nat)
    requires a <= b
    ensures a * size <= b * size
  {
  }

  lemma MultiplyUp(n: nat, size: nat)
    requires 0 < size
    ensures n == n / size * size + n % size
  {
  }

  lemma MultipleBelow(i: nat, k: nat, r: nat, size: nat)
    requires i < k && r < size
    ensures i * size + r < k * size
  {
    assert (i + 1) * size <= k * size;
  }

  /** Sector, slot in the node, and rank in the group identify a process. */
  lemma PlaceIdentifies(t: Layout, p: nat, q: nat)
    requires ValidLayout(t)
    requires PlaceOf(t, p).sectorID == PlaceOf(t, q).sectorID && PlaceOf(t, p).nodeRank == PlaceOf(t, q).nodeRank
    requires PlaceOf(t, p).groupRank == PlaceOf(t, q).groupRank
    ensures p == q
  {
    MultiplyUp(p, t.nodeSize);
    MultiplyUp(q, t.nodeSize);
    MultiplyUp(p / t.nodeSize, t.groupSize);
    MultiplyUp(q / t.nodeSize, t.groupSize);
  }

  /** The node of member `i` of the group of a process. */
  function MemberNode(t: Layout, place: Place, i: nat): nat {
    place.sectorID * t.groupSize + i
  }

  /**
   * The group of a process, as the communicator lists it: one process a node, all on different nodes, in the same slot,
   * and the process itself at its group rank.
   */
  lemma GroupOnDistinctNodes(t: Layout, pos: nat, i: nat, k: nat)
    requires ValidLayout(t) && pos < |t.nodeList| && i < t.groupSize && k < t.groupSize
    ensures var place := PlaceOf(t, pos);
            && MemberNode(t, place, i) < NbNodes(t)
            && Position(t, MemberNode(t, place, i), place.nodeRank) < |t.nodeList|
            && (MemberNode(t, place, i) == MemberNode(t, place, k) ==> i == k)
            && MemberNode(t, place, place.groupRank) == place.nodeID
            && Position(t, place.nodeID, place.nodeRank) == pos
  {
    var place, nodes := PlaceOf(t, pos), NbNodes(t);
    MultiplyUp(pos, t.nodeSize);
    MultiplyUp(|t.nodeList|, t.nodeSize);
    MultiplyUp(place.nodeID, t.groupSize);
    MultiplyUp(nodes, t.groupSize);
    NodeInRange(t, pos);
    SectorInRange(place.nodeID, nodes, t.groupSize);
    MultipleBelow(place.sectorID, nodes / t.groupSize, i, t.groupSize);
    MultipleBelow(MemberNode(t, place, i), nodes, place.nodeRank, t.nodeSize);
  }

  lemma NodeInRange(t: Layout, pos: nat)
    requires ValidLayout(t) && pos < |t.nodeList|
    ensures pos / t.nodeSize < NbNodes(t)
  {
    MultiplyUp(pos, t.nodeSize);
    MultiplyUp(|t.nodeList|, t.nodeSize);
    var node, nodes := pos / t.nodeSize, NbNodes(t);
    if nodes <= node {
      Monotone(nodes, node, t.nodeSize);
    }
  }

  lemma SectorInRange(node: nat, nodes: nat, size: nat)
    requires 0 < size && node < nodes && nodes % size == 0
    ensures node / size < nodes / size
  {
    MultiplyUp(node, size);
    MultiplyUp(nodes, size);
    if nodes / size <= node / size {
      Monotone(nodes / size, node / size, size);
    }
  }

  // ------------------------------------------------------------------ application ranks

  /** How many application processes a node has. */
  function Apps(t: Layout): nat
    requires t.nbHeads <= t.nodeSize
  {
    t.nodeSize - t.nbHeads
  }

  /** The process at this position is an application process. */
  predicate IsApp(t: Layout, pos: nat)
    requires 0 < t.nodeSize
  {
    pos % t.nodeSize != 0 || t.nbHeads == 0
  }

  /** The application processes among the first `n` positions, in order. */
  function UserProcs(t: Layout, n: nat): seq<nat>
    requires 0 < t.nodeSize && n <= |t.nodeList|
  {
    if n == 0 then []
    else UserProcs(t, n - 1) + if IsApp(t, n - 1) then [t.nodeList[n - 1]] else []
  }

  method ListUserProcs(t: Layout) returns (userProcList: seq<nat>)
    requires ValidLayout(t)
    ensures userProcList == UserProcs(t, |t.nodeList|)
  {
    userProcList := [];
    for i := 0 to |t.nodeList|
      invariant userProcList == UserProcs(t, i)
    {
      if i % t.nodeSize != 0 || t.nbHeads == 0 {
        userProcList := userProcList + [t.nodeList[i]];
      }
    }
  }

  /** The rank that a head works out for process `proc` of its node; without heads, that of slot `proc`. */
  function SplitRank(t: Layout, node: nat, proc: nat): int
    requires t.nbHeads <= t.nodeSize
  {
    Apps(t) * node + proc - t.nbHeads
  }

  /** The number of application processes before slot `q` of a node. */
  lemma {:induction false} AppsBefore(t: Layout, node: nat, q: nat)
    requires ValidLayout(t) && q < t.nodeSize && Position(t, node, q) <= |t.nodeList|
    ensures |UserProcs(t, Position(t, node, q))| == Apps(t) * node + if q < t.nbHeads then 0 else q - t.nbHeads
    decreases node, q
  {
    var pos := Position(t, node, q);
    if q == 0 {
      if node == 0 {
        assert pos == 0;
      } else {
        assert pos - 1 == Position(t, node - 1, t.nodeSize - 1);
        AppsBefore(t, node - 1, t.nodeSize - 1);
        LastSlot(t, node - 1);
        NextNode(Apps(t), node);
      }
    } else {
      assert pos - 1 == Position(t, node, q - 1);
      AppsBefore(t, node, q - 1);
      DivideUp(pos - 1, node, q - 1, t.nodeSize);
    }
  }

  lemma NextNode(apps: nat, node: nat)
    requires 0 < node
    ensures apps * (node - 1) + apps == apps * node
  {
  }

  lemma LastSlot(t: Layout, node: nat)
    requires ValidLayout(t)
    ensures Position(t, node + 1, 0) == Position(t, node, t.nodeSize - 1) + 1
    ensures IsApp(t, Position(t, node, t.nodeSize - 1))
  {
    DivideUp(Position(t, node, t.nodeSize - 1), node, t.nodeSize - 1, t.nodeSize);
  }

  lemma {:induction false} UserProcsPrefix(t: Layout, n: nat, m: nat)
    requires 0 < t.nodeSize && n <= m <= |t.nodeList|
    ensures UserProcs(t, n) <= UserProcs(t, m)
    decreases m - n
  {
    if n < m {
      UserProcsPrefix(t, n, m - 1);
    }
  }

  /** The rank that a head computes for a process is the real rank of the process among the application processes. */
  lemma {:induction false} SplitRankIsRank(t: Layout, node: nat, proc: nat)
    requires ValidLayout(t) && t.nbHeads <= proc < t.nodeSize && Position(t, node, proc) < |t.nodeList|
    ensures 0 <= SplitRank(t, node, proc) < |UserProcs(t, |t.nodeList|)|
    ensures UserProcs(t, |t.nodeList|)[SplitRank(t, node, proc)] == t.nodeList[Position(t, node, proc)]
  {
    var pos := Position(t, node, proc);
    AppsBefore(t, node, proc);
    DivideUp(pos, node, proc, t.nodeSize);
    UserProcsPrefix(t, pos + 1, |t.nodeList|);
  }

  // ------------------------------------------------------------------ the shared file

  /** Where the part of application rank `k` starts: the sizes of all parts before it. */
  function Offset(sizes: seq<nat>, k: nat): nat
    requires k <= |sizes|
  {
    if k == 0 then 0 else Offset(sizes, k - 1) + sizes[k - 1]
  }

  /** The loop that adds up the sizes. */
  method ComputeOffset(allFileSizes: seq<nat>, splitRank: nat) returns (offset: nat)
    requires splitRank <= |allFileSizes|
    ensures offset == Offset(allFileSizes, splitRank)
  {
    offset := 0;
    for i := 0 to splitRank
      invariant offset == Offset(allFileSizes, i)
    {
      offset := offset + allFileSizes[i];
    }
  }

  lemma {:induction false} OffsetsIncrease(sizes: seq<nat>, k: nat, m: nat)
    requires k <= m <= |sizes|
    ensures Offset(sizes, k) <= Offset(sizes, m)
    decreases m - k
  {
    if k < m {
      OffsetsIncrease(sizes, k, m - 1);
    }
  }

  /** Every byte of the shared file belongs to exactly one part. */
  lemma PartsTileSharedFile(sizes: seq<nat>, x: nat) returns (k: nat)
    requires x < Offset(sizes, |sizes|)
    ensures k < |sizes| && Offset(sizes, k) <= x < Offset(sizes, k) + sizes[k]
    ensures forall m :: 0 <= m < |sizes| && Offset(sizes, m) <= x < Offset(sizes, m) + sizes[m] ==> m == k
  {
    k := FindPart(sizes, x, |sizes|);
    forall m | 0 <= m < |sizes| && Offset(sizes, m) <= x < Offset(sizes, m) + sizes[m]
      ensures m == k
    {
      if m < k {
        OffsetsIncrease(sizes, m + 1, k);
      } else if k < m {
        OffsetsIncrease(sizes, k + 1, m);
      }
    }
  }

  lemma {:induction false} FindPart(sizes: seq<nat>, x: nat, n: nat) returns (k: nat)
    requires n <= |sizes| && x < Offset(sizes, n)
    ensures k < n && Offset(sizes, k) <= x < Offset(sizes, k) + sizes[k]
    decreases n
  {
    if x < Offset(sizes, n - 1) {
      k := FindPart(sizes, x, n - 1);
    } else {
      k := n - 1;
    }
  }

  /** The shared file after the first `n` parts were written at their offsets. */
  function Flushed(parts: seq<seq<Byte>>, n: nat, file: File): File
    requires n <= |parts|
  {
    if n == 0 then file else WriteAt(Flushed(parts, n - 1, file), Offset(PartSizes(parts), n - 1), parts[n - 1])
  }

  function PartSizes(parts: seq<seq<Byte>>): (r: seq<nat>)
    ensures |r| == |parts| && forall k :: 0 <= k < |parts| ==> r[k] == |parts[k]|
  {
    seq(|parts|, k requires 0 <= k < |parts| => |parts[k]|)
  }

  /** Every process reads back its own part, whatever the sizes. */
  lemma {:induction false} OwnPartReadBack(parts: seq<seq<Byte>>, n: nat, k: nat, file: File)
    requires k < n <= |parts|
    ensures Region(Flushed(parts, n, file), Offset(PartSizes(parts), k), |parts[k]|) == parts[k]
    decreases n
  {
    hide Region, WriteAt, Offset;
    var sizes := PartSizes(parts);
    var before := Flushed(parts, n - 1, file);
    if k == n - 1 {
      WriteHere(before, Offset(sizes, k), parts[k]);
    } else {
      OwnPartReadBack(parts, n - 1, k, file);
      hide Flushed;
      OffsetStep(sizes, k);
      OffsetsIncrease(sizes, k + 1, n - 1);
      WriteElsewhere(before, Offset(sizes, n - 1), parts[n - 1], Offset(sizes, k), |parts[k]|);
      FlushedStep(parts, n, file);
    }
  }

  lemma {:induction false} OffsetStep(sizes: seq<nat>, k: nat)
    requires k < |sizes|
    ensures Offset(sizes, k + 1) == Offset(sizes, k) + sizes[k]
  {
  }

  lemma {:induction false} FlushedStep(parts: seq<seq<Byte>>, n: nat, file: File)
    requires 0 < n <= |parts|
    ensures Flushed(parts, n, file) ==
            WriteAt(Flushed(parts, n - 1, file), Offset(PartSizes(parts), n - 1), parts[n - 1])
  {
  }
}
