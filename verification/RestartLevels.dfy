/** What restart takes for recoverable is what the recoveries of levels 2 and 3 can do. */
module RestartLevels {
  import opened Survivors
  import opened Level3
  import PartnerRing
  import Restart

  /** The neighbour that holds the copies of a node is its right one in the ring of its group. */
  lemma {:induction false} RightOfIsRight(p: nat, groupSize: nat)
    requires 0 < groupSize
    ensures Restart.RightOf(p, groupSize) == p / groupSize * groupSize + PartnerRing.Right(p % groupSize, groupSize)
    ensures groupSize > 1 ==> Restart.RightOf(p, groupSize) != p
  {
    var q, r := p / groupSize, p % groupSize;
    assert p == q * groupSize + r;
    Next(r, groupSize);
  }

  lemma {:induction false} Next(r: nat, n: nat)
    requires r < n
    ensures (r + 1) % n == PartnerRing.Right(r, n) && (n > 1 ==> PartnerRing.Right(r, n) != r)
  {
  }

  /** Every lost node of a group loses one checkpoint file and one encoded file. */
  lemma {:induction false} ErasuresOfNodes(lost: seq<bool>)
    ensures Erasures(lost + lost) == 2 * Restart.LostIn(lost)
  {
    LostCounts(lost, lost, |lost|);
    assert lost[..|lost|] == lost && |lost + lost| == |lost| + |lost|;
  }

  lemma {:induction false} LostCounts(a: seq<bool>, b: seq<bool>, n: nat)
    requires n <= |b|
    ensures |Lost(a + b, |a| + n)| == Restart.LostIn(a) + Restart.LostIn(b[..n])
  {
    if n == 0 {
      OneCounts(a, b, |a|);
      assert a[..|a|] == a && b[..0] == [];
    } else {
      LostCounts(a, b, n - 1);
      assert b[..n][..n - 1] == b[..n - 1];
    }
  }

  lemma {:induction false} OneCounts(a: seq<bool>, b: seq<bool>, n: nat)
    requires n <= |a|
    ensures |Lost(a + b, n)| == Restart.LostIn(a[..n])
  {
    if n > 0 {
      OneCounts(a, b, n - 1);
      assert a[..n][..n - 1] == a[..n - 1];
    }
  }
}
