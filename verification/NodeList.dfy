/** The list of nodes: which ranks run on which host, and the order of the hosts after nodes were replaced. */
module NodeList {
  type Name = string

  // ------------------------------------------------------------------ ranks by host

  /** The ranks below `n` that run on `host`, in order. */
  function RanksOn(hosts: seq<Name>, host: Name, n: nat): seq<nat>
    requires n <= |hosts|
  {
    if n == 0 then []
    else RanksOn(hosts, host, n - 1) + if hosts[n - 1] == host then [n - 1] else []
  }

  /** The hosts of the ranks below `n`, in the order in which they first appear. */
  function Hosts(hosts: seq<Name>, n: nat): seq<Name>
    requires n <= |hosts|
  {
    if n == 0 then []
    else
      var before := Hosts(hosts, n - 1);
      if hosts[n - 1] in before then before else before + [hosts[n - 1]]
  }

  ghost predicate Different(names: seq<Name>) {
    forall i, j :: 0 <= i < j < |names| ==> names[i] != names[j]
  }

  lemma {:induction false} HostsDiffer(hosts: seq<Name>, n: nat)
    requires n <= |hosts|
    ensures Different(Hosts(hosts, n))
    ensures forall r :: 0 <= r < n ==> hosts[r] in Hosts(hosts, n)
    decreases n
  {
    if n != 0 {
      HostsDiffer(hosts, n - 1);
    }
  }

  lemma {:induction false} RanksAreOnHost(hosts: seq<Name>, host: Name, n: nat, q: nat)
    requires n <= |hosts| && q < |RanksOn(hosts, host, n)|
    ensures RanksOn(hosts, host, n)[q] < n && hosts[RanksOn(hosts, host, n)[q]] == host
    decreases n
  {
    if q < |RanksOn(hosts, host, n - 1)| {
      RanksAreOnHost(hosts, host, n - 1, q);
    }
  }

  lemma {:induction false} RanksIncrease(hosts: seq<Name>, host: Name, n: nat, p: nat, q: nat)
    requires n <= |hosts| && p < q < |RanksOn(hosts, host, n)|
    ensures RanksOn(hosts, host, n)[p] < RanksOn(hosts, host, n)[q]
    decreases n
  {
    if q < |RanksOn(hosts, host, n - 1)| {
      RanksIncrease(hosts, host, n - 1, p, q);
    } else {
      RanksAreOnHost(hosts, host, n - 1, p);
    }
  }

  /** Every rank is among those of its host. */
  lemma {:induction false} RankListed(hosts: seq<Name>, r: nat, n: nat) returns (q: nat)
    requires r < n <= |hosts|
    ensures q < |RanksOn(hosts, hosts[r], n)| && RanksOn(hosts, hosts[r], n)[q] == r
    decreases n
  {
    if r == n - 1 {
      q := |RanksOn(hosts, hosts[r], n - 1)|;
    } else {
      q := RankListed(hosts, r, n - 1);
    }
  }

  /** The number of ranks below `n` on the hosts in `names`. */
  function TotalOn(hosts: seq<Name>, names: seq<Name>, n: nat): nat
    requires n <= |hosts|
  {
    if names == [] then 0 else TotalOn(hosts, names[..|names| - 1], n) + |RanksOn(hosts, names[|names| - 1], n)|
  }

  lemma {:induction false} TotalStep(hosts: seq<Name>, names: seq<Name>, n: nat)
    requires n < |hosts| && Different(names)
    ensures TotalOn(hosts, names, n + 1) == TotalOn(hosts, names, n) + if hosts[n] in names then 1 else 0
    decreases |names|
  {
    if names != [] {
      var front := names[..|names| - 1];
      TotalStep(hosts, front, n);
      if hosts[n] == names[|names| - 1] {
        assert hosts[n] !in front;
      } else {
        assert hosts[n] in names <==> hosts[n] in front;
      }
    }
  }

  lemma {:induction false} TotalAppend(hosts: seq<Name>, names: seq<Name>, host: Name, n: nat)
    requires n <= |hosts|
    ensures TotalOn(hosts, names + [host], n) == TotalOn(hosts, names, n) + |RanksOn(hosts, host, n)|
  {
    hide RanksOn;
    assert (names + [host])[..|names|] == names;
  }

  lemma HostsStep(hosts: seq<Name>, n: nat)
    requires n < |hosts|
    ensures Hosts(hosts, n + 1) == if hosts[n] in Hosts(hosts, n) then Hosts(hosts, n) else Hosts(hosts, n) + [hosts[n]]
  {
  }

  /** The first rank of a host adds the host with one rank. */
  lemma NewHostCounts(hosts: seq<Name>, names: seq<Name>, n: nat)
    requires n < |hosts| && Different(names) && hosts[n] !in names && RanksOn(hosts, hosts[n], n) == []
    ensures TotalOn(hosts, names + [hosts[n]], n + 1) == TotalOn(hosts, names, n) + 1
  {
    TotalStep(hosts, names, n);
    OneRank(hosts, n);
    hide RanksOn, TotalOn;
    TotalAppend(hosts, names, hosts[n], n + 1);
  }

  lemma {:induction false} NobodyYet(hosts: seq<Name>, n: nat)
    requires n < |hosts| && hosts[n] !in Hosts(hosts, n)
    ensures RanksOn(hosts, hosts[n], n) == []
  {
    hide RanksOn, Hosts;
    HostsDiffer(hosts, n);
    NoRanks(hosts, hosts[n], n);
  }

  /** Every rank counts for one host. */
  lemma {:induction false} RanksAddUp(hosts: seq<Name>, n: nat)
    requires n <= |hosts|
    ensures TotalOn(hosts, Hosts(hosts, n), n) == n
    decreases n
  {
    hide *;
    if n == 0 {
      NoneYet(hosts);
    } else {
      RanksAddUp(hosts, n - 1);
      OneMoreRank(hosts, n - 1, Hosts(hosts, n - 1));
    }
  }

  lemma {:induction false} NoneYet(hosts: seq<Name>)
    ensures TotalOn(hosts, Hosts(hosts, 0), 0) == 0
  {
  }

  lemma {:induction false} OneMoreRank(hosts: seq<Name>, n: nat, before: seq<Name>)
    requires n < |hosts| && before == Hosts(hosts, n) && TotalOn(hosts, before, n) == n
    ensures TotalOn(hosts, Hosts(hosts, n + 1), n + 1) == n + 1
  {
    hide *;
    HostsDiffer(hosts, n);
    HostsStep(hosts, n);
    if hosts[n] in before {
      TotalStep(hosts, before, n);
    } else {
      NobodyYet(hosts, n);
      NewHostCounts(hosts, before, n);
    }
  }

  lemma {:induction false} OneRank(hosts: seq<Name>, n: nat)
    requires n < |hosts| && RanksOn(hosts, hosts[n], n) == []
    ensures RanksOn(hosts, hosts[n], n + 1) == [n]
  {
  }

  lemma {:induction false} NoRanks(hosts: seq<Name>, host: Name, n: nat)
    requires n <= |hosts| && forall r :: 0 <= r < n ==> hosts[r] != host
    ensures RanksOn(hosts, host, n) == []
    decreases n
  {
    if n != 0 {
      NoRanks(hosts, host, n - 1);
    }
  }

  /** `k` hosts with `size` ranks each. */
  function Product(k: nat, size: nat): nat {
    if k == 0 then 0 else Product(k - 1, size) + size
  }

  lemma {:induction false} ProductGrows(k: nat, m: nat, size: nat)
    requires 0 < size
    ensures k < m ==> Product(k, size) < Product(m, size)
    ensures k <= m ==> Product(k, size) <= Product(m, size)
    decreases m
  {
    if k < m {
      ProductGrows(k, m - 1, size);
    }
  }

  lemma {:induction false} ProductIsProduct(k: nat, size: nat)
    ensures Product(k, size) == k * size
    decreases k
  {
    if k != 0 {
      ProductIsProduct(k - 1, size);
    }
  }

  ghost predicate AtLeast(hosts: seq<Name>, names: seq<Name>, size: nat) {
    forall p :: 0 <= p < |names| ==> size <= |RanksOn(hosts, names[p], |hosts|)|
  }

  ghost predicate Exactly(hosts: seq<Name>, names: seq<Name>, size: nat) {
    forall p :: 0 <= p < |names| ==> |RanksOn(hosts, names[p], |hosts|)| == size
  }

  lemma {:induction false} TotalAtLeast(hosts: seq<Name>, names: seq<Name>, size: nat)
    requires AtLeast(hosts, names, size)
    ensures Product(|names|, size) <= TotalOn(hosts, names, |hosts|)
    ensures TotalOn(hosts, names, |hosts|) == Product(|names|, size) ==> Exactly(hosts, names, size)
    decreases |names|
  {
    if names != [] {
      TotalAtLeast(hosts, names[..|names| - 1], size);
    }
  }

  lemma {:induction false} TotalExactly(hosts: seq<Name>, names: seq<Name>, size: nat)
    requires Exactly(hosts, names, size)
    ensures TotalOn(hosts, names, |hosts|) == Product(|names|, size)
    decreases |names|
  {
    if names != [] {
      TotalExactly(hosts, names[..|names| - 1], size);
    }
  }

  /** All slots can be filled exactly if every host has as many ranks as a node has slots. */
  lemma {:induction false} FilledExactly(hosts: seq<Name>, nbNodes: nat, size: nat)
    requires 0 < size && |hosts| == Product(nbNodes, size) && |Hosts(hosts, |hosts|)| <= nbNodes
    ensures var names := Hosts(hosts, |hosts|);
            (|names| == nbNodes && AtLeast(hosts, names, size)) <==> Exactly(hosts, names, size)
  {
    hide TotalOn, Product, RanksOn, Hosts;
    var names := Hosts(hosts, |hosts|);
    RanksAddUp(hosts, |hosts|);
    if |names| == nbNodes && AtLeast(hosts, names, size) {
      TotalAtLeast(hosts, names, size);
    }
    if Exactly(hosts, names, size) {
      TotalExactly(hosts, names, size);
      ProductGrows(|names|, nbNodes, size);
    }
  }

  // ------------------------------------------------------------------ building the list

  /** What slot `q` of host number `pos` holds after the first `n` ranks. */
  function SlotOf(hosts: seq<Name>, n: nat, pos: nat, q: nat): int
    requires n <= |hosts|
  {
    var names := Hosts(hosts, n);
    if pos < |names| && q < |RanksOn(hosts, names[pos], n)| then RanksOn(hosts, names[pos], n)[q] else -1
  }

  /** The position of a name in a list of names, or its end. */
  function FindName(names: seq<Name>, name: Name, from: nat): (pos: nat)
    requires from <= |names|
    ensures from <= pos <= |names| && (pos < |names| ==> names[pos] == name)
    ensures forall m :: from <= m < pos ==> names[m] != name
    decreases |names| - from
  {
    if from == |names| || names[from] == name then from else FindName(names, name, from + 1)
  }

  /** The node that rank `i` is put on: that of its host, or the one after all nodes so far. */
  function NodeOf(hosts: seq<Name>, i: nat): nat
    requires i < |hosts|
  {
    FindName(Hosts(hosts, i), hosts[i], 0)
  }

  /** Every rank is put on a node that exists if and only if there are no more hosts than nodes. */
  lemma {:induction false} WritesInRangeIff(hosts: seq<Name>, nbNodes: nat)
    ensures (forall i :: 0 <= i < |hosts| ==> NodeOf(hosts, i) < nbNodes) <==> |Hosts(hosts, |hosts|)| <= nbNodes
  {
    if |Hosts(hosts, |hosts|)| <= nbNodes {
      forall i | 0 <= i < |hosts| ensures NodeOf(hosts, i) < nbNodes {
        HostsGrow(hosts, i + 1, |hosts|);
        NodeBelow(hosts, i);
      }
    } else {
      var i := FirstOutside(hosts, nbNodes, |hosts|);
    }
  }

  lemma {:induction false} NodeBelow(hosts: seq<Name>, i: nat)
    requires i < |hosts|
    ensures NodeOf(hosts, i) < |Hosts(hosts, i + 1)|
  {
    var before := Hosts(hosts, i);
    if hosts[i] in before {
      var m :| 0 <= m < |before| && before[m] == hosts[i];
      assert NodeOf(hosts, i) <= m;
    }
  }

  lemma {:induction false} FirstOutside(hosts: seq<Name>, nbNodes: nat, n: nat) returns (i: nat)
    requires n <= |hosts| && nbNodes < |Hosts(hosts, n)|
    ensures i < |hosts| && nbNodes <= NodeOf(hosts, i)
    decreases n
  {
    i := n - 1;
    if nbNodes < |Hosts(hosts, n - 1)| {
      i := FirstOutside(hosts, nbNodes, n - 1);
    }
  }

  /** A rank on a host that was seen before takes the next slot of that host. */
  lemma KnownHost(hosts: seq<Name>, n: nat, at: nat, pos: nat, q: nat)
    requires n < |hosts| && at < |Hosts(hosts, n)| && Hosts(hosts, n)[at] == hosts[n]
    ensures Hosts(hosts, n + 1) == Hosts(hosts, n)
    ensures SlotOf(hosts, n + 1, pos, q) ==
            if pos == at && q == |RanksOn(hosts, hosts[n], n)| then n else SlotOf(hosts, n, pos, q)
  {
    HostsDiffer(hosts, n);
  }

  /** A rank on a new host takes the first slot of a new node. */
  lemma NewHost(hosts: seq<Name>, n: nat, pos: nat, q: nat)
    requires n < |hosts| && hosts[n] !in Hosts(hosts, n)
    ensures Hosts(hosts, n + 1) == Hosts(hosts, n) + [hosts[n]]
    ensures SlotOf(hosts, n + 1, pos, q) ==
            if pos == |Hosts(hosts, n)| && q == 0 then n else SlotOf(hosts, n, pos, q)
  {
    HostsDiffer(hosts, n);
    NoRanks(hosts, hosts[n], n);
    if pos < |Hosts(hosts, n)| {
      assert Hosts(hosts, n)[pos] in Hosts(hosts, n);
    }
  }

  /** What comes of building the list. */
  datatype Built = Complete | Incomplete | Overrun

  /** The list of nodes: for every slot of every node a rank, or -1; and the names of the hosts found. */
  class Nodes {
    const nbNodes: nat
    const nodeSize: nat
    const nodeList: array2<int>
    var nameList: seq<Name>

    ghost predicate Shape()
      reads this
    {
      nodeList.Length0 == nbNodes && nodeList.Length1 == nodeSize && 0 < nodeSize
    }

    /** The slots are filled with the first `n` ranks. */
    ghost predicate Filled(hosts: seq<Name>, n: nat)
      requires Shape() && n <= |hosts|
      reads this, nodeList
    {
      && nameList == Hosts(hosts, n)
      && forall pos, q :: 0 <= pos < nbNodes && 0 <= q < nodeSize ==> nodeList[pos, q] == SlotOf(hosts, n, pos, q)
    }

    constructor (nbNodes: nat, nodeSize: nat)
      requires 0 < nodeSize
      ensures Shape() && this.nbNodes == nbNodes && this.nodeSize == nodeSize && nameList == [] && fresh(nodeList)
      ensures forall pos, q :: 0 <= pos < nbNodes && 0 <= q < nodeSize ==> nodeList[pos, q] == -1
    {
      this.nbNodes, this.nodeSize, nameList := nbNodes, nodeSize, [];
      nodeList := new int[nbNodes, nodeSize]((_, _) => -1);
    }

    /** The position of a name in the list of names, or its end. */
    method Search(name: Name) returns (pos: nat)
      ensures pos == FindName(nameList, name, 0)
      ensures pos <= |nameList| && (pos < |nameList| <==> name in nameList)
    {
      pos := 0;
      while pos < |nameList| && nameList[pos] != name
        invariant pos <= |nameList| && FindName(nameList, name, pos) == FindName(nameList, name, 0)
        invariant forall m :: 0 <= m < pos ==> nameList[m] != name
      {
        pos := pos + 1;
      }
    }

    /** The first empty slot of a node, or its end. */
    method EmptySlot(ghost hosts: seq<Name>, ghost n: nat, pos: nat) returns (q: nat)
      requires Shape() && n <= |hosts| && Filled(hosts, n) && pos < nbNodes && pos < |nameList|
      ensures q == if |RanksOn(hosts, nameList[pos], n)| < nodeSize then |RanksOn(hosts, nameList[pos], n)|
              else nodeSize
    {
      hide RanksOn, Hosts;
      q := 0;
      while q < nodeSize && nodeList[pos, q] != -1
        invariant q <= nodeSize && q <= |RanksOn(hosts, nameList[pos], n)|
      {
        assert nodeList[pos, q] == SlotOf(hosts, n, pos, q);
        q := q + 1;
      }
      if q < nodeSize {
        assert nodeList[pos, q] == SlotOf(hosts, n, pos, q);
      }
    }

    /** Rank `i` takes a slot on the node of its host; a full node takes no more. */
    method Place(hosts: seq<Name>, i: nat)
      requires Shape() && i < |hosts| && Filled(hosts, i) && |Hosts(hosts, i + 1)| <= nbNodes
      modifies this`nameList, nodeList
      ensures Filled(hosts, i + 1)
    {
      hide RanksOn, Hosts, SlotOf;
      var pos := Search(hosts[i]);
      ghost var before := nameList;
      if pos < |nameList| {
        KnownHost(hosts, i, pos, 0, 0);
        var q := EmptySlot(hosts, i, pos);
        if q < nodeSize {
          nodeList[pos, q] := i;
        }
        forall p, r | 0 <= p < nbNodes && 0 <= r < nodeSize
          ensures nodeList[p, r] == SlotOf(hosts, i + 1, p, r)
        {
          KnownHost(hosts, i, pos, p, r);
        }
      } else {
        NewHost(hosts, i, 0, 0);
        nameList := nameList + [hosts[i]];
        nodeList[pos, 0] := i;
        forall p, r | 0 <= p < nbNodes && 0 <= r < nodeSize
          ensures nodeList[p, r] == SlotOf(hosts, i + 1, p, r)
        {
          NewHost(hosts, i, p, r);
        }
      }
    }

    /**
     * Fills the list from the host names of all ranks.  It is complete exactly if every host has as many ranks as a
     * node has slots, and is overrun exactly if there are more hosts than nodes: the first host too many would be
     * written past the end.
     */
    method BuildNodeList(hosts: seq<Name>) returns (r: Built)
      requires Shape() && nameList == [] && |hosts| == Product(nbNodes, nodeSize)
      requires forall pos, q :: 0 <= pos < nbNodes && 0 <= q < nodeSize ==> nodeList[pos, q] == -1
      modifies this`nameList, nodeList
      ensures r == Overrun <==> nbNodes < |Hosts(hosts, |hosts|)|
      ensures r != Overrun ==> Filled(hosts, |hosts|)
      ensures r != Overrun ==> (r == Complete <==> Exactly(hosts, Hosts(hosts, |hosts|), nodeSize))
    {
      hide RanksOn, Product, Exactly, AtLeast;
      for i := 0 to |hosts|
        invariant Filled(hosts, i) && |nameList| <= nbNodes
      {
        HostsGrow(hosts, i + 1, |hosts|);
        var pos := Search(hosts[i]);
        if pos == nbNodes {
          return Overrun;
        }
        Place(hosts, i);
      }
      r := Check(hosts);
    }

    /** Every slot of every node must have a rank. */
    method Check(hosts: seq<Name>) returns (r: Built)
      requires Shape() && |hosts| == Product(nbNodes, nodeSize) && Filled(hosts, |hosts|) && |nameList| <= nbNodes
      ensures r != Overrun && (r == Complete <==> Exactly(hosts, Hosts(hosts, |hosts|), nodeSize))
    {
      hide RanksOn, Product, Exactly, AtLeast, Hosts;
      FilledExactly(hosts, nbNodes, nodeSize);
      for pos := 0 to nbNodes
        invariant forall p :: 0 <= p < pos ==> RowFull(hosts, p)
      {
        for q := 0 to nodeSize
          invariant pos < |nameList| || q == 0
          invariant q == 0 || q <= |RanksOn(hosts, nameList[pos], |hosts|)|
        {
          assert nodeList[pos, q] == SlotOf(hosts, |hosts|, pos, q);
          if nodeList[pos, q] == -1 {
            EmptySlotMeans(hosts, pos, q);
            return Incomplete;
          }
        }
      }
      AllRowsFull(hosts);
      r := Complete;
    }

    /** The node has a host, with a rank for every slot. */
    ghost predicate RowFull(hosts: seq<Name>, pos: nat)
      reads this
    {
      pos < |nameList| && nodeSize <= |RanksOn(hosts, nameList[pos], |hosts|)|
    }

    lemma {:induction false} AllRowsFull(hosts: seq<Name>)
      requires Shape() && nameList == Hosts(hosts, |hosts|) && |nameList| <= nbNodes
      requires forall p :: 0 <= p < nbNodes ==> RowFull(hosts, p)
      ensures |nameList| == nbNodes && AtLeast(hosts, nameList, nodeSize)
    {
      hide RanksOn, Hosts;
      if nbNodes != 0 {
        assert RowFull(hosts, nbNodes - 1);
      }
      forall p | 0 <= p < |nameList|
        ensures nodeSize <= |RanksOn(hosts, nameList[p], |hosts|)|
      {
        assert RowFull(hosts, p);
      }
    }

    lemma {:induction false} EmptySlotMeans(hosts: seq<Name>, pos: nat, q: nat)
      requires Shape() && nameList == Hosts(hosts, |hosts|) && pos < nbNodes && q < nodeSize
      requires SlotOf(hosts, |hosts|, pos, q) == -1
      ensures !(|nameList| == nbNodes && AtLeast(hosts, nameList, nodeSize))
    {
      hide RanksOn, Hosts;
    }
  }

  lemma {:induction false} HostsGrow(hosts: seq<Name>, n: nat, m: nat)
    requires n <= m <= |hosts|
    ensures |Hosts(hosts, n)| <= |Hosts(hosts, m)|
    decreases m - n
  {
    if n < m {
      HostsGrow(hosts, n, m - 1);
    }
  }

  // ------------------------------------------------------------------ what a filled list means

  /** Every rank has exactly one slot, on the node of its host. */
  lemma EveryRankOnce(hosts: seq<Name>, size: nat, r: nat) returns (pos: nat, q: nat)
    requires Exactly(hosts, Hosts(hosts, |hosts|), size) && r < |hosts|
    ensures pos < |Hosts(hosts, |hosts|)| && q < size && Hosts(hosts, |hosts|)[pos] == hosts[r]
    ensures SlotOf(hosts, |hosts|, pos, q) == r
    ensures forall p, s :: 0 <= p < |Hosts(hosts, |hosts|)| && 0 <= s < size && SlotOf(hosts, |hosts|, p, s) == r ==>
            p == pos && s == q
  {
    hide RanksOn, Hosts;
    var names := Hosts(hosts, |hosts|);
    HostsDiffer(hosts, |hosts|);
    pos :| 0 <= pos < |names| && names[pos] == hosts[r];
    q := RankListed(hosts, r, |hosts|);
    forall p, s | 0 <= p < |names| && 0 <= s < size && SlotOf(hosts, |hosts|, p, s) == r
      ensures p == pos && s == q
    {
      RanksAreOnHost(hosts, names[p], |hosts|, s);
      if s < q {
        RanksIncrease(hosts, names[pos], |hosts|, s, q);
      } else if q < s {
        RanksIncrease(hosts, names[pos], |hosts|, q, s);
      }
    }
  }
}
