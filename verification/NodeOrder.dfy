/** The order of the nodes at recovery: hosts that are still there go back to their old position. */
module NodeOrder {
  import opened NodeList

  /** How many entries from position `from` on are unassigned. */
  function Open(s: seq<int>, from: nat): nat
    requires from <= |s|
    decreases |s| - from
  {
    if from == |s| then 0 else (if s[from] == -1 then 1 else 0) + Open(s, from + 1)
  }

  lemma {:induction false} OpenUpdate(s: seq<int>, from: nat, i: nat, v: int)
    requires from <= |s| && i < |s| && v != -1
    ensures Open(s[i := v], from) == Open(s, from) - if from <= i && s[i] == -1 then 1 else 0
    decreases |s| - from
  {
    if from < |s| {
      OpenUpdate(s, from + 1, i, v);
    }
  }

  lemma {:induction false} SomeOpen(s: seq<int>, from: nat)
    requires from <= |s|
    ensures 0 < Open(s, from) ==> from < |s|
    ensures Open(s, from) == 0 <==> forall i :: from <= i < |s| ==> s[i] != -1
    decreases |s| - from
  {
    if from < |s| {
      SomeOpen(s, from + 1);
    }
  }

  /** An assignment of positions that is right so far: the two tables are inverse to each other where they are set. */
  ghost predicate Inverse(was: seq<int>, now: seq<int>) {
    && |was| == |now|
    && (forall i :: 0 <= i < |now| ==> now[i] == -1 || (0 <= now[i] < |was| && was[now[i]] == i))
    && (forall j :: 0 <= j < |was| ==> was[j] == -1 || (0 <= was[j] < |now| && now[was[j]] == j))
  }

  lemma AssignKeepsInverse(was: seq<int>, now: seq<int>, i: nat, j: nat)
    requires Inverse(was, now) && i < |now| && j < |was| && now[i] == -1 && was[j] == -1
    ensures Inverse(was[j := i], now[i := j])
  {
  }

  /** A complete assignment is a permutation of the positions. */
  ghost predicate Permutes(now: seq<int>) {
    && (forall i :: 0 <= i < |now| ==> 0 <= now[i] < |now|)
    && (forall i, k :: 0 <= i < k < |now| ==> now[i] != now[k])
    && (forall j :: 0 <= j < |now| ==> j in now)
  }

  lemma {:induction false} CompleteIsPermutation(was: seq<int>, now: seq<int>)
    requires Inverse(was, now) && Open(now, 0) == 0 && Open(was, 0) == 0
    ensures Permutes(now)
  {
    SomeOpen(now, 0);
    SomeOpen(was, 0);
    forall j | 0 <= j < |now|
      ensures j in now
    {
      assert now[was[j]] == j;
    }
  }

  /** Every entry is a position or unassigned. */
  predicate Positions(now: seq<int>) {
    forall i :: 0 <= i < |now| ==> -1 <= now[i] < |now|
  }

  /** Every old host that is still there has its present position; the others have none yet. */
  ghost predicate Matched(oldNames: seq<Name>, names: seq<Name>, now: seq<int>, n: nat)
    requires n <= |oldNames| == |now|
  {
    forall i :: 0 <= i < n ==>
      if oldNames[i] in names then 0 <= now[i] < |names| && names[now[i]] == oldNames[i] else now[i] == -1
  }

  /** Matches the old names with the present ones. */
  method MatchNames(oldNames: seq<Name>, names: seq<Name>) returns (was: seq<int>, now: seq<int>)
    requires |oldNames| == |names|
    ensures |was| == |now| == |names| && Matched(oldNames, names, now, |now|)
    ensures Open(now, 0) <= Open(was, 0)
    ensures Different(oldNames) && Different(names) ==> Inverse(was, now) && Open(was, 0) == Open(now, 0)
  {
    var n := |names|;
    was, now := seq(n, _ => -1), seq(n, _ => -1);
    for i := 0 to n
      invariant |was| == |now| == n && Matched(oldNames, names, now, i)
      invariant forall k :: i <= k < n ==> now[k] == -1
      invariant Open(now, 0) <= Open(was, 0)
      invariant Different(oldNames) && Different(names) ==> Inverse(was, now) && Open(was, 0) == Open(now, 0)
    {
      var j := 0;
      while j < n && oldNames[i] != names[j]
        invariant j <= n && forall m :: 0 <= m < j ==> names[m] != oldNames[i]
      {
        j := j + 1;
      }
      if j < n {
        OpenUpdate(was, 0, j, i);
        OpenUpdate(now, 0, i, j);
        if Different(oldNames) && Different(names) {
          FreshMatch(oldNames, names, was, now, i, j);
          AssignKeepsInverse(was, now, i, j);
        }
        was, now := was[j := i], now[i := j];
      }
    }
  }

  /** With different names no position is matched twice. */
  lemma FreshMatch(oldNames: seq<Name>, names: seq<Name>, was: seq<int>, now: seq<int>, i: nat, j: nat)
    requires Different(oldNames) && |oldNames| == |names| == |was| == |now| && i < |now| && j < |was|
    requires Inverse(was, now) && Matched(oldNames, names, now, i) && oldNames[i] == names[j]
    requires forall k :: i <= k < |now| ==> now[k] == -1
    ensures was[j] == -1
  {
  }

  /** The hosts below `i` have their positions, and there are positions enough from `j` on for the others. */
  ghost predicate Filling(was: seq<int>, now: seq<int>, i: nat, j: nat) {
    && |was| == |now| && i <= |now| && j <= |was| && Positions(now)
    && Open(now, i) == Open(now, 0) && Open(now, i) <= Open(was, j)
  }

  lemma {:induction false} HasPosition(was: seq<int>, now: seq<int>, i: nat, j: nat)
    requires Filling(was, now, i, j) && i < |now| && now[i] != -1
    ensures Filling(was, now, i + 1, j)
  {
  }

  lemma {:induction false} GetsPosition(was: seq<int>, now: seq<int>, i: nat, j: nat)
    requires Filling(was, now, i, j) && i < |now| && now[i] == -1 && j < |was| && was[j] == -1
    ensures Filling(was[j := i], now[i := j], i + 1, j + 1)
    ensures Open(now, 0) == Open(was, 0) ==> Open(now[i := j], 0) == Open(was[j := i], 0)
    ensures Inverse(was, now) ==> Inverse(was[j := i], now[i := j])
  {
    OpenUpdate(was, j + 1, j, i);
    OpenUpdate(was, 0, j, i);
    OpenUpdate(now, i + 1, i, j);
    OpenUpdate(now, 0, i, j);
    if Inverse(was, now) {
      AssignKeepsInverse(was, now, i, j);
    }
    hide Inverse;
  }

  /** From `j` on some position is free; the next one is not further away than the others. */
  lemma {:induction false} NotYet(was: seq<int>, now: seq<int>, i: nat, j: nat)
    requires Filling(was, now, i, j) && i < |now| && now[i] == -1
    ensures j < |was| && (was[j] != -1 ==> Filling(was, now, i, j + 1))
  {
    SomeOpen(was, j);
  }

  /** Gives every new host the first position that no surviving host has; the search never runs past the end. */
  method FillGaps(was0: seq<int>, now0: seq<int>) returns (was: seq<int>, now: seq<int>)
    requires |was0| == |now0| && Open(now0, 0) <= Open(was0, 0) && Positions(now0)
    ensures |was| == |now| == |now0| && Open(now, 0) == 0 && Positions(now)
    ensures forall i :: 0 <= i < |now0| && now0[i] != -1 ==> now[i] == now0[i]
    ensures Inverse(was0, now0) && Open(now0, 0) == Open(was0, 0) ==> Inverse(was, now) && Open(was, 0) == 0
  {
    was, now := was0, now0;
    var n, j := |now0|, 0;
    assert Filling(was, now, 0, 0);
    hide Open, Inverse;
    for i := 0 to n
      invariant Filling(was, now, i, j) && |now| == n
      invariant forall k :: 0 <= k < n && now0[k] != -1 ==> now[k] == now0[k]
      invariant Inverse(was0, now0) && Open(now0, 0) == Open(was0, 0) ==>
                  (Inverse(was, now) && Open(now, 0) == Open(was, 0))
    {
      if now[i] == -1 {
        NotYet(was, now, i, j);
        while was[j] != -1
          invariant Filling(was, now, i, j) && j < n
          decreases n - j
        {
          NotYet(was, now, i, j);
          j := j + 1;
          NotYet(was, now, i, j);
        }
        GetsPosition(was, now, i, j);
        was, now := was[j := i], now[i := j];
        j := j + 1;
      } else {
        HasPosition(was, now, i, j);
      }
    }
    SomeOpen(now, n);
  }

  /** Row `i` of the new list is row `now[i]` of the present one. */
  method ReorderNodes(oldNames: seq<Name>, names: seq<Name>, nodeList: array2<int>) returns (now: seq<int>)
    requires |oldNames| == |names| == nodeList.Length0
    modifies nodeList
    ensures |now| == nodeList.Length0 && forall i :: 0 <= i < |now| ==> 0 <= now[i] < nodeList.Length0
    ensures forall i, q :: 0 <= i < |now| && 0 <= q < nodeList.Length1 ==> nodeList[i, q] == old(nodeList[now[i], q])
    ensures forall i :: 0 <= i < |now| && oldNames[i] in names ==> names[now[i]] == oldNames[i]
    ensures Different(oldNames) && Different(names) ==> Permutes(now)
  {
    var was;
    was, now := MatchNames(oldNames, names);
    was, now := FillGaps(was, now);
    SomeOpen(now, 0);
    if Different(oldNames) && Different(names) {
      CompleteIsPermutation(was, now);
    }
    CopyRows(now, nodeList);
  }

  /** Row `i` becomes row `from` of another list. */
  method CopyRow(nl: array2<int>, from: nat, nodeList: array2<int>, i: nat)
    requires nl != nodeList && nl.Length0 == nodeList.Length0 && nl.Length1 == nodeList.Length1
    requires from < nl.Length0 && i < nodeList.Length0
    modifies nodeList
    ensures forall q :: 0 <= q < nodeList.Length1 ==> nodeList[i, q] == nl[from, q]
    ensures forall k, q :: 0 <= k < nodeList.Length0 && k != i && 0 <= q < nodeList.Length1 ==>
            nodeList[k, q] == old(nodeList[k, q])
  {
    for j := 0 to nodeList.Length1
      invariant forall q :: 0 <= q < j ==> nodeList[i, q] == nl[from, q]
      invariant forall k, q :: 0 <= k < nodeList.Length0 && k != i && 0 <= q < nodeList.Length1 ==>
                nodeList[k, q] == old(nodeList[k, q])
    {
      nodeList[i, j] := nl[from, j];
    }
  }

  /** A copy of a list. */
  method CopyOf(nodeList: array2<int>) returns (nl: array2<int>)
    ensures fresh(nl) && nl.Length0 == nodeList.Length0 && nl.Length1 == nodeList.Length1
    ensures forall k, q :: 0 <= k < nl.Length0 && 0 <= q < nl.Length1 ==> nl[k, q] == nodeList[k, q]
  {
    nl := new int[nodeList.Length0, nodeList.Length1](
      (i, q) requires 0 <= i < nodeList.Length0 && 0 <= q < nodeList.Length1 reads nodeList => nodeList[i, q]);
  }

  method CopyRows(now: seq<int>, nodeList: array2<int>)
    requires |now| == nodeList.Length0 && forall i :: 0 <= i < |now| ==> 0 <= now[i] < nodeList.Length0
    modifies nodeList
    ensures forall i, q :: 0 <= i < |now| && 0 <= q < nodeList.Length1 ==> nodeList[i, q] == old(nodeList[now[i], q])
  {
    var nl := CopyOf(nodeList);
    for i := 0 to nodeList.Length0
      invariant forall k, q :: 0 <= k < i && 0 <= q < nodeList.Length1 ==> nodeList[k, q] == old(nodeList[now[k], q])
      invariant forall k, q :: 0 <= k < nl.Length0 && 0 <= q < nl.Length1 ==> nl[k, q] == old(nodeList[k, q])
    {
      CopyRow(nl, now[i], nodeList, i);
    }
  }
}
