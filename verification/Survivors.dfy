/** Any k surviving files of a group determine its data: the matrix of surviving rows is regular. */
module Survivors {
  import opened Fields
  import opened LinearAlgebra
  import opened Cauchy
  import opened Words

  /** The sizes for which row and column points are distinct 16-bit words. */
  predicate GroupSize(k: nat) {
    0 < k && 2 * k <= 0x10000
  }

  function ColumnPoints(k: nat): (b: seq<Word>)
    requires GroupSize(k)
    ensures |b| == k && forall j :: 0 <= j < k ==> b[j] == Point(k + j)
  {
    seq(k, j requires 0 <= j < k => Point(k + j))
  }

  /** Entry (i, j) is `1 / (i xor (k + j))`. */
  function EncodingMatrix(f: Field, k: nat): (m: Matrix)
    requires GroupSize(k)
    ensures |m| == k
    ensures forall i :: 0 <= i < k ==> m[i] == CauchyRow(f, Point(i), ColumnPoints(k))
  {
    seq(k, i requires 0 <= i < k => CauchyRow(f, Point(i), ColumnPoints(k)))
  }

  lemma EntriesNonzero(f: Field, k: nat, i: nat, j: nat)
    requires f.IsField() && GroupSize(k) && i < k && j < k
    ensures EncodingMatrix(f, k)[i][j] != ZERO
  {
    PointsDiffer(i, k + j);
    AddCancels(f, Point(i), Point(k + j));
    PivotInverse(f, f.add(Point(i), Point(k + j)));
  }

  ghost predicate Ascending(s: seq<nat>, lo: nat, hi: nat) {
    && (forall x :: 0 <= x < |s| ==> lo <= s[x] < hi)
    && (forall x, y :: 0 <= x < y < |s| ==> s[x] < s[y])
  }

  /** The indices below `n` whose file survived, in ascending order. */
  function Surviving(erased: seq<bool>, n: nat): seq<nat>
    requires n <= |erased|
  {
    if n == 0 then [] else if erased[n - 1] then Surviving(erased, n - 1) else Surviving(erased, n - 1) + [n - 1]
  }

  /** The indices below `n` whose file is lost, in ascending order. */
  function Lost(erased: seq<bool>, n: nat): seq<nat>
    requires n <= |erased|
  {
    if n == 0 then [] else if erased[n - 1] then Lost(erased, n - 1) + [n - 1] else Lost(erased, n - 1)
  }

  lemma {:induction false} SurvivingIsAscending(erased: seq<bool>, n: nat)
    requires n <= |erased|
    ensures Ascending(Surviving(erased, n), 0, n)
    ensures forall x :: 0 <= x < |Surviving(erased, n)| ==> !erased[Surviving(erased, n)[x]]
  {
    if n > 0 {
      SurvivingIsAscending(erased, n - 1);
    }
  }

  lemma {:induction false} LostIsAscending(erased: seq<bool>, n: nat)
    requires n <= |erased|
    ensures Ascending(Lost(erased, n), 0, n)
    ensures forall x :: 0 <= x < |Lost(erased, n)| ==> erased[Lost(erased, n)[x]]
    ensures |Lost(erased, n)| + |Surviving(erased, n)| == n
  {
    if n > 0 {
      LostIsAscending(erased, n - 1);
    }
  }

  /** Every surviving index below `n` has a place in the list. */
  lemma {:induction false} PlaceOf(erased: seq<bool>, n: nat, i: nat) returns (x: nat)
    requires i < n <= |erased| && !erased[i]
    ensures x < |Surviving(erased, n)| && Surviving(erased, n)[x] == i
  {
    if i == n - 1 {
      x := |Surviving(erased, n - 1)|;
    } else {
      x := PlaceOf(erased, n - 1, i);
    }
  }

  /** The survivors below `n` come first, and the others are not below `n`. */
  lemma {:induction false} SurvivingPrefix(erased: seq<bool>, n: nat, m: nat)
    requires n <= m <= |erased|
    ensures |Surviving(erased, n)| <= |Surviving(erased, m)|
    ensures forall x :: 0 <= x < |Surviving(erased, n)| ==> Surviving(erased, m)[x] == Surviving(erased, n)[x]
    ensures forall x :: |Surviving(erased, n)| <= x < |Surviving(erased, m)| ==> n <= Surviving(erased, m)[x]
  {
    if n < m {
      SurvivingPrefix(erased, n, m - 1);
    }
  }

  /** The first k survivors, which the decoder reads. */
  function Chosen(erased: seq<bool>, k: nat): (ids: seq<nat>)
    requires |erased| == 2 * k && k <= |Surviving(erased, 2 * k)|
    ensures |ids| == k && Ascending(ids, 0, 2 * k)
    ensures forall x :: 0 <= x < k ==> !erased[ids[x]]
  {
    SurvivingIsAscending(erased, 2 * k);
    Surviving(erased, 2 * k)[..k]
  }

  /** The row that computes file `id` from the data: a unit row for a checkpoint, a coding row for an encoded file. */
  function FileRow(f: Field, k: nat, id: nat): (r: Row)
    requires GroupSize(k) && id < 2 * k
    ensures |r| == k
  {
    if id < k then Unit(k, id) else EncodingMatrix(f, k)[id - k]
  }

  function FileRows(f: Field, k: nat, ids: seq<nat>): (m: Matrix)
    requires GroupSize(k) && forall x :: 0 <= x < |ids| ==> ids[x] < 2 * k
    ensures |m| == |ids| && forall x :: 0 <= x < |ids| ==> m[x] == FileRow(f, k, ids[x])
  {
    seq(|ids|, x requires 0 <= x < |ids| => FileRow(f, k, ids[x]))
  }

  /** The entries of `v` at the given positions. */
  function Selected(v: Row, at: seq<nat>): (x: Row)
    requires forall i :: 0 <= i < |at| ==> at[i] < |v|
    ensures |x| == |at| && forall i :: 0 <= i < |at| ==> x[i] == v[at[i]]
  {
    seq(|at|, i requires 0 <= i < |at| => v[at[i]])
  }

  /** A sum over a vector that is zero at the survivors is a sum over the lost positions. */
  lemma {:induction false} DotSelected(f: Field, u: Row, v: Row, erased: seq<bool>, n: nat)
    requires f.IsField() && n <= |erased| && n <= |u| && n <= |v| && Ascending(Lost(erased, n), 0, n)
    requires forall i :: 0 <= i < n && !erased[i] ==> v[i] == ZERO
    ensures Dot(f, u, v, n) == Dot(f, Selected(u, Lost(erased, n)), Selected(v, Lost(erased, n)), |Lost(erased, n)|)
  {
    if n > 0 {
      LostIsAscending(erased, n - 1);
      var l, l' := Lost(erased, n - 1), Lost(erased, n);
      DotSelected(f, u, v, erased, n - 1);
      if erased[n - 1] {
        DotCongruent(f, Selected(u, l), Selected(u, l'), Selected(v, l), Selected(v, l'), |l|);
      } else {
        MulZero(f, u[n - 1]);
        AddZero(f, Dot(f, u, v, n - 1));
      }
    }
  }

  /** A kernel vector of the surviving rows is zero at every surviving checkpoint. */
  lemma {:induction false} ZeroAtSurvivors(f: Field, erased: seq<bool>, k: nat, v: Row, i: nat)
    requires f.IsField() && GroupSize(k) && |erased| == 2 * k && k <= |Surviving(erased, 2 * k)|
    requires |v| == k && Kernel(f, FileRows(f, k, Chosen(erased, k)), v)
    requires i < k && !erased[i]
    ensures v[i] == ZERO
  {
    var x := PlaceOf(erased, k, i);
    SurvivingPrefix(erased, k, 2 * k);
    LostIsAscending(erased, k);
    assert Chosen(erased, k)[x] == i;
    assert Dot(f, FileRows(f, k, Chosen(erased, k))[x], v, k) == ZERO;
    DotUnit(f, k, i, v, k);
  }

  /** The row points of the encoded files the decoder reads. */
  function CodingPoints(k: nat, ids: seq<nat>): (a: seq<Word>)
    requires GroupSize(k) && Ascending(ids, k, 2 * k)
    ensures |a| == |ids| && forall x :: 0 <= x < |ids| ==> a[x] == Point(ids[x] - k)
  {
    seq(|ids|, x requires 0 <= x < |ids| => Point(ids[x] - k))
  }

  lemma PointsDistinct(k: nat, ids: seq<nat>, lost: seq<nat>)
    requires GroupSize(k) && Ascending(ids, k, 2 * k) && Ascending(lost, 0, k)
    ensures Distinct(CodingPoints(k, ids)) && Distinct(Selected(ColumnPoints(k), lost))
    ensures Disjoint(CodingPoints(k, ids), Selected(ColumnPoints(k), lost))
  {
    var a, b := CodingPoints(k, ids), Selected(ColumnPoints(k), lost);
    forall i, j | 0 <= i < j < |a| ensures a[i] != a[j] {
      PointsDiffer(ids[i] - k, ids[j] - k);
    }
    forall i, j | 0 <= i < j < |b| ensures b[i] != b[j] {
      PointsDiffer(k + lost[i], k + lost[j]);
    }
    forall i, j | 0 <= i < |a| && 0 <= j < |b| ensures a[i] != b[j] {
      PointsDiffer(ids[i] - k, k + lost[j]);
    }
  }

  /** Each encoded file that is read gives a Cauchy equation in the lost entries. */
  lemma {:induction false} CodingEquation(f: Field, erased: seq<bool>, k: nat, v: Row, id: nat)
    requires f.IsField() && GroupSize(k) && |erased| == 2 * k && |v| == k
    requires Ascending(Lost(erased, k), 0, k)
    requires forall i :: 0 <= i < k && !erased[i] ==> v[i] == ZERO
    requires k <= id < 2 * k && Dot(f, FileRow(f, k, id), v, k) == ZERO
    ensures EquationAt(f, Point(id - k), Selected(ColumnPoints(k), Lost(erased, k)), Selected(v, Lost(erased, k)))
  {
    var lost := Lost(erased, k);
    var u := CauchyRow(f, Point(id - k), ColumnPoints(k));
    DotSelected(f, u, v, erased, k);
    assert Selected(u, lost) == CauchyRow(f, Point(id - k), Selected(ColumnPoints(k), lost));
  }

  /** The encoded files among the first k survivors. */
  function ChosenCoding(erased: seq<bool>, k: nat): (ids: seq<nat>)
    requires |erased| == 2 * k && k <= |Surviving(erased, 2 * k)|
    ensures Ascending(ids, k, 2 * k) && |ids| == |Lost(erased, k)| <= k
    ensures forall x :: 0 <= x < |ids| ==> ids[x] == Chosen(erased, k)[k - |ids| + x]
  {
    SurvivingPrefix(erased, k, 2 * k);
    LostIsAscending(erased, k);
    Chosen(erased, k)[|Surviving(erased, k)|..]
  }

  lemma {:induction false} CodingRowVanishes(f: Field, erased: seq<bool>, k: nat, v: Row, i: nat)
    requires f.IsField() && GroupSize(k) && |erased| == 2 * k && k <= |Surviving(erased, 2 * k)|
    requires |v| == k && Kernel(f, FileRows(f, k, Chosen(erased, k)), v) && i < |ChosenCoding(erased, k)|
    ensures Dot(f, FileRow(f, k, ChosenCoding(erased, k)[i]), v, k) == ZERO
  {
    var x := k - |ChosenCoding(erased, k)| + i;
    assert Dot(f, FileRows(f, k, Chosen(erased, k))[x], v, k) == ZERO;
  }

  /** A kernel vector of the surviving rows solves the Cauchy system in its lost entries. */
  lemma {:induction false} KernelSolvesSystem(f: Field, erased: seq<bool>, k: nat, v: Row)
    requires f.IsField() && GroupSize(k) && |erased| == 2 * k && k <= |Surviving(erased, 2 * k)|
    requires |v| == k && Kernel(f, FileRows(f, k, Chosen(erased, k)), v)
    requires Ascending(Lost(erased, k), 0, k)
    requires forall i :: 0 <= i < k && !erased[i] ==> v[i] == ZERO
    ensures Annihilates(f, CodingPoints(k, ChosenCoding(erased, k)), Selected(ColumnPoints(k), Lost(erased, k)),
                        Selected(v, Lost(erased, k)))
  {
    hide Kernel, EquationAt, Surviving, Lost, Chosen, ChosenCoding, Dot, FileRow, FileRows, Point, CauchyRow;
    var ids := ChosenCoding(erased, k);
    var b, x := Selected(ColumnPoints(k), Lost(erased, k)), Selected(v, Lost(erased, k));
    forall i | 0 <= i < |ids| ensures EquationAt(f, Point(ids[i] - k), b, x) {
      CodingRowVanishes(f, erased, k, v, i);
      CodingEquation(f, erased, k, v, ids[i]);
    }
  }

  lemma {:induction false} KernelIsZero(f: Field, erased: seq<bool>, k: nat, v: Row)
    requires f.IsField() && GroupSize(k) && |erased| == 2 * k && k <= |Surviving(erased, 2 * k)|
    requires |v| == k && Kernel(f, FileRows(f, k, Chosen(erased, k)), v)
    ensures !Nonzero(v)
  {
    hide Kernel, Annihilates;
    forall i | 0 <= i < k && !erased[i] ensures v[i] == ZERO {
      ZeroAtSurvivors(f, erased, k, v, i);
    }
    LostIsAscending(erased, k);
    var lost, ids := Lost(erased, k), ChosenCoding(erased, k);
    KernelSolvesSystem(f, erased, k, v);
    PointsDistinct(k, ids, lost);
    CauchyRegular(f, CodingPoints(k, ids), Selected(ColumnPoints(k), lost), Selected(v, lost));
    LostAreZero(erased, k, v, k);
  }

  lemma {:induction false} LostAreZero(erased: seq<bool>, k: nat, v: Row, n: nat)
    requires n <= k <= |erased| && |v| == k && Ascending(Lost(erased, n), 0, n)
    requires forall i :: 0 <= i < n && !erased[i] ==> v[i] == ZERO
    requires forall x :: 0 <= x < |Lost(erased, n)| ==> v[Lost(erased, n)[x]] == ZERO
    ensures forall i :: 0 <= i < n ==> v[i] == ZERO
  {
    if n > 0 {
      LostIsAscending(erased, n - 1);
      var l, l' := Lost(erased, n - 1), Lost(erased, n);
      forall x | 0 <= x < |l| ensures v[l[x]] == ZERO {
        assert l'[x] == l[x];
      }
      LostAreZero(erased, k, v, n - 1);
      if erased[n - 1] {
        assert l'[|l|] == n - 1;
      }
    }
  }

  /** Whichever files are lost, as long as k survive, the matrix of the chosen survivors is regular. */
  lemma {:induction false} SurvivorMatrixRegular(f: Field, erased: seq<bool>, k: nat)
    requires f.IsField() && GroupSize(k) && |erased| == 2 * k && k <= |Surviving(erased, 2 * k)|
    ensures !Singular(f, FileRows(f, k, Chosen(erased, k)), k)
  {
    forall v: Row | |v| == k && Kernel(f, FileRows(f, k, Chosen(erased, k)), v) ensures !Nonzero(v) {
      KernelIsZero(f, erased, k, v);
    }
  }
}
