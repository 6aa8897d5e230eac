/** Rows, dot products and matrix inversion over a field of words, after jerasure. */
module LinearAlgebra {
  import opened Fields
  import opened Words

  type Row = seq<Word>
  type Matrix = seq<Row>

  /** A square matrix of the given size. */
  ghost predicate Square(m: Matrix, n: nat) {
    |m| == n && forall i :: 0 <= i < n ==> |m[i]| == n
  }

  /** The sum of the first `n` products of `u` and `v`. */
  function Dot(f: Field, u: Row, v: Row, n: nat): Word
    requires n <= |u| && n <= |v|
  {
    if n == 0 then ZERO else f.add(Dot(f, u, v, n - 1), f.mul(u[n - 1], v[n - 1]))
  }

  function Apply(f: Field, m: Matrix, v: Row): (r: Row)
    requires forall i :: 0 <= i < |m| ==> |m[i]| == |v|
    ensures |r| == |m|
    ensures forall i :: 0 <= i < |m| ==> r[i] == Dot(f, m[i], v, |v|)
  {
    seq(|m|, i requires 0 <= i < |m| => Dot(f, m[i], v, |v|))
  }

  function Unit(n: nat, i: nat): (r: Row)
    ensures |r| == n
    ensures forall x :: 0 <= x < n ==> r[x] == if x == i then ONE else ZERO
  {
    seq(n, x => if x == i then ONE else ZERO)
  }

  function Scaled(f: Field, c: Word, u: Row): (r: Row)
    ensures |r| == |u|
    ensures forall x :: 0 <= x < |u| ==> r[x] == f.mul(u[x], c)
  {
    seq(|u|, x requires 0 <= x < |u| => f.mul(u[x], c))
  }

  /** The row `u` with `c` times the row `w` added to it. */
  function AddScaled(f: Field, u: Row, c: Word, w: Row): (r: Row)
    requires |u| == |w|
    ensures |r| == |u|
    ensures forall x :: 0 <= x < |u| ==> r[x] == f.add(u[x], f.mul(c, w[x]))
  {
    seq(|u|, x requires 0 <= x < |u| => f.add(u[x], f.mul(c, w[x])))
  }

  lemma ScaledTerm(f: Field, c: Word, sum: Word, u: Word, v: Word)
    requires f.IsField()
    ensures f.add(f.mul(c, sum), f.mul(f.mul(u, c), v)) == f.mul(c, f.add(sum, f.mul(u, v)))
  {
    MulDistributes(f, c, sum, f.mul(u, v));
    assert f.CommutesAt(u, c);
    MulAssociates(f, c, u, v);
  }

  lemma AddScaledTerm(f: Field, c: Word, sumU: Word, sumW: Word, u: Word, w: Word, v: Word)
    requires f.IsField()
    ensures f.add(f.add(sumU, f.mul(c, sumW)), f.mul(f.add(u, f.mul(c, w)), v))
         == f.add(f.add(sumU, f.mul(u, v)), f.mul(c, f.add(sumW, f.mul(w, v))))
  {
    MulDistributes(f, v, u, f.mul(c, w));
    MulAssociates(f, c, w, v);
    MulDistributes(f, c, sumW, f.mul(w, v));
    AddRegroups(f, sumU, f.mul(c, sumW), f.mul(u, v), f.mul(c, f.mul(w, v)));
  }

  lemma {:induction false} DotScaled(f: Field, c: Word, u: Row, v: Row, n: nat)
    requires f.IsField() && n <= |u| && n <= |v|
    ensures Dot(f, Scaled(f, c, u), v, n) == f.mul(c, Dot(f, u, v, n))
  {
    if n == 0 {
      MulZero(f, c);
    } else {
      DotScaled(f, c, u, v, n - 1);
      ScaledTerm(f, c, Dot(f, u, v, n - 1), u[n - 1], v[n - 1]);
    }
  }

  lemma {:induction false} DotAddScaled(f: Field, u: Row, c: Word, w: Row, v: Row, n: nat)
    requires f.IsField() && |u| == |w| && n <= |u| && n <= |v|
    ensures Dot(f, AddScaled(f, u, c, w), v, n) == f.add(Dot(f, u, v, n), f.mul(c, Dot(f, w, v, n)))
  {
    if n == 0 {
      MulZero(f, c);
      AddZero(f, ZERO);
    } else {
      DotAddScaled(f, u, c, w, v, n - 1);
      AddScaledTerm(f, c, Dot(f, u, v, n - 1), Dot(f, w, v, n - 1), u[n - 1], w[n - 1], v[n - 1]);
    }
  }

  lemma {:induction false} DotUnit(f: Field, size: nat, i: nat, v: Row, n: nat)
    requires f.IsField() && n <= size && n <= |v| && i < |v|
    ensures Dot(f, Unit(size, i), v, n) == if i < n then v[i] else ZERO
  {
    if n != 0 {
      DotUnit(f, size, i, v, n - 1);
      MulZero(f, v[n - 1]);
      MulOne(f, v[n - 1]);
      AddZero(f, ZERO);
      AddZero(f, v[i]);
    }
  }

  lemma {:induction false} DotZero(f: Field, u: Row, v: Row, n: nat)
    requires f.IsField() && n <= |u| && n <= |v|
    requires forall x :: 0 <= x < n ==> u[x] == ZERO || v[x] == ZERO
    ensures Dot(f, u, v, n) == ZERO
  {
    if n != 0 {
      DotZero(f, u, v, n - 1);
      MulZero(f, u[n - 1]);
      MulZero(f, v[n - 1]);
      AddZero(f, ZERO);
    }
  }

  lemma {:induction false} DotCongruent(f: Field, u: Row, u': Row, v: Row, v': Row, n: nat)
    requires n <= |u| && n <= |v| && n <= |u'| && n <= |v'|
    requires forall x :: 0 <= x < n ==> u[x] == u'[x] && v[x] == v'[x]
    ensures Dot(f, u, v, n) == Dot(f, u', v', n)
  {
    if n != 0 {
      DotCongruent(f, u, u', v, v', n - 1);
    }
  }

  /** The matrix maps some vector other than zero to zero. */
  ghost predicate Kernel(f: Field, m: Matrix, v: Row)
    requires forall i :: 0 <= i < |m| ==> |m[i]| == |v|
  {
    forall i :: 0 <= i < |m| ==> Dot(f, m[i], v, |v|) == ZERO
  }

  ghost predicate Nonzero(v: Row) {
    exists i :: 0 <= i < |v| && v[i] != ZERO
  }

  ghost predicate Singular(f: Field, m: Matrix, n: nat)
    requires Square(m, n)
  {
    exists v: Row :: |v| == n && Nonzero(v) && Kernel(f, m, v)
  }

  ghost predicate InvertsAt(f: Field, inv: Matrix, m: Matrix, n: nat, v: Row, i: nat)
    requires Square(inv, n) && Square(m, n) && |v| == n && i < n
  {
    Dot(f, inv[i], Apply(f, m, v), n) == v[i]
  }

  /** `inv` undoes `m` on every vector. */
  ghost predicate Inverts(f: Field, inv: Matrix, m: Matrix, n: nat)
    requires Square(inv, n) && Square(m, n)
  {
    forall v: Row, i :: |v| == n && 0 <= i < n ==> InvertsAt(f, inv, m, n, v, i)
  }

  /** Row `i` of the working matrix is row `i` of the working inverse applied after the original matrix. */
  ghost predicate TracksAt(f: Field, mat: Matrix, inv: Matrix, orig: Matrix, n: nat, i: nat, v: Row)
    requires Square(mat, n) && Square(inv, n) && Square(orig, n) && i < n && |v| == n
  {
    Dot(f, mat[i], v, n) == Dot(f, inv[i], Apply(f, orig, v), n)
  }

  ghost predicate Tracks(f: Field, mat: Matrix, inv: Matrix, orig: Matrix, n: nat)
    requires Square(mat, n) && Square(inv, n) && Square(orig, n)
  {
    forall i, v: Row :: 0 <= i < n && |v| == n ==> TracksAt(f, mat, inv, orig, n, i, v)
  }

  /** No row operation so far has enlarged the kernel. */
  ghost predicate KeepsKernel(f: Field, mat: Matrix, orig: Matrix, n: nat)
    requires Square(mat, n) && Square(orig, n)
  {
    forall v: Row :: |v| == n && Kernel(f, mat, v) ==> Kernel(f, orig, v)
  }

  lemma ScaleStep(f: Field, mat: Matrix, inv: Matrix, orig: Matrix, n: nat, i: nat, c: Word)
    requires f.IsField() && Square(mat, n) && Square(inv, n) && Square(orig, n) && i < n && c != ZERO
    requires Tracks(f, mat, inv, orig, n) && KeepsKernel(f, mat, orig, n)
    ensures Tracks(f, mat[i := Scaled(f, c, mat[i])], inv[i := Scaled(f, c, inv[i])], orig, n)
    ensures KeepsKernel(f, mat[i := Scaled(f, c, mat[i])], orig, n)
  {
    var mat', inv' := mat[i := Scaled(f, c, mat[i])], inv[i := Scaled(f, c, inv[i])];
    forall r, v: Row | 0 <= r < n && |v| == n
      ensures TracksAt(f, mat', inv', orig, n, r, v)
    {
      assert TracksAt(f, mat, inv, orig, n, r, v);
      DotScaled(f, c, mat[i], v, n);
      DotScaled(f, c, inv[i], Apply(f, orig, v), n);
    }
    forall v: Row | |v| == n && Kernel(f, mat', v)
      ensures Kernel(f, orig, v)
    {
      DotScaled(f, c, mat[i], v, n);
      assert Dot(f, mat'[i], v, n) == ZERO;
      NoZeroDivisors(f, c, Dot(f, mat[i], v, n));
      assert forall r :: 0 <= r < n && r != i ==> mat'[r] == mat[r];
      assert Kernel(f, mat, v);
    }
  }

  lemma SwapStep(f: Field, mat: Matrix, inv: Matrix, orig: Matrix, n: nat, i: nat, j: nat)
    requires f.IsField() && Square(mat, n) && Square(inv, n) && Square(orig, n) && i < n && j < n
    requires Tracks(f, mat, inv, orig, n) && KeepsKernel(f, mat, orig, n)
    ensures Tracks(f, mat[i := mat[j]][j := mat[i]], inv[i := inv[j]][j := inv[i]], orig, n)
    ensures KeepsKernel(f, mat[i := mat[j]][j := mat[i]], orig, n)
  {
    var mat', inv' := mat[i := mat[j]][j := mat[i]], inv[i := inv[j]][j := inv[i]];
    forall r, v: Row | 0 <= r < n && |v| == n
      ensures TracksAt(f, mat', inv', orig, n, r, v)
    {
      assert TracksAt(f, mat, inv, orig, n, r, v) && TracksAt(f, mat, inv, orig, n, i, v)
             && TracksAt(f, mat, inv, orig, n, j, v);
    }
    forall v: Row | |v| == n && Kernel(f, mat', v)
      ensures Kernel(f, orig, v)
    {
      assert mat'[i] == mat[j] && mat'[j] == mat[i];
      assert forall r :: 0 <= r < n && r != i && r != j ==> mat'[r] == mat[r];
      assert Kernel(f, mat, v);
    }
  }

  lemma AddKeepsKernel(f: Field, mat: Matrix, n: nat, i: nat, c: Word, j: nat, v: Row)
    requires f.IsField() && Square(mat, n) && |v| == n && i < n && j < n && i != j
    requires Kernel(f, mat[j := AddScaled(f, mat[j], c, mat[i])], v)
    ensures Kernel(f, mat, v)
  {
    var mat' := mat[j := AddScaled(f, mat[j], c, mat[i])];
    DotAddScaled(f, mat[j], c, mat[i], v, n);
    assert Dot(f, mat'[i], v, n) == ZERO && Dot(f, mat'[j], v, n) == ZERO;
    MulZero(f, c);
    AddZero(f, Dot(f, mat[j], v, n));
    assert forall r :: 0 <= r < n && r != j ==> mat'[r] == mat[r];
  }

  lemma AddStep(f: Field, mat: Matrix, inv: Matrix, orig: Matrix, n: nat, i: nat, c: Word, j: nat)
    requires f.IsField() && Square(mat, n) && Square(inv, n) && Square(orig, n) && i < n && j < n && i != j
    requires Tracks(f, mat, inv, orig, n) && KeepsKernel(f, mat, orig, n)
    ensures Tracks(f, mat[j := AddScaled(f, mat[j], c, mat[i])], inv[j := AddScaled(f, inv[j], c, inv[i])], orig, n)
    ensures KeepsKernel(f, mat[j := AddScaled(f, mat[j], c, mat[i])], orig, n)
  {
    var mat', inv' := mat[j := AddScaled(f, mat[j], c, mat[i])], inv[j := AddScaled(f, inv[j], c, inv[i])];
    forall r, v: Row | 0 <= r < n && |v| == n
      ensures TracksAt(f, mat', inv', orig, n, r, v)
    {
      assert TracksAt(f, mat, inv, orig, n, r, v) && TracksAt(f, mat, inv, orig, n, i, v);
      DotAddScaled(f, mat[j], c, mat[i], v, n);
      DotAddScaled(f, inv[j], c, inv[i], Apply(f, orig, v), n);
    }
    forall v: Row | |v| == n && Kernel(f, mat', v)
      ensures Kernel(f, orig, v)
    {
      AddKeepsKernel(f, mat, n, i, c, j, v);
    }
  }

  /** Columns below `i` hold the identity on and below the diagonal. */
  ghost predicate TriangularUpTo(mat: Matrix, n: nat, i: nat)
    requires Square(mat, n) && i <= n
  {
    && (forall c :: 0 <= c < i ==> mat[c][c] == ONE)
    && (forall c, r :: 0 <= c < i && c < r < n ==> mat[r][c] == ZERO)
  }

  /** Columns from `i` on hold the identity. */
  ghost predicate IdentityFrom(mat: Matrix, n: nat, i: nat)
    requires Square(mat, n) && i <= n
  {
    forall r, c :: 0 <= r < n && i <= c < n && r != c ==> mat[r][c] == ZERO
  }

  lemma {:induction false} DotZeroAgainstUnit(f: Field, u: Row, n: nat, i: nat)
    requires f.IsField() && |u| == n && i < n && u[i] == ZERO
    ensures Dot(f, u, Unit(n, i), n) == ZERO
  {
    DotZero(f, u, Unit(n, i), n);
  }

  lemma UpdatedTerm(f: Field, sum: Word, u: Word, v: Word, extra: Word)
    requires f.IsField()
    ensures f.mul(u, ZERO) == ZERO && f.add(sum, ZERO) == sum
    ensures f.add(f.add(sum, extra), f.mul(u, v)) == f.add(f.add(sum, f.mul(u, v)), extra)
  {
    MulZero(f, u);
    AddZero(f, sum);
    AddZero(f, f.mul(u, v));
    AddRegroups(f, sum, extra, f.mul(u, v), ZERO);
    AddZero(f, extra);
  }

  lemma {:induction false} DotUpdate(f: Field, u: Row, v: Row, i: nat, x: Word, n: nat)
    requires f.IsField() && n <= |u| && n <= |v| && i < |v| && v[i] == ZERO
    ensures Dot(f, u, v[i := x], n) == if i < n then f.add(Dot(f, u, v, n), f.mul(u[i], x)) else Dot(f, u, v, n)
  {
    if n != 0 {
      DotUpdate(f, u, v, i, x, n - 1);
      UpdatedTerm(f, Dot(f, u, v, n - 1), u[n - 1], v[n - 1], if i < n - 1 then f.mul(u[i], x) else ZERO);
    }
  }

  /** A vector with entry one at `i`, zero after it, that the rows from `r` on all map to zero. */
  ghost predicate KernelFrom(f: Field, mat: Matrix, n: nat, i: nat, r: nat, v: Row)
    requires Square(mat, n) && i < n
  {
    |v| == n && v[i] == ONE && (forall x :: 0 <= x < r <= i ==> v[x] == ZERO) &&
    (forall q :: r <= q < n ==> Dot(f, mat[q], v, n) == ZERO)
  }

  /** One step of back substitution clears row `r` and leaves the rows without an entry in column `r` alone. */
  lemma SubstituteRow(f: Field, u: Row, w: Row, r: nat, x: Word, n: nat)
    requires f.IsField() && |u| == n && |w| == n && r < n && w[r] == ZERO
    requires (u[r] == ONE && Dot(f, u, w, n) == x) || (u[r] == ZERO && Dot(f, u, w, n) == ZERO)
    ensures Dot(f, u, w[r := x], n) == ZERO
  {
    DotUpdate(f, u, w, r, x, n);
    MulZero(f, x);
    MulOne(f, x);
    AddZero(f, ZERO);
    AddZero(f, x);
  }

  /** Back substitution finds a kernel vector when no row from `i` on has a pivot in column `i`. */
  lemma {:induction false} MissingPivotGivesKernel(f: Field, mat: Matrix, n: nat, i: nat, r: nat) returns (v: Row)
    requires f.IsField() && Square(mat, n) && r <= i < n
    requires TriangularUpTo(mat, n, i) && forall q :: i <= q < n ==> mat[q][i] == ZERO
    ensures KernelFrom(f, mat, n, i, r, v)
    decreases i - r
  {
    if r == i {
      v := Unit(n, i);
      forall q | r <= q < n ensures Dot(f, mat[q], v, n) == ZERO {
        DotZeroAgainstUnit(f, mat[q], n, i);
      }
    } else {
      var w := MissingPivotGivesKernel(f, mat, n, i, r + 1);
      v := w[r := Dot(f, mat[r], w, n)];
      forall q | r <= q < n ensures Dot(f, mat[q], v, n) == ZERO {
        SubstituteRow(f, mat[q], w, r, Dot(f, mat[r], w, n), n);
      }
    }
  }

  lemma MissingPivotMeansSingular(f: Field, mat: Matrix, orig: Matrix, n: nat, i: nat)
    requires f.IsField() && Square(mat, n) && Square(orig, n) && i < n
    requires TriangularUpTo(mat, n, i) && forall q :: i <= q < n ==> mat[q][i] == ZERO
    requires KeepsKernel(f, mat, orig, n)
    ensures Singular(f, orig, n)
  {
    var v := MissingPivotGivesKernel(f, mat, n, i, 0);
    assert Nonzero(v) by { assert v[i] != ZERO; }
    assert Kernel(f, mat, v);
  }

  lemma InverseOfKernelVector(f: Field, inv: Matrix, m: Matrix, n: nat, v: Row, i: nat)
    requires f.IsField() && Square(inv, n) && Square(m, n) && |v| == n && i < n
    requires Inverts(f, inv, m, n) && Kernel(f, m, v)
    ensures v[i] == ZERO
  {
    var image := Apply(f, m, v);
    assert InvertsAt(f, inv, m, n, v, i);
    assert forall x :: 0 <= x < n ==> image[x] == ZERO;
    DotZero(f, inv[i], image, n);
  }

  lemma InvertibleIsNotSingular(f: Field, inv: Matrix, m: Matrix, n: nat)
    requires f.IsField() && Square(inv, n) && Square(m, n) && Inverts(f, inv, m, n)
    ensures !Singular(f, m, n)
  {
    forall v: Row, i | |v| == n && Kernel(f, m, v) && 0 <= i < n ensures v[i] == ZERO {
      InverseOfKernelVector(f, inv, m, n, v, i);
    }
  }

  lemma StartTracks(f: Field, m: Matrix, n: nat, id: Matrix)
    requires f.IsField() && Square(m, n) && Square(id, n) && forall i :: 0 <= i < n ==> id[i] == Unit(n, i)
    ensures Tracks(f, m, id, m, n) && KeepsKernel(f, m, m, n)
  {
    forall i, v: Row | 0 <= i < n && |v| == n ensures TracksAt(f, m, id, m, n, i, v) {
      DotUnit(f, n, i, Apply(f, m, v), n);
    }
  }

  lemma IdentityTracksInverse(f: Field, mat: Matrix, inv: Matrix, m: Matrix, n: nat)
    requires f.IsField() && Square(mat, n) && Square(inv, n) && Square(m, n)
    requires Tracks(f, mat, inv, m, n) && forall i :: 0 <= i < n ==> mat[i] == Unit(n, i)
    ensures Inverts(f, inv, m, n)
  {
    forall v: Row, i | |v| == n && 0 <= i < n ensures InvertsAt(f, inv, m, n, v, i) {
      assert TracksAt(f, mat, inv, m, n, i, v);
      DotUnit(f, n, i, v, n);
    }
  }

  lemma SwapKeepsTriangle(mat: Matrix, n: nat, i: nat, j: nat)
    requires Square(mat, n) && i < j < n && TriangularUpTo(mat, n, i)
    ensures TriangularUpTo(mat[i := mat[j]][j := mat[i]], n, i)
  {
  }

  lemma ScaleKeepsTriangle(f: Field, mat: Matrix, n: nat, i: nat, c: Word)
    requires f.IsField() && Square(mat, n) && i < n && TriangularUpTo(mat, n, i)
    ensures TriangularUpTo(mat[i := Scaled(f, c, mat[i])], n, i)
  {
    MulZero(f, c);
  }

  lemma AddKeepsTriangle(f: Field, mat: Matrix, n: nat, i: nat, j: nat)
    requires f.IsField() && Square(mat, n) && i < j < n && TriangularUpTo(mat, n, i) && mat[i][i] == ONE
    ensures TriangularUpTo(mat[j := AddScaled(f, mat[j], mat[j][i], mat[i])], n, i)
    ensures AddScaled(f, mat[j], mat[j][i], mat[i])[i] == ZERO
  {
    MulZero(f, mat[j][i]);
    MulOne(f, mat[j][i]);
    AddZero(f, ZERO);
    AddZero(f, mat[j][i]);
  }

  lemma AddClearsAbove(f: Field, mat: Matrix, n: nat, i: nat, j: nat)
    requires f.IsField() && Square(mat, n) && j < i < n && TriangularUpTo(mat, n, n) && IdentityFrom(mat, n, i + 1)
    ensures AddScaled(f, mat[j], mat[j][i], mat[i]) == mat[j][i := ZERO]
  {
    MulZero(f, mat[j][i]);
    MulOne(f, mat[j][i]);
    AddZero(f, mat[j][i]);
    forall c | 0 <= c < n && c != i ensures f.add(mat[j][c], f.mul(mat[j][i], mat[i][c])) == mat[j][c] {
      AddZero(f, mat[j][c]);
    }
  }

  lemma PivotInverse(f: Field, pivot: Word)
    requires f.IsField() && pivot != ZERO
    ensures f.inv(pivot) != ZERO && f.mul(pivot, f.inv(pivot)) == ONE
  {
    assert f.InverseAt(pivot);
    MulZero(f, pivot);
  }

  /** Brings a nonzero entry of column `i` onto the diagonal and makes it one, if some row from `i` on has one. */
  method Pivot(f: Field, mat0: Matrix, inv0: Matrix, ghost m: Matrix, n: nat, i: nat)
    returns (found: bool, mat: Matrix, inv: Matrix)
    requires f.IsField() && i < n && Square(mat0, n) && Square(inv0, n) && Square(m, n)
    requires Tracks(f, mat0, inv0, m, n) && KeepsKernel(f, mat0, m, n) && TriangularUpTo(mat0, n, i)
    ensures Square(mat, n) && Square(inv, n)
    ensures !found ==> Singular(f, m, n)
    ensures found ==> Tracks(f, mat, inv, m, n) && KeepsKernel(f, mat, m, n)
    ensures found ==> TriangularUpTo(mat, n, i) && mat[i][i] == ONE
  {
    hide Tracks, KeepsKernel, Singular;
    found, mat, inv := true, mat0, inv0;
    if mat[i][i] == ZERO {
      var j := i + 1;
      while j < n && mat[j][i] == ZERO
        invariant i < j <= n
        invariant forall q :: i <= q < j ==> mat[q][i] == ZERO
      {
        j := j + 1;
      }
      if j == n {
        MissingPivotMeansSingular(f, mat, m, n, i);
        found := false;
        return;
      }
      SwapStep(f, mat, inv, m, n, i, j);
      SwapKeepsTriangle(mat, n, i, j);
      mat, inv := mat[i := mat[j]][j := mat[i]], inv[i := inv[j]][j := inv[i]];
    }
    var pivot := mat[i][i];
    if pivot != ONE {
      var inverse := f.inv(pivot);
      PivotInverse(f, pivot);
      ScaleKeepsTriangle(f, mat, n, i, inverse);
      ScaleStep(f, mat, inv, m, n, i, inverse);
      mat, inv := mat[i := Scaled(f, inverse, mat[i])], inv[i := Scaled(f, inverse, inv[i])];
    }
  }

  /** Clears column `i` below the diagonal. */
  method EliminateBelow(f: Field, mat0: Matrix, inv0: Matrix, ghost m: Matrix, n: nat, i: nat)
    returns (mat: Matrix, inv: Matrix)
    requires f.IsField() && i < n && Square(mat0, n) && Square(inv0, n) && Square(m, n)
    requires Tracks(f, mat0, inv0, m, n) && KeepsKernel(f, mat0, m, n)
    requires TriangularUpTo(mat0, n, i) && mat0[i][i] == ONE
    ensures Square(mat, n) && Square(inv, n)
    ensures Tracks(f, mat, inv, m, n) && KeepsKernel(f, mat, m, n)
    ensures TriangularUpTo(mat, n, i + 1)
  {
    hide Tracks, KeepsKernel, Singular;
    mat, inv := mat0, inv0;
    for j := i + 1 to n
      invariant Square(mat, n) && Square(inv, n)
      invariant Tracks(f, mat, inv, m, n) && KeepsKernel(f, mat, m, n)
      invariant TriangularUpTo(mat, n, i) && mat[i][i] == ONE
      invariant forall r :: i < r < j ==> mat[r][i] == ZERO
    {
      var c := mat[j][i];
      if c != ZERO {
        AddKeepsTriangle(f, mat, n, i, j);
        AddStep(f, mat, inv, m, n, i, c, j);
        mat, inv := mat[j := AddScaled(f, mat[j], c, mat[i])], inv[j := AddScaled(f, inv[j], c, inv[i])];
      }
    }
  }

  /** Clears column `i` above the diagonal of a triangular matrix whose later columns are already clear. */
  method EliminateAbove(f: Field, mat0: Matrix, inv0: Matrix, ghost m: Matrix, n: nat, i: nat)
    returns (mat: Matrix, inv: Matrix)
    requires f.IsField() && i < n && Square(mat0, n) && Square(inv0, n) && Square(m, n)
    requires Tracks(f, mat0, inv0, m, n) && KeepsKernel(f, mat0, m, n)
    requires TriangularUpTo(mat0, n, n) && IdentityFrom(mat0, n, i + 1)
    ensures Square(mat, n) && Square(inv, n)
    ensures Tracks(f, mat, inv, m, n) && KeepsKernel(f, mat, m, n)
    ensures TriangularUpTo(mat, n, n) && IdentityFrom(mat, n, i)
  {
    hide Tracks, KeepsKernel, Singular;
    mat, inv := mat0, inv0;
    for j := 0 to i
      invariant Square(mat, n) && Square(inv, n)
      invariant Tracks(f, mat, inv, m, n) && KeepsKernel(f, mat, m, n)
      invariant TriangularUpTo(mat, n, n) && IdentityFrom(mat, n, i + 1)
      invariant forall r :: 0 <= r < j ==> mat[r][i] == ZERO
    {
      var c := mat[j][i];
      if c != ZERO {
        AddClearsAbove(f, mat, n, i, j);
        AddStep(f, mat, inv, m, n, i, c, j);
        mat, inv := mat[j := mat[j][i := ZERO]], inv[j := AddScaled(f, inv[j], c, inv[i])];
      }
    }
  }

  /** Inverts a square matrix, and fails exactly on the singular ones. */
  method InvertMatrix(f: Field, m: Matrix, n: nat) returns (ok: bool, inv: Matrix)
    requires f.IsField() && Square(m, n)
    ensures Square(inv, n)
    ensures ok ==> Inverts(f, inv, m, n)
    ensures ok <==> !Singular(f, m, n)
  {
    var mat := m;
    inv := seq(n, i requires 0 <= i => Unit(n, i));
    StartTracks(f, m, n, inv);
    for i := 0 to n
      invariant Square(mat, n) && Square(inv, n)
      invariant Tracks(f, mat, inv, m, n) && KeepsKernel(f, mat, m, n)
      invariant TriangularUpTo(mat, n, i)
    {
      ok, mat, inv := Pivot(f, mat, inv, m, n, i);
      if !ok {
        return;
      }
      mat, inv := EliminateBelow(f, mat, inv, m, n, i);
    }
    for i := n downto 0
      invariant Square(mat, n) && Square(inv, n)
      invariant Tracks(f, mat, inv, m, n) && KeepsKernel(f, mat, m, n)
      invariant TriangularUpTo(mat, n, n) && IdentityFrom(mat, n, i)
    {
      mat, inv := EliminateAbove(f, mat, inv, m, n, i);
    }
    assert forall i :: 0 <= i < n ==> mat[i] == Unit(n, i);
    IdentityTracksInverse(f, mat, inv, m, n);
    InvertibleIsNotSingular(f, inv, m, n);
    ok := true;
  }
}
