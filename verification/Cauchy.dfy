/** Square Cauchy systems have only the zero solution, over every field of characteristic two. */
module Cauchy {
  import opened Fields
  import opened LinearAlgebra
  import opened Words

  ghost predicate Distinct(s: seq<Word>) {
    forall i, j :: 0 <= i < j < |s| ==> s[i] != s[j]
  }

  ghost predicate Disjoint(s: seq<Word>, t: seq<Word>) {
    forall i, j :: 0 <= i < |s| && 0 <= j < |t| ==> s[i] != t[j]
  }

  /** The row with row point `p` of the Cauchy matrix with column points `b`. */
  function CauchyRow(f: Field, p: Word, b: seq<Word>): (r: Row)
    ensures |r| == |b|
    ensures forall j :: 0 <= j < |b| ==> r[j] == f.inv(f.add(p, b[j]))
  {
    seq(|b|, j requires 0 <= j < |b| => f.inv(f.add(p, b[j])))
  }

  /** The equation of row point `p` in the unknowns `x`. */
  ghost predicate EquationAt(f: Field, p: Word, b: seq<Word>, x: Row)
    requires |x| == |b|
  {
    Dot(f, CauchyRow(f, p, b), x, |b|) == ZERO
  }

  /** `x` solves one equation for each row point in `a`. */
  ghost predicate Annihilates(f: Field, a: seq<Word>, b: seq<Word>, x: Row)
    requires |x| == |b|
  {
    forall i :: 0 <= i < |a| ==> EquationAt(f, a[i], b, x)
  }

  lemma AddShifts(f: Field, p: Word, q: Word, b: Word, c: Word)
    requires f.IsField()
    ensures f.add(p, c) == f.add(f.add(p, b), f.add(b, c))
    ensures f.add(p, q) == f.add(f.add(p, b), f.add(q, b))
  {
    assert f.AddAssociatesAt(p, b, f.add(b, c)) && f.AddAssociatesAt(b, b, c);
    AddZero(f, b);
    AddZero(f, c);
    AddRegroups(f, p, b, q, b);
    AddZero(f, f.add(p, q));
  }

  /** `(p + d) * (1/p) == 1 + d/p`. */
  lemma ShiftedQuotient(f: Field, p: Word, d: Word)
    requires f.IsField() && p != ZERO
    ensures f.mul(f.add(p, d), f.inv(p)) == f.add(ONE, f.mul(d, f.inv(p)))
  {
    MulDistributes(f, f.inv(p), p, d);
    assert f.InverseAt(p);
  }

  /** `1/p + 1/q == (p + q) * (1/q) * (1/p)`. */
  lemma SumOfInverses(f: Field, p: Word, q: Word)
    requires f.IsField() && p != ZERO && q != ZERO
    ensures f.add(f.inv(p), f.inv(q)) == f.mul(f.add(p, q), f.mul(f.inv(q), f.inv(p)))
  {
    var u, v := f.inv(p), f.inv(q);
    MulDistributes(f, f.mul(v, u), p, q);
    calc {
      f.mul(p, f.mul(v, u));
      { MulAssociates(f, p, v, u); assert f.InverseAt(p); MulOne(f, v); }
      v;
    }
    calc {
      f.mul(q, f.mul(v, u));
      { MulAssociates(f, q, v, u); assert f.InverseAt(q); MulOne(f, u); }
      u;
    }
    assert f.AddCommutesAt(u, v);
  }

  /** The unknown of column `b` in the system with row point `ar` and column point `bc` eliminated. */
  function Reduced(f: Field, ar: Word, bc: Word, b: Word, x: Word): Word {
    f.mul(x, f.mul(f.add(b, bc), f.inv(f.add(ar, b))))
  }

  /** Combining two equations eliminates column `bc`, and every other column keeps the Cauchy form. */
  lemma CombineTerm(f: Field, ai: Word, ar: Word, b: Word, bc: Word, x: Word)
    requires f.IsField() && ai != b && ar != b
    ensures f.add(f.mul(f.add(ai, bc), f.mul(f.inv(f.add(ai, b)), x)),
                  f.mul(f.add(ar, bc), f.mul(f.inv(f.add(ar, b)), x)))
         == f.mul(f.add(ai, ar), f.mul(f.inv(f.add(ai, b)), Reduced(f, ar, bc, b, x)))
  {
    AddCancels(f, ai, b);
    AddCancels(f, ar, b);
    AddShifts(f, ai, ar, b, bc);
    AddShifts(f, ar, ai, b, bc);
    CombineTermAt(f, f.add(ai, b), f.add(ar, b), f.add(b, bc), x);
  }

  lemma CombineTermAt(f: Field, p: Word, q: Word, d: Word, x: Word)
    requires f.IsField() && p != ZERO && q != ZERO
    ensures f.add(f.mul(f.add(p, d), f.mul(f.inv(p), x)), f.mul(f.add(q, d), f.mul(f.inv(q), x)))
         == f.mul(f.add(p, q), f.mul(f.inv(p), f.mul(x, f.mul(d, f.inv(q)))))
  {
    var u, v := f.inv(p), f.inv(q);
    calc {
      f.add(f.mul(f.add(p, d), f.mul(u, x)), f.mul(f.add(q, d), f.mul(v, x)));
      { MulAssociates(f, f.add(p, d), u, x); MulAssociates(f, f.add(q, d), v, x); }
      f.add(f.mul(f.mul(f.add(p, d), u), x), f.mul(f.mul(f.add(q, d), v), x));
      { MulDistributes(f, x, f.mul(f.add(p, d), u), f.mul(f.add(q, d), v)); }
      f.mul(f.add(f.mul(f.add(p, d), u), f.mul(f.add(q, d), v)), x);
      { ShiftedQuotient(f, p, d); ShiftedQuotient(f, q, d); }
      f.mul(f.add(f.add(ONE, f.mul(d, u)), f.add(ONE, f.mul(d, v))), x);
      {
        AddRegroups(f, ONE, f.mul(d, u), ONE, f.mul(d, v));
        AddZero(f, ONE);
        AddZero(f, f.add(f.mul(d, u), f.mul(d, v)));
      }
      f.mul(f.add(f.mul(d, u), f.mul(d, v)), x);
      { MulDistributes(f, d, u, v); }
      f.mul(f.mul(d, f.add(u, v)), x);
      { SumOfInverses(f, p, q); }
      f.mul(f.mul(d, f.mul(f.add(p, q), f.mul(v, u))), x);
      { Rearrange(f, d, f.add(p, q), v, u, x); }
      f.mul(f.add(p, q), f.mul(u, f.mul(x, f.mul(d, v))));
    }
  }

  lemma Rearrange(f: Field, d: Word, s: Word, v: Word, u: Word, x: Word)
    requires f.IsField()
    ensures f.mul(f.mul(d, f.mul(s, f.mul(v, u))), x) == f.mul(s, f.mul(u, f.mul(x, f.mul(d, v))))
  {
    calc {
      f.mul(f.mul(d, f.mul(s, f.mul(v, u))), x);
      { MulAssociates(f, d, s, f.mul(v, u)); }
      f.mul(f.mul(s, f.mul(d, f.mul(v, u))), x);
      { MulAssociates(f, s, f.mul(d, f.mul(v, u)), x); }
      f.mul(s, f.mul(f.mul(d, f.mul(v, u)), x));
      { MulAssociates(f, d, v, u); assert f.CommutesAt(f.mul(d, v), u); }
      f.mul(s, f.mul(f.mul(u, f.mul(d, v)), x));
      { MulAssociates(f, u, f.mul(d, v), x); assert f.CommutesAt(f.mul(d, v), x); }
      f.mul(s, f.mul(u, f.mul(x, f.mul(d, v))));
    }
  }

  /** The unknowns of the reduced system. */
  function ReducedVector(f: Field, ar: Word, bc: Word, b: seq<Word>, x: Row): (y: Row)
    requires |x| == |b|
    ensures |y| == |b|
    ensures forall j :: 0 <= j < |b| ==> y[j] == Reduced(f, ar, bc, b[j], x[j])
  {
    seq(|b|, j requires 0 <= j < |b| => Reduced(f, ar, bc, b[j], x[j]))
  }

  lemma {:induction false} CombineSum(f: Field, ai: Word, ar: Word, b: seq<Word>, bc: Word, x: Row, n: nat)
    requires f.IsField() && |x| == |b| && n <= |b|
    requires forall j :: 0 <= j < n ==> ai != b[j] && ar != b[j]
    ensures f.add(f.mul(f.add(ai, bc), Dot(f, CauchyRow(f, ai, b), x, n)),
                  f.mul(f.add(ar, bc), Dot(f, CauchyRow(f, ar, b), x, n)))
         == f.mul(f.add(ai, ar), Dot(f, CauchyRow(f, ai, b), ReducedVector(f, ar, bc, b, x), n))
  {
    if n == 0 {
      MulZero(f, f.add(ai, bc));
      MulZero(f, f.add(ar, bc));
      MulZero(f, f.add(ai, ar));
      AddZero(f, ZERO);
    } else {
      var j := n - 1;
      CombineSum(f, ai, ar, b, bc, x, j);
      CombineTerm(f, ai, ar, b[j], bc, x[j]);
      CombineNext(f, f.add(ai, bc), f.add(ar, bc), f.add(ai, ar),
                  Dot(f, CauchyRow(f, ai, b), x, j), f.mul(f.inv(f.add(ai, b[j])), x[j]),
                  Dot(f, CauchyRow(f, ar, b), x, j), f.mul(f.inv(f.add(ar, b[j])), x[j]),
                  Dot(f, CauchyRow(f, ai, b), ReducedVector(f, ar, bc, b, x), j),
                  f.mul(f.inv(f.add(ai, b[j])), Reduced(f, ar, bc, b[j], x[j])));
    }
  }

  /** The relation `c1*s1 + c2*s2 == c3*s3` is additive. */
  lemma CombineNext(f: Field, c1: Word, c2: Word, c3: Word, s1: Word, t1: Word, s2: Word, t2: Word, s3: Word, t3: Word)
    requires f.IsField()
    requires f.add(f.mul(c1, s1), f.mul(c2, s2)) == f.mul(c3, s3)
    requires f.add(f.mul(c1, t1), f.mul(c2, t2)) == f.mul(c3, t3)
    ensures f.add(f.mul(c1, f.add(s1, t1)), f.mul(c2, f.add(s2, t2))) == f.mul(c3, f.add(s3, t3))
  {
    MulDistributes(f, c1, s1, t1);
    MulDistributes(f, c2, s2, t2);
    MulDistributes(f, c3, s3, t3);
    AddRegroups(f, f.mul(c1, s1), f.mul(c1, t1), f.mul(c2, s2), f.mul(c2, t2));
  }

  /** In an equation, the other columns scaled by the last denominator sum to the last unknown. */
  lemma {:induction false} LastTerm(f: Field, p: Word, b: seq<Word>, x: Row)
    requires f.IsField() && 0 < |b| == |x| && p != b[|b| - 1] && EquationAt(f, p, b, x)
    ensures f.mul(f.add(p, b[|b| - 1]), Dot(f, CauchyRow(f, p, b), x, |b| - 1)) == x[|b| - 1]
  {
    var n := |b| - 1;
    var d := f.add(p, b[n]);
    AddCancels(f, p, b[n]);
    AddCancels(f, Dot(f, CauchyRow(f, p, b), x, n), f.mul(f.inv(d), x[n]));
    MulAssociates(f, d, f.inv(d), x[n]);
    assert f.InverseAt(d);
    MulOne(f, x[n]);
  }

  /** Two solved equations, combined, solve the equation of the reduced system. */
  lemma {:induction false} ReducedEquation(f: Field, ai: Word, ar: Word, b: seq<Word>, x: Row)
    requires f.IsField() && 0 < |b| == |x| && ai != ar
    requires forall j :: 0 <= j < |b| ==> ai != b[j] && ar != b[j]
    requires EquationAt(f, ai, b, x) && EquationAt(f, ar, b, x)
    ensures var n := |b| - 1; Dot(f, CauchyRow(f, ai, b), ReducedVector(f, ar, b[n], b, x), n) == ZERO
  {
    var n := |b| - 1;
    CombineSum(f, ai, ar, b, b[n], x, n);
    LastTerm(f, ai, b, x);
    LastTerm(f, ar, b, x);
    AddZero(f, x[n]);
    AddCancels(f, ai, ar);
    NoZeroDivisors(f, f.add(ai, ar), Dot(f, CauchyRow(f, ai, b), ReducedVector(f, ar, b[n], b, x), n));
  }

  /** Dropping the last column does not change a sum over the columns before it. */
  lemma {:induction false} DropLastColumn(f: Field, ai: Word, ar: Word, bc: Word, b: seq<Word>, x: Row, n: nat)
    requires n <= |b| == |x|
    ensures Dot(f, CauchyRow(f, ai, b), ReducedVector(f, ar, bc, b, x), n)
         == Dot(f, CauchyRow(f, ai, b[..n]), ReducedVector(f, ar, bc, b[..n], x[..n]), n)
  {
    var u, v := CauchyRow(f, ai, b), ReducedVector(f, ar, bc, b, x);
    var u', v' := CauchyRow(f, ai, b[..n]), ReducedVector(f, ar, bc, b[..n], x[..n]);
    forall j | 0 <= j < n ensures u[j] == u'[j] && v[j] == v'[j] {
      assert b[..n][j] == b[j] && x[..n][j] == x[j];
    }
    DotCongruent(f, u, u', v, v', n);
  }

  /** With the last row and column points taken away, the reduced vector still solves every other equation. */
  lemma ReducedRow(f: Field, a: seq<Word>, b: seq<Word>, x: Row, i: nat)
    requires f.IsField() && 0 < |a| == |b| == |x| && i < |a| - 1
    requires Distinct(a) && Disjoint(a, b) && Annihilates(f, a, b, x)
    ensures var n := |a| - 1; EquationAt(f, a[i], b[..n], ReducedVector(f, a[n], b[n], b[..n], x[..n]))
  {
    var n := |a| - 1;
    assert EquationAt(f, a[i], b, x) && EquationAt(f, a[n], b, x);
    assert a[i] != a[n] && forall j :: 0 <= j < |b| ==> a[i] != b[j] && a[n] != b[j];
    hide Distinct, Disjoint, Annihilates, EquationAt;
    ReducedEquation(f, a[i], a[n], b, x);
    DropLastColumn(f, a[i], a[n], b[n], b, x, n);
    EquationIs(f, a[i], b[..n], ReducedVector(f, a[n], b[n], b[..n], x[..n]));
  }

  lemma {:induction false} EquationIs(f: Field, p: Word, b: seq<Word>, x: Row)
    requires f.IsField() && |b| == |x|
    ensures EquationAt(f, p, b, x) <==> Dot(f, CauchyRow(f, p, b), x, |b|) == ZERO
  {
  }

  lemma ReducedIsZero(f: Field, ar: Word, bc: Word, b: Word, x: Word)
    requires f.IsField() && ar != b && b != bc && Reduced(f, ar, bc, b, x) == ZERO
    ensures x == ZERO
  {
    AddCancels(f, ar, b);
    AddCancels(f, b, bc);
    PivotInverse(f, f.add(ar, b));
    NoZeroDivisors(f, x, f.mul(f.add(b, bc), f.inv(f.add(ar, b))));
    if x != ZERO {
      NoZeroDivisors(f, f.add(b, bc), f.inv(f.add(ar, b)));
    }
  }

  /** If every unknown but the last is zero, so is the last. */
  lemma LastIsZero(f: Field, p: Word, b: seq<Word>, x: Row)
    requires f.IsField() && 0 < |b| == |x| && p != b[|b| - 1] && EquationAt(f, p, b, x)
    requires forall j :: 0 <= j < |b| - 1 ==> x[j] == ZERO
    ensures x[|b| - 1] == ZERO
  {
    LastTerm(f, p, b, x);
    DotZero(f, CauchyRow(f, p, b), x, |b| - 1);
    MulZero(f, f.add(p, b[|b| - 1]));
  }

  /** A square Cauchy system has only the zero solution. */
  lemma {:induction false} CauchyRegular(f: Field, a: seq<Word>, b: seq<Word>, x: Row)
    requires f.IsField() && |a| == |b| == |x|
    requires Distinct(a) && Distinct(b) && Disjoint(a, b) && Annihilates(f, a, b, x)
    ensures forall j :: 0 <= j < |x| ==> x[j] == ZERO
  {
    if |a| > 0 {
      var n := |a| - 1;
      var y := ReducedVector(f, a[n], b[n], b[..n], x[..n]);
      forall i | 0 <= i < n ensures EquationAt(f, a[..n][i], b[..n], y) {
        ReducedRow(f, a, b, x, i);
      }
      CauchyRegular(f, a[..n], b[..n], y);
      forall j | 0 <= j < n ensures x[j] == ZERO {
        assert y[j] == ZERO;
        ReducedIsZero(f, a[n], b[n], b[j], x[j]);
      }
      LastIsZero(f, a[n], b, x);
    }
  }
}
