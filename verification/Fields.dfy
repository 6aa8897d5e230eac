/** Fields of characteristic two on 16-bit words, as the Reed-Solomon code uses them. */
module Fields {
  import opened Words

  const ZERO: Word := 0
  const ONE: Word := 1

  /**
   * The operations of a candidate field on 16-bit words.  Each law is a predicate on given elements, so that a proof
   * chooses the instances it needs.
   */
  datatype Field = Field(add: (Word, Word) -> Word, mul: (Word, Word) -> Word, inv: Word -> Word) {
    ghost predicate AddCommutesAt(a: Word, b: Word) {
      add(a, b) == add(b, a)
    }

    ghost predicate AddAssociatesAt(a: Word, b: Word, c: Word) {
      add(add(a, b), c) == add(a, add(b, c))
    }

    /** Zero is neutral and every element is its own negative. */
    ghost predicate CharacteristicTwoAt(a: Word) {
      add(a, ZERO) == a && add(a, a) == ZERO
    }

    ghost predicate CommutesAt(a: Word, b: Word) {
      mul(a, b) == mul(b, a)
    }

    ghost predicate AssociatesAt(a: Word, b: Word, c: Word) {
      mul(mul(a, b), c) == mul(a, mul(b, c))
    }

    ghost predicate DistributesAt(a: Word, b: Word, c: Word) {
      mul(a, add(b, c)) == add(mul(a, b), mul(a, c))
    }

    ghost predicate UnitAt(a: Word) {
      mul(ONE, a) == a
    }

    ghost predicate InverseAt(a: Word) {
      a != ZERO ==> mul(a, inv(a)) == ONE
    }

    ghost predicate IsField() {
      && (forall a, b :: AddCommutesAt(a, b))
      && (forall a, b, c :: AddAssociatesAt(a, b, c))
      && (forall a :: CharacteristicTwoAt(a))
      && (forall a, b :: CommutesAt(a, b))
      && (forall a, b, c :: AssociatesAt(a, b, c))
      && (forall a, b, c :: DistributesAt(a, b, c))
      && (forall a :: UnitAt(a))
      && (forall a :: InverseAt(a))
    }
  }

  lemma AddZero(f: Field, a: Word)
    requires f.IsField()
    ensures f.add(a, ZERO) == a && f.add(ZERO, a) == a && f.add(a, a) == ZERO
  {
    assert f.CharacteristicTwoAt(a) && f.AddCommutesAt(a, ZERO);
  }

  lemma AddCancels(f: Field, a: Word, b: Word)
    requires f.IsField()
    ensures f.add(a, b) == ZERO <==> a == b
    ensures f.add(f.add(a, b), b) == a
  {
    assert f.AddAssociatesAt(a, b, b);
    AddZero(f, a);
    AddZero(f, b);
  }

  lemma AddRegroups(f: Field, a: Word, b: Word, c: Word, d: Word)
    requires f.IsField()
    ensures f.add(f.add(a, b), f.add(c, d)) == f.add(f.add(a, c), f.add(b, d))
  {
    assert f.AddAssociatesAt(a, b, f.add(c, d)) && f.AddAssociatesAt(a, c, f.add(b, d));
    assert f.AddAssociatesAt(b, c, d) && f.AddAssociatesAt(c, b, d) && f.AddCommutesAt(b, c);
  }

  lemma MulZero(f: Field, a: Word)
    requires f.IsField()
    ensures f.mul(a, ZERO) == ZERO && f.mul(ZERO, a) == ZERO
  {
    assert f.DistributesAt(a, ZERO, ZERO) && f.CommutesAt(a, ZERO);
    AddZero(f, ZERO);
    AddZero(f, f.mul(a, ZERO));
  }

  lemma MulOne(f: Field, a: Word)
    requires f.IsField()
    ensures f.mul(a, ONE) == a && f.mul(ONE, a) == a
  {
    assert f.UnitAt(a) && f.CommutesAt(a, ONE);
  }

  lemma MulDistributes(f: Field, a: Word, b: Word, c: Word)
    requires f.IsField()
    ensures f.mul(a, f.add(b, c)) == f.add(f.mul(a, b), f.mul(a, c))
    ensures f.mul(f.add(b, c), a) == f.add(f.mul(b, a), f.mul(c, a))
  {
    assert f.DistributesAt(a, b, c);
    assert f.CommutesAt(b, a) && f.CommutesAt(c, a) && f.CommutesAt(f.add(b, c), a);
  }

  lemma MulAssociates(f: Field, a: Word, b: Word, c: Word)
    requires f.IsField()
    ensures f.mul(f.mul(a, b), c) == f.mul(a, f.mul(b, c))
    ensures f.mul(a, f.mul(b, c)) == f.mul(b, f.mul(a, c))
  {
    assert f.AssociatesAt(a, b, c) && f.CommutesAt(a, b) && f.AssociatesAt(b, a, c);
  }

  /** There are no zero divisors. */
  lemma NoZeroDivisors(f: Field, a: Word, b: Word)
    requires f.IsField() && f.mul(a, b) == ZERO
    ensures a == ZERO || b == ZERO
  {
    if a != ZERO {
      assert f.InverseAt(a) && f.CommutesAt(a, f.inv(a));
      MulAssociates(f, f.inv(a), a, b);
      MulZero(f, f.inv(a));
      MulOne(f, b);
    }
  }
}
