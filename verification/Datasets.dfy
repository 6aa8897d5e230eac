/** The table of protected variables. */
module Datasets {
  import opened BlockList
  import opened Layout

  const FTI_BUFS: nat := 256

  class ProtectedVariables {
    const ids: array<int>
    const sizes: array<nat>
    var nbVar: nat

    ghost predicate Valid()
      reads this, ids, sizes
    {
      && ids.Length == sizes.Length == FTI_BUFS && nbVar <= FTI_BUFS
      && (forall i :: 0 <= i < nbVar ==> 0 <= ids[i])
      && (forall i :: nbVar <= i < FTI_BUFS ==> ids[i] == -1)
      && (forall i, j :: 0 <= i < j < nbVar ==> ids[i] != ids[j])
    }

    ghost function Contents(): (r: seq<Dataset>)
      requires Valid()
      reads this, ids, sizes
      ensures |r| == nbVar && forall p :: 0 <= p < nbVar ==> r[p] == Dataset(ids[p], sizes[p])
    {
      seq(nbVar, p requires 0 <= p < nbVar reads this, ids, sizes requires Valid() => Dataset(ids[p], sizes[p]))
    }

    constructor ()
      ensures Valid() && Contents() == [] && fresh(ids) && fresh(sizes)
    {
      ids := new int[FTI_BUFS](_ => -1);
      sizes := new nat[FTI_BUFS](_ => 0);
      nbVar := 0;
    }

    /** The index of a protected id. */
    method Find(id: nat) returns (found: bool, i: nat)
      requires Valid()
      ensures found ==> i < nbVar && ids[i] == id
      ensures !found ==> forall p :: 0 <= p < nbVar ==> ids[p] != id
    {
      found, i := false, 0;
      while i < FTI_BUFS && !found
        invariant i <= FTI_BUFS && (found ==> i < nbVar && ids[i] == id)
        invariant !found ==> forall m :: 0 <= m < i ==> ids[m] != id
        decreases FTI_BUFS - i, !found
      {
        if id == ids[i] {
          found := true;
        } else {
          i := i + 1;
        }
      }
    }

    /** A known id gets a new size; a new id gets the next index while there is room. */
    method Protect(id: nat, size: nat) returns (ok: bool)
      requires Valid()
      modifies this, ids, sizes
      ensures Valid() && Contents() == Protected(old(Contents()), id, size)
      ensures ok <==> (exists p :: 0 <= p < old(nbVar) && old(Contents())[p].id == id) || old(nbVar) < FTI_BUFS
    {
      ghost var before := Contents();
      var found, i := Find(id);
      if found {
        sizes[i] := size;
        assert before[i].id == id;
        KnownId(before, i, size);
        assert Contents() == before[i := Dataset(id, size)];
        return true;
      }
      UnknownId(before, id, size);
      if nbVar >= FTI_BUFS {
        return false;
      }
      ids[nbVar], sizes[nbVar] := id, size;
      nbVar := nbVar + 1;
      assert Contents() == before + [Dataset(id, size)];
      ok := true;
    }
  }

  /** The variables after a call for `id`. */
  function Protected(vars: seq<Dataset>, id: nat, size: nat): seq<Dataset> {
    ProtectedFrom(vars, 0, id, size)
  }

  function ProtectedFrom(vars: seq<Dataset>, i: nat, id: nat, size: nat): seq<Dataset>
    requires i <= |vars|
    decreases |vars| - i
  {
    if i == |vars| then (if |vars| < FTI_BUFS then vars + [Dataset(id, size)] else vars)
    else if vars[i].id == id then vars[i := Dataset(id, size)]
    else ProtectedFrom(vars, i + 1, id, size)
  }

  lemma {:induction false} KnownFrom(vars: seq<Dataset>, from: nat, i: nat, size: nat)
    requires from <= i < |vars| && Distinct(vars)
    ensures ProtectedFrom(vars, from, vars[i].id, size) == vars[i := Dataset(vars[i].id, size)]
    decreases i - from
  {
    if from < i {
      KnownFrom(vars, from + 1, i, size);
    }
  }

  lemma KnownId(vars: seq<Dataset>, i: nat, size: nat)
    requires i < |vars| && Distinct(vars)
    ensures Protected(vars, vars[i].id, size) == vars[i := Dataset(vars[i].id, size)]
  {
    KnownFrom(vars, 0, i, size);
  }

  lemma {:induction false} UnknownFrom(vars: seq<Dataset>, from: nat, id: nat, size: nat)
    requires from <= |vars| && forall p :: 0 <= p < |vars| ==> vars[p].id != id
    ensures ProtectedFrom(vars, from, id, size) == if |vars| < FTI_BUFS then vars + [Dataset(id, size)] else vars
    decreases |vars| - from
  {
    if from < |vars| {
      UnknownFrom(vars, from + 1, id, size);
    }
  }

  lemma UnknownId(vars: seq<Dataset>, id: nat, size: nat)
    requires forall p :: 0 <= p < |vars| ==> vars[p].id != id
    ensures Protected(vars, id, size) == if |vars| < FTI_BUFS then vars + [Dataset(id, size)] else vars
  {
    UnknownFrom(vars, 0, id, size);
  }

  /** Protecting keeps ids in place and distinct, and makes `id` have `size` while there is room. */
  lemma ProtectKeepsIds(vars: seq<Dataset>, id: nat, size: nat)
    requires Distinct(vars)
    ensures Grows(vars, Protected(vars, id, size)) && Distinct(Protected(vars, id, size))
    ensures |vars| < FTI_BUFS ==> Dataset(id, size) in Protected(vars, id, size)
  {
    if i: nat :| i < |vars| && vars[i].id == id {
      KnownId(vars, i, size);
      assert Protected(vars, id, size)[i] == Dataset(id, size);
    } else {
      UnknownId(vars, id, size);
      if |vars| < FTI_BUFS {
        assert Protected(vars, id, size)[|vars|] == Dataset(id, size);
      }
    }
  }
}
