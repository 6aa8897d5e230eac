/** The first containers of the variables come in the order of the variables, over every run. */
module VariableOrder {
  import opened BlockHashes
  import opened CheckpointFile
  import opened CheckpointState
  import opened CheckpointTheorems
  import opened CheckpointRuns
  import opened Layout
  import opened LayoutInvariants
  import opened Metadata

  /** The variables below `n` have a container. */
  ghost predicate Started(es: seq<DbVar>, n: nat) {
    forall p :: 0 <= p < n ==> 0 < Containers(es, p)
  }

  /** Before the container of a variable all variables with a lower index have one. */
  ghost predicate InTurn(es: seq<DbVar>) {
    forall i :: 0 <= i < |es| ==> Started(es[..i], es[i].idx)
  }

  lemma {:induction false} CapacityNeedsContainer(es: seq<DbVar>, p: nat)
    requires 0 < Capacity(es, p)
    ensures 0 < Containers(es, p)
    decreases |es|
  {
    if es != [] && es[|es| - 1].idx != p {
      CapacityNeedsContainer(es[..|es| - 1], p);
    }
  }

  lemma {:induction false} AContainer(es: seq<DbVar>, i: nat, p: nat)
    requires i < |es| && es[i].idx == p
    ensures 0 < Containers(es, p)
    decreases |es|
  {
    if i < |es| - 1 {
      AContainer(es[..|es| - 1], i, p);
    }
  }

  lemma StartedSame(es: seq<DbVar>, es': seq<DbVar>, n: nat)
    requires SameContainers(es, es') && Started(es, n)
    ensures Started(es', n)
  {
    hide Containers;
    forall p | 0 <= p < n
      ensures 0 < Containers(es', p)
    {
      SameSums(es, es', p);
    }
  }

  lemma InTurnSame(es: seq<DbVar>, es': seq<DbVar>)
    requires SameContainers(es, es') && InTurn(es)
    ensures InTurn(es')
  {
    hide Started;
    forall i | 0 <= i < |es'|
      ensures Started(es'[..i], es'[i].idx)
    {
      assert Started(es[..i], es[i].idx);
      StartedSame(es[..i], es'[..i], es[i].idx);
    }
  }

  /** A growing variable comes after all variables below it. */
  lemma LowerStarted(es: seq<DbVar>, es': seq<DbVar>, vars: seq<Dataset>, j: nat, p: nat, end: nat, conf: DcpConf)
    requires ValidConf(conf) && GrowsAt(es, vars, j, p) && Sized(vars) && SameContainers(es, es')
    ensures j < |NewBlock(es, vars, end, conf).dbvars|
    ensures Started(es' + NewBlock(es, vars, end, conf).dbvars[..j], p)
  {
    var added := NewBlock(es, vars, end, conf).dbvars;
    assert p < |vars| && Growing(es, vars, |vars|)[j] == p;
    hide *;
    NewEntryAnywhere(es, vars, j, p, end, conf);
    forall q | 0 <= q < p
      ensures 0 < Containers(es' + added[..j], q)
    {
      SumsAppend(es', added[..j], q);
      SameSums(es, es', q);
      OneLower(es, vars, j, p, q, end, conf);
    }
    AllStarted(es' + added[..j], p);
  }

  lemma {:induction false} AllStarted(es: seq<DbVar>, n: nat)
    requires forall p :: 0 <= p < n ==> 0 < Containers(es, p)
    ensures Started(es, n)
  {
  }

  lemma {:induction false} OneLower(es: seq<DbVar>, vars: seq<Dataset>, j: nat, p: nat, q: nat, end: nat, conf: DcpConf)
    requires ValidConf(conf) && GrowsAt(es, vars, j, p) && Sized(vars) && q < p
    ensures j <= |NewBlock(es, vars, end, conf).dbvars|
    ensures 0 < Containers(es, q) + Containers(NewBlock(es, vars, end, conf).dbvars[..j], q)
  {
    var added := NewBlock(es, vars, end, conf).dbvars;
    var grow := Growing(es, vars, |vars|);
    assert p < |vars| && j < |grow| && grow[j] == p && 0 < vars[q].size;
    hide *;
    NewEntryAnywhere(es, vars, j, p, end, conf);
    if 0 < Capacity(es, q) {
      CapacityNeedsContainer(es, q);
    } else {
      var m := GrowingIndex(es, vars, |vars|, q);
      if j <= m {
        GrowingIncreases(es, vars, |vars|, j, m);
        assert false;
      }
      AGrowingVariable(es, vars, m);
      NewEntryAnywhere(es, vars, m, q, end, conf);
      AContainer(added[..j], m, q);
    }
  }

  lemma AppendedInTurn(es: seq<DbVar>, es': seq<DbVar>, vars: seq<Dataset>, end: nat, conf: DcpConf)
    requires ValidConf(conf) && SameContainers(es, es') && InTurn(es') && Sized(vars)
    ensures InTurn(es' + NewBlock(es, vars, end, conf).dbvars)
  {
    var added, grow := NewBlock(es, vars, end, conf).dbvars, Growing(es, vars, |vars|);
    NewBlockSize(es, vars, end, conf);
    hide *;
    forall i | 0 <= i < |es' + added|
      ensures Started((es' + added)[..i], (es' + added)[i].idx)
    {
      if i < |es'| {
        assert (es' + added)[..i] == es'[..i];
        TurnAt(es', i);
      } else {
        var j := i - |es'|;
        AGrowingVariable(es, vars, j);
        NewEntryAnywhere(es, vars, j, grow[j], end, conf);
        LowerStarted(es, es', vars, j, grow[j], end, conf);
        assert (es' + added)[..i] == es' + added[..j];
      }
    }
    AllInTurn(es' + added);
  }

  lemma {:induction false} UpdatedEntries(dbs: seq<Db>, vars: seq<Dataset>, conf: DcpConf)
    requires ValidConf(conf) && ResizableBlocks(dbs, vars, conf) && Resizable(Entries(dbs), vars, conf)
    ensures Entries(Updated(dbs, vars, conf)) == ResizeAll(Entries(dbs), vars, conf) +
            if Growing(Entries(dbs), vars, |vars|) == [] then []
              else NewBlock(Entries(dbs), vars, End(dbs), conf).dbvars
  {
    hide Growing, NewBlock, Resizable, End, ResizeBlocks, ResizeAll;
    ResizedEntries(dbs, vars, conf);
    var resized := ResizeBlocks(dbs, vars, conf);
    if Growing(Entries(dbs), vars, |vars|) != [] {
      assert (resized + [NewBlock(Entries(dbs), vars, End(dbs), conf)])[..|resized|] == resized;
    }
  }

  /** An update keeps the order. */
  lemma {:induction false} UpdateKeepsOrder(dbs: seq<Db>, vars: seq<Dataset>, conf: DcpConf)
    requires ValidConf(conf) && ResizableBlocks(dbs, vars, conf) && Resizable(Entries(dbs), vars, conf)
    requires InTurn(Entries(dbs)) && Sized(vars)
    ensures InTurn(Entries(Updated(dbs, vars, conf)))
  {
    hide *;
    var es, es' := Entries(dbs), ResizeAll(Entries(dbs), vars, conf);
    UpdatedEntries(dbs, vars, conf);
    ResizedContainers(es, vars, conf);
    InTurnSame(es, es');
    AppendedInTurn(es, es', vars, End(dbs), conf);
    assert es' + [] == es';
  }

  lemma TurnAt(es: seq<DbVar>, i: nat)
    requires InTurn(es) && i < |es|
    ensures Started(es[..i], es[i].idx)
  {
  }

  lemma AllInTurn(es: seq<DbVar>)
    requires forall i :: 0 <= i < |es| ==> Started(es[..i], es[i].idx)
    ensures InTurn(es)
  {
  }

  lemma CheckpointKeepsOrder(h: Hashing, conf: DcpConf, s: State, prev: seq<Variable>, vars: seq<Variable>,
                             meta: FileRecord)
    requires ValidConf(conf) && LayoutOk(s.dbs, Sizes(prev), conf) && Grows(Sizes(prev), Sizes(vars))
    requires InTurn(Entries(s.dbs)) && Sized(Sizes(vars))
    ensures ResizableBlocks(s.dbs, Sizes(vars), conf) && InTurn(Entries(Checkpointed(h, conf, s, vars, meta).dbs))
  {
    UpdateKeepsLayout(s.dbs, Sizes(prev), Sizes(vars), conf);
    AllResizable(Entries(s.dbs), Sizes(prev), Sizes(vars), conf);
    var dbs := Updated(s.dbs, Sizes(vars), conf);
    CheckpointedBlocks(h, conf, s, vars, meta);
    hide *;
    UpdateKeepsOrder(s.dbs, Sizes(vars), conf);
    FinishedBlocksSame(h, conf, vars, dbs);
    SameEntries(dbs, FinishedBlocks(h, conf, vars, dbs), conf);
    SameContainersOf(Entries(dbs), Entries(FinishedBlocks(h, conf, vars, dbs)), conf);
    InTurnSame(Entries(dbs), Entries(FinishedBlocks(h, conf, vars, dbs)));
  }

  /** In every run the variables appear in the file in their order. */
  lemma {:induction false} RunKeepsOrder(h: Hashing, conf: DcpConf, states: seq<State>, run: seq<Checkpoint>, t: nat)
    requires ValidConf(conf) && ValidHashing(h) && Run(h, conf, states, run) && t <= |run|
    ensures InTurn(Entries(states[t].dbs))
    decreases t
  {
    hide Saved, Ready, InTurn, LayoutOk, Checkpointed, Collisionless, ResizableBlocks, AlwaysWritten;
    if t == 0 {
      NoEntriesInTurn();
    } else {
      RunKeepsOrder(h, conf, states, run, t - 1);
      RunInvariant(h, conf, states, run, t - 1);
      assert Step(h, conf, states, run, t - 1);
      CheckpointKeepsOrder(h, conf, State(states[t - 1].dbs, run[t - 1].start), Before(run, t - 1), run[t - 1].vars,
                           run[t - 1].meta);
    }
  }

  lemma NoEntriesInTurn()
    ensures InTurn(Entries([]))
  {
  }
}
