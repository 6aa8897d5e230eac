/** The code of one head and of one application process, against the steps of the protocol. */
module HeadCalls {
  import opened HeadProtocol
  import opened HeadInvariant

  /** The counters a head keeps while it reads one round of requests. */
  function Tally(values: seq<int>, value: int): (r: nat)
    ensures r <= |values|
    ensures r == |values| <==> AllAre(values, value)
    ensures r > 0 <==> value in values
  {
    if |values| == 0 then
      0
    else
      var n := |values| - 1;
      assert values == values[..n] + [values[n]];
      Tally(values[..n], value) + if values[n] == value then 1 else 0
  }

  /** Count the requests by kind, then derive the level from the counters. */
  method CheckpointLevel(values: seq<int>, before: int) returns (level: int)
    requires |values| > 0 && forall i :: 0 <= i < |values| ==> FTI_BASE < values[i] <= FTI_REJW
    ensures level == LevelOf(values, before)
  {
    var flags := new nat[7](_ => 0);
    for i := 0 to |values|
      invariant forall k :: 0 <= k < 7 ==> flags[k] == Tally(values[..i], FTI_BASE + k)
    {
      assert values[..i + 1][..i] == values[..i];
      flags[values[i] - FTI_BASE] := flags[values[i] - FTI_BASE] + 1;
    }
    assert values[..|values|] == values;
    level := before;
    for i := 1 to 7
      invariant level ==
                if FTI_BASE < values[0] < FTI_BASE + i && AllAre(values, values[0]) then values[0] - FTI_BASE
                  else before
    {
      if flags[i] == |values| {
        level := i;
      }
    }
    if flags[6] > 0 {
      level := 6;
    }
  }

  /** The checkpoint fields of one application process. */
  class Application {
    var wasLastOffline: bool
    var ckptLvel: int
    var lastCkptLvel: int

    ghost predicate Shows(a: App)
      reads this
    {
      wasLastOffline == a.wasLastOffline && ckptLvel == a.ckptLvel && lastCkptLvel == a.lastCkptLvel
    }

    /** Receive the result of the previous checkpoint, if a head was asked for it. */
    method Collect(down: seq<int>, ghost a: App) returns (rest: seq<int>)
      requires Shows(a) && a.phase == Ready && a.down == down && (wasLastOffline ==> down != [])
      modifies this
      ensures Shows(HeadProtocol.Collect(a)) && rest == HeadProtocol.Collect(a).down
    {
      rest := down;
      if wasLastOffline {
        var lastLevel := down[0];
        rest := down[1..];
        if lastLevel != FTI_NSCS {
          lastCkptLvel := lastLevel;
        }
      }
    }

    /**
     * After the file is written: `ok` says whether that succeeded.  A head is asked, or post-processing follows; the
     * token is returned, and whether the file information is to be sent after it.
     */
    method Checkpoint(level: nat, isInline: bool, ok: bool, ftiff: bool,
                      ghost plan: Plan, ghost h: nat, ghost i: nat, ghost a: App)
      returns (requests: seq<int>, inform: bool)
      requires plan.Valid() && Shows(a) && a.phase == Writing && a.call < |plan.levels|
      requires level == plan.levels[a.call] && isInline == plan.isInline(level) && ftiff == plan.ftiff
      requires ok == Wrote(plan, h, i, a.call)
      modifies this
      ensures Shows(HeadProtocol.Checkpoint(plan, h, i, a))
      ensures Values(HeadProtocol.Checkpoint(plan, h, i, a).up) == Values(a.up) + requests
      ensures inform <==> HeadProtocol.Checkpoint(plan, h, i, a).phase == Informing
    {
      var lastCkptLvel' := ckptLvel;
      ckptLvel := level;
      requests, inform := [], false;
      if !isInline {
        wasLastOffline := true;
        var value := FTI_BASE + ckptLvel;
        if !ok {
          ckptLvel := lastCkptLvel';
          value := FTI_REJW;
        }
        requests := [value];
        inform := ftiff && value != FTI_REJW;
      } else {
        wasLastOffline := false;
        if !ok {
          ckptLvel := FTI_REJW - FTI_BASE;
        }
      }
    }

    /**
     * After inline post-processing: `res` says whether it succeeded everywhere.  It fails for the reject level, which
     * a process takes whose write failed.
     */
    method Postprocess(res: bool, ghost plan: Plan, ghost h: nat, ghost i: nat, ghost start: int, ghost a: App)
      requires Shows(a) && a.phase == Processing && CallsFit(plan, h, i, a) && h < plan.nodes && i < plan.apps
      requires a.ckptLvel == Shown(plan, h, i, a.call + 1, start)
      requires res == InlineDone(plan, a.call)
      modifies this
      ensures Shows(HeadProtocol.Postprocess(plan, a))
    {
      assert res ==> NodeWrote(plan, h, a.call) && Wrote(plan, h, i, a.call);
      if res {
        lastCkptLvel := ckptLvel;
      }
    }
  }
}
