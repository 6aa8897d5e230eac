/** The staging requests of an application process: a dense array of requests and a look-up table by ID. */
module StageTable {
  import opened StageFields

  /** The IDs without the one at position `i`, in the same order. */
  function Without(ids: seq<nat>, i: nat): (r: seq<nat>)
    requires i < |ids|
    ensures |r| == |ids| - 1
    ensures forall m :: 0 <= m < |r| ==> r[m] == if m < i then ids[m] else ids[m + 1]
  {
    ids[..i] + ids[i + 1..]
  }

  ghost predicate Distinct(ids: seq<nat>) {
    forall i, j :: 0 <= i < j < |ids| ==> ids[i] != ids[j]
  }

  /** Distinct numbers below `n` are at most `n`. */
  lemma {:induction false} DistinctBelow(ids: seq<nat>, n: nat)
    requires Distinct(ids) && forall i :: 0 <= i < |ids| ==> ids[i] < n
    ensures |ids| <= n
    decreases n
  {
    if ids != [] {
      assert ids[0] < n;
      if i: nat :| i < |ids| && ids[i] == n - 1 {
        DistinctBelow(Without(ids, i), n - 1);
      } else {
        DistinctBelow(ids, n - 1);
      }
    }
  }

  class RequestTable {
    const idxRequest: array<nat>
    var request: seq<nat>

    /**
     * The table and the array agree: an ID is flagged exactly if the array has a request for it, its index is the
     * position of the request, and no ID has two requests.
     */
    ghost predicate Valid()
      reads this, idxRequest
    {
      && idxRequest.Length == MAX_NUM && Distinct(request) && |request| <= MAX_NUM
      && (forall i :: 0 <= i < |request| ==> request[i] < MAX_NUM)
      && (forall id :: 0 <= id < MAX_NUM ==> WordOk(idxRequest[id], id, request, |request|))
    }

    constructor ()
      ensures Valid() && request == [] && fresh(idxRequest)
    {
      idxRequest := new nat[MAX_NUM](_ => 0);
      request := [];
    }

    /** The index of a request, or -1. */
    method GetRequestIdx(id: nat) returns (idx: int)
      requires Valid() && id < MAX_NUM
      ensures id in request ==> 0 <= idx < |request| && request[idx] == id
      ensures id !in request ==> idx == -1
    {
      hide GetAll, GetIdx;
      assert WordOk(idxRequest[id], id, request, |request|);
      idx := if GetAll(idxRequest[id]) == 1 then GetIdx(idxRequest[id]) else -1;
    }

    /** Appends a request for an ID that has none. */
    method InitStageRequestApp(id: nat) returns (ok: bool)
      requires Valid() && (id <= MAX_ID ==> id !in request)
      modifies this, idxRequest
      ensures ok <==> id <= MAX_ID
      ensures Valid() && request == if ok then old(request) + [id] else old(request)
    {
      hide GetAll, GetIdx, SetAll, SetIdx;
      if id > MAX_ID {
        return false;
      }
      DistinctBelow(request + [id], MAX_NUM);
      var idx := |request|;
      assert WordOk(idxRequest[id], id, request, |request|);
      TableFieldLaws(idxRequest[id], 1, idx);
      TableFieldLaws(SetAll(idxRequest[id], 1), 1, idx);
      ghost var words := idxRequest[..];
      idxRequest[id] := SetAll(idxRequest[id], 1);
      idxRequest[id] := SetIdx(idxRequest[id], idx);
      request := request + [id];
      forall other | 0 <= other < MAX_NUM
        ensures WordOk(idxRequest[other], other, request, |request|)
      {
        if other != id {
          assert WordOk(words[other], other, old(request), idx);
        }
      }
      ok := true;
    }

    /** Corrects the indices of the requests that moved forward over the gap at `idx`. */
    method Reindex(id: nat, idx: nat)
      requires idxRequest.Length == MAX_NUM && idx <= |request| <= MAX_NUM && Distinct(request) && id < MAX_NUM
      requires forall i :: 0 <= i < |request| ==> request[i] < MAX_NUM && request[i] != id
      requires forall other :: 0 <= other < MAX_NUM && other != id ==> WordOk(idxRequest[other], other, request, idx)
      modifies idxRequest
      ensures forall other :: 0 <= other < MAX_NUM && other != id ==>
              WordOk(idxRequest[other], other, request, |request|)
      ensures idxRequest[id] == old(idxRequest[id])
    {
      hide WordOk;
      var i := idx;
      while i < |request|
        invariant idx <= i <= |request| && idxRequest[id] == old(idxRequest[id])
        invariant forall other :: 0 <= other < MAX_NUM && other != id ==> WordOk(idxRequest[other], other, request, i)
      {
        var moved := request[i];
        ghost var words := idxRequest[..];
        idxRequest[moved] := SetIdx(idxRequest[moved], i);
        forall other | 0 <= other < MAX_NUM && other != id
          ensures WordOk(idxRequest[other], other, request, i + 1)
        {
          assert WordOk(words[other], other, request, i);
          OneMoved(words[other], other, request, i);
        }
        i := i + 1;
      }
    }

    /** Removes the request of an ID if there is one, and keeps the others in order. */
    method FreeStageRequest(id: nat)
      requires Valid() && id < MAX_NUM
      modifies this, idxRequest
      ensures Valid() && id !in request
      ensures id !in old(request) ==> request == old(request)
      ensures forall i :: 0 <= i < |old(request)| && old(request)[i] == id ==> request == Without(old(request), i)
    {
      hide GetAll, GetIdx, SetAll, WordOk;
      assert WordOk(idxRequest[id], id, request, |request|);
      WordFacts(idxRequest[id], id, request);
      if GetAll(idxRequest[id]) == 0 {
        return;
      }
      var idx := GetIdx(idxRequest[id]);
      ghost var before := request;
      request := Without(request, idx);
      forall other | 0 <= other < MAX_NUM && other != id
        ensures WordOk(idxRequest[other], other, request, idx)
      {
        assert WordOk(idxRequest[other], other, before, |before|);
        OneRemoved(idxRequest[other], other, before, idx);
      }
      Reindex(id, idx);
      FlagCleared(idxRequest[id], id, request);
      ghost var words := idxRequest[..];
      idxRequest[id] := SetAll(idxRequest[id], 0);
      forall other | 0 <= other < MAX_NUM
        ensures WordOk(idxRequest[other], other, request, |request|)
      {
        if other != id {
          assert WordOk(words[other], other, request, |request|);
        }
      }
    }
  }

  /** The word of an ID while the requests from position `gap` on still have the index one above their position. */
  ghost predicate WordOk(word: nat, id: nat, ids: seq<nat>, gap: nat) {
    && word < WORD && (GetAll(word) == 1 <==> id in ids)
    && (GetAll(word) == 1 ==>
         var i := GetIdx(word);
         var at := if i < gap then i else i - 1;
         i != gap && 0 <= at < |ids| && ids[at] == id)
  }

  lemma WordFacts(word: nat, id: nat, ids: seq<nat>)
    requires WordOk(word, id, ids, |ids|)
    ensures word < WORD && GetAll(word) <= 1 && (GetAll(word) == 1 <==> id in ids)
    ensures GetAll(word) == 1 ==> GetIdx(word) < |ids| && ids[GetIdx(word)] == id
  {
  }

  /** Removing position `idx` leaves a gap there. */
  lemma OneRemoved(word: nat, id: nat, ids: seq<nat>, idx: nat)
    requires WordOk(word, id, ids, |ids|) && idx < |ids| && ids[idx] != id
    ensures WordOk(word, id, Without(ids, idx), idx)
  {
    hide GetAll, GetIdx;
    var rest := Without(ids, idx);
    if id in ids {
      var i := GetIdx(word);
      assert ids[i] == id;
      assert rest[if i < idx then i else i - 1] == id;
    }
  }

  /** Correcting the index of the request behind the gap moves the gap on. */
  lemma OneMoved(word: nat, id: nat, ids: seq<nat>, i: nat)
    requires WordOk(word, id, ids, i) && i < |ids| <= MAX_NUM && Distinct(ids)
    ensures WordOk(if id == ids[i] then SetIdx(word, i) else word, id, ids, i + 1)
  {
    hide GetAll, GetIdx, SetIdx;
    TableFieldLaws(word, 1, i);
  }

  lemma FlagCleared(word: nat, id: nat, ids: seq<nat>)
    requires word < WORD && id !in ids
    ensures WordOk(SetAll(word, 0), id, ids, |ids|)
  {
    hide GetAll, GetIdx, SetAll;
    TableFieldLaws(word, 0, 0);
  }
}
