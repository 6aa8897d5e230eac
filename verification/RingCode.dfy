/** The code of one rank, with its buffers, against the steps of the encoding group. */
module RingCode {
  import opened Arithmetic
  import opened Words
  import opened Fields
  import opened RingEncoding
  import opened RingRanks

  class Encoder {
    const myData: array<Word>
    const data: array<Word>
    const coding: array<Word>
    var phase: Phase
    var block: nat
    var remBsize: nat
    var cnt: nat
    var i: nat
    var dest: nat
    var offset: nat
    var init: bool
    var recv: Recv
    var encoded: seq<Word>

    ghost predicate Apart()
      reads this
    {
      myData != data && myData != coding && data != coding
    }

    ghost function Shown(): Rank
      reads this, myData, data, coding
    {
      Rank(phase, block, remBsize, cnt, i, dest, offset, init, myData[..], data[..], coding[..], recv, encoded)
    }

    constructor (job: Job, r: nat)
      requires job.Valid() && r < |job.rows|
      ensures Apart() && StartsAt(job, Shown()) && fresh(myData) && fresh(data) && fresh(coding)
    {
      myData, data, coding := new Word[job.bs], new Word[2 * job.bs], new Word[job.bs];
      phase := if More(job, 0) then Fill else Done;
      block, remBsize, cnt, i, dest, offset, init := 0, job.bs, 0, r, r, 0, false;
      recv, encoded := NoRecv, [];
    }

    /** Read the next block of the file, and copy it to the first half. */
    method FillBlock(job: Job, r: nat)
      requires Apart() && RankReady(job, r, Shown()) && phase == Fill
      modifies this, myData, data
      ensures Shown() == RingRanks.FillBlock(job, r, old(Shown()))
    {
      hide job.f.IsField, BlocksLength, Overwritten;
      var pos := BlocksLength(block, job.bs);
      if job.maxFs - pos < job.bs {
        remBsize := job.maxFs - pos;
      }
      var words := job.files[r][pos..pos + remBsize];
      Copy(words, myData, 0);
      Copy(words, data, 0);
      cnt, i, dest, offset, init := 0, r, r, 0, false;
      phase := Post;
    }

    /** Send the own block on, and let another one arrive in the other half; not in the last step. */
    method PostBoth(job: Job, r: nat) returns (sent: seq<seq<Word>>)
      requires Apart() && RankReady(job, r, Shown()) && phase == Post
      modifies this
      ensures Shown() == RingRanks.PostBoth(job, old(Shown()))
      ensures sent == if old(cnt) != |job.rows| - 1 then [old(myData[..remBsize])] else []
    {
      var k := |job.rows|;
      sent := [];
      if cnt != k - 1 {
        dest := (dest + k - 1) % k;
        var src := (i + 1) % k;
        sent := [myData[..remBsize]];
        recv := Posted(src, 1 - offset);
      }
      phase := Multiply;
    }

    /** What arrives goes to the half that was named when the receive was posted. */
    method Arrive(job: Job, words: seq<Word>)
      requires Apart() && Sized(job, Shown()) && recv.Posted? && |words| <= job.bs
      modifies this, data
      ensures Shown() == Arrived(job, old(Shown()), words)
    {
      ghost var next := Arrived(job, Shown(), words);
      Copy(words, data, At(job, recv.half));
      recv := NoRecv;
      assert Shown() == next;
    }

    /** Multiply the block in the current half into the coding words, then swap the halves. */
    method MultiplyOne(job: Job, r: nat)
      requires Apart() && RankReady(job, r, Shown()) && phase == Multiply && job.rows[r][i] != ZERO
      modifies this, coding
      ensures Shown() == RingRanks.MultiplyOne(job, r, old(Shown()))
    {
      ghost var next := RingRanks.MultiplyOne(job, r, Shown());
      var k, at := |job.rows|, At(job, offset);
      Contribute(job.f, job.rows[r][i], data[at..at + job.bs], coding, init);
      init, i, offset, cnt := true, (i + 1) % k, 1 - offset, cnt + 1;
      phase := if cnt < k then Await else Write;
      assert coding[..] == next.coding;
    }

    /** Write the coding words of the block. */
    method WriteBlock(job: Job)
      requires 0 < job.bs && Sized(job, Shown()) && phase == Write
      modifies this
      ensures Shown() == RingRanks.WriteBlock(job, old(Shown()))
    {
      encoded := encoded + coding[..remBsize];
      block := block + 1;
      phase := if More(job, block) then Fill else Done;
    }
  }

  /** memcpy of `words` to index `at` of a buffer. */
  method Copy(words: seq<Word>, buffer: array<Word>, at: nat)
    requires at + |words| <= buffer.Length
    modifies buffer
    ensures buffer[..] == Overwritten(old(buffer[..]), at, words)
  {
    for x := 0 to |words|
      invariant forall y :: 0 <= y < x ==> buffer[at + y] == words[y]
      invariant forall y :: 0 <= y < buffer.Length && (y < at || at + x <= y) ==> buffer[y] == old(buffer[y])
    {
      buffer[at + x] := words[x];
    }
  }
}
