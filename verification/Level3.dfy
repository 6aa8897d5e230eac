/** Level 3 on the files themselves: padding, encoding, counting erasures, decoding and truncating back. */
module Level3 {
  import opened FileBytes
  import opened Words
  import opened Fields
  import opened Survivors
  import opened Arithmetic
  import opened RingEncoding
  import opened RingRanks
  import opened RingRuns
  import opened RingProgress
  import opened GroupRecovery
  import opened Gf16

  /** truncate(2): a file made shorter, or longer with zeros. */
  function Truncated(file: seq<Byte>, size: nat): (r: seq<Byte>)
    ensures |r| == size
    ensures forall i :: 0 <= i < size ==> r[i] == if i < |file| then file[i] else 0
  {
    seq(size, i => if 0 <= i < |file| then file[i] else 0)
  }

  lemma TruncateUndoesPadding(file: seq<Byte>, size: nat)
    requires |file| <= size
    ensures Truncated(Truncated(file, size), |file|) == file
  {
  }

  function Join(low: Byte, high: Byte): Word {
    Point(low as int + 256 * high as int)
  }

  function Low(w: Word): Byte {
    (Number(w) % 256) as Byte
  }

  function High(w: Word): Byte {
    NumbersAreWords(w, 0);
    (Number(w) / 256) as Byte
  }

  lemma JoinSplits(low: Byte, high: Byte)
    ensures Low(Join(low, high)) == low && High(Join(low, high)) == high
  {
    hide Point, Number;
    NumbersAreWords(0, low as int + 256 * high as int);
  }

  lemma SplitJoins(w: Word)
    ensures Join(Low(w), High(w)) == w
  {
    hide Point, Number;
    NumbersAreWords(w, 0);
  }

  /** The words the region operations see; the size of the region has to be even. */
  function ToWords(file: seq<Byte>): (w: seq<Word>)
    requires |file| % 2 == 0
    ensures |w| == |file| / 2
    ensures forall x :: 0 <= x < |w| ==> w[x] == Join(file[2 * x], file[2 * x + 1])
  {
    seq(|file| / 2, x requires 0 <= x < |file| / 2 => Join(file[2 * x], file[2 * x + 1]))
  }

  function FromWords(w: seq<Word>): (file: seq<Byte>)
    ensures |file| == 2 * |w|
    ensures forall i :: 0 <= i < |file| ==> file[i] == if i % 2 == 0 then Low(w[i / 2]) else High(w[i / 2])
  {
    seq(2 * |w|, i requires 0 <= i < 2 * |w| => if i % 2 == 0 then Low(w[i / 2]) else High(w[i / 2]))
  }

  lemma WordsRoundTrip(file: seq<Byte>)
    requires |file| % 2 == 0
    ensures FromWords(ToWords(file)) == file
  {
    hide Join, Low, High;
    forall i | 0 <= i < |file| ensures FromWords(ToWords(file))[i] == file[i] {
      var x := i / 2;
      JoinSplits(file[2 * x], file[2 * x + 1]);
      assert i == 2 * x || i == 2 * x + 1;
    }
  }

  lemma BytesRoundTrip(w: seq<Word>)
    ensures ToWords(FromWords(w)) == w
  {
    hide Join, Low, High;
    forall x | 0 <= x < |w| ensures ToWords(FromWords(w))[x] == w[x] {
      SplitJoins(w[x]);
    }
  }

  /** The files of a group, none larger than `maxFs`, which has to be even. */
  ghost predicate GroupFiles(files: seq<seq<Byte>>, k: nat, maxFs: nat) {
    GroupSize(k) && |files| == k && maxFs % 2 == 0 && forall i :: 0 <= i < k ==> |files[i]| <= maxFs
  }

  /** The files as the encoder reads them: padded with zeros to the largest size. */
  function PaddedWords(files: seq<seq<Byte>>, maxFs: nat): (w: seq<seq<Word>>)
    requires maxFs % 2 == 0
    ensures Rectangular(w, |files|, maxFs / 2)
    ensures forall i :: 0 <= i < |files| ==> w[i] == ToWords(Truncated(files[i], maxFs))
  {
    seq(|files|, i requires 0 <= i < |files| => ToWords(Truncated(files[i], maxFs)))
  }

  function Bytes(words: seq<seq<Word>>): (b: seq<seq<Byte>>)
    ensures |b| == |words| && forall i :: 0 <= i < |words| ==> b[i] == FromWords(words[i])
  {
    seq(|words|, i requires 0 <= i < |words| => FromWords(words[i]))
  }

  /** The encoded files that belong to the checkpoint files. */
  function EncodedFiles(f: Field, k: nat, files: seq<seq<Byte>>, maxFs: nat): (e: seq<seq<Byte>>)
    requires GroupSize(k) && |files| == k && maxFs % 2 == 0
    ensures |e| == k && forall i :: 0 <= i < k ==> |e[i]| == maxFs
  {
    Bytes(Codes(f, k, PaddedWords(files, maxFs), maxFs / 2))
  }

  /** What the group has to encode, in blocks of `bs` words. */
  function EncodingJob(f: Field, k: nat, files: seq<seq<Byte>>, maxFs: nat, bs: nat): Job
    requires GroupSize(k) && maxFs % 2 == 0
  {
    Job(f, EncodingMatrix(f, k), PaddedWords(files, maxFs), maxFs / 2, bs)
  }

  lemma EncodingJobValid(f: Field, k: nat, files: seq<seq<Byte>>, maxFs: nat, bs: nat)
    requires f.IsField() && GroupFiles(files, k, maxFs) && 0 < bs && 0 < k
    ensures EncodingJob(f, k, files, maxFs, bs).Valid()
  {
    hide f.IsField, Truncated, ToWords, EncodingMatrix;
    var matrix := EncodingMatrix(f, k);
    forall r | 0 <= r < k ensures NoZeros(matrix[r]) {
      forall j | 0 <= j < k ensures matrix[r][j] != ZERO {
        EntriesNonzero(f, k, r, j);
      }
    }
  }

  /** The group can start, with anything in its buffers. */
  lemma RSencStarts(f: Field, k: nat, files: seq<seq<Byte>>, maxFs: nat, bs: nat,
                    myData: seq<Word>, data: seq<Word>, coding: seq<Word>)
    returns (start: RingRanks.State)
    requires f.IsField() && GroupFiles(files, k, maxFs) && 0 < bs && 0 < k
    requires |myData| == |coding| == bs && |data| == 2 * bs
    ensures IsRun(EncodingJob(f, k, files, maxFs, bs), [start], [])
  {
    var job := EncodingJob(f, k, files, maxFs, bs);
    EncodingJobValid(f, k, files, maxFs, bs);
    var phase := if More(job, 0) then Fill else RingRanks.Done;
    var x := Rank(phase, 0, bs, 0, 0, 0, 0, false, myData, data, coding, NoRecv, []);
    start := State(seq(k, _ => x), seq(k, _ => seq(k, _ => [])));
    hide f.IsField, job.Valid, PaddedWords, EncodingMatrix, More;
    assert IsStart(job, start);
  }

  /**
   * Level 3 post-processing of a group.  In every interleaving of the ranks and their messages, the encoded file of
   * every rank that is done is its row of the code, and truncation gives the checkpoint file back its size and content.
   */
  lemma RSencDelivers(f: Field, k: nat, files: seq<seq<Byte>>, maxFs: nat, bs: nat,
                      states: seq<RingRanks.State>, steps: seq<RingRanks.Step>, n: nat, r: nat)
    requires f.IsField() && GroupFiles(files, k, maxFs) && 0 < bs && r < k
    requires IsRun(EncodingJob(f, k, files, maxFs, bs), states, steps) && n < |states|
    ensures r < |states[n].ranks|
    ensures states[n].ranks[r].phase == Done ==>
            FromWords(states[n].ranks[r].encoded) == EncodedFiles(f, k, files, maxFs)[r]
    ensures Truncated(Truncated(files[r], maxFs), |files[r]|) == files[r]
  {
    EveryRankEncodes(EncodingJob(f, k, files, maxFs, bs), states, steps, n, r);
    TruncateUndoesPadding(files[r], maxFs);
    hide f.IsField, IsRun, Truncated, ToWords, FromWords, EncodingMatrix, Encoded;
  }

  /** No run of the group is longer than this, and every run can go on until all ranks are done, buffered or not. */
  lemma RSencEnds(f: Field, k: nat, files: seq<seq<Byte>>, maxFs: nat, bs: nat,
                  states: seq<RingRanks.State>, steps: seq<RingRanks.Step>, w: nat) returns (step: RingRanks.Step)
    requires GroupFiles(files, k, maxFs) && w < k
    requires IsRun(EncodingJob(f, k, files, maxFs, bs), states, steps)
    ensures |steps| <= BlocksLength(k, Most(EncodingJob(f, k, files, maxFs, bs)))
    ensures Shape(EncodingJob(f, k, files, maxFs, bs), states[|steps|])
    ensures states[|steps|].ranks[w].phase != Done ==>
            CanUnbuffered(EncodingJob(f, k, files, maxFs, bs), states[|steps|], step)
  {
    var job := EncodingJob(f, k, files, maxFs, bs);
    assert |job.rows| == k && |states| == |steps| + 1;
    hide GroupFiles, EncodingJob, IsRun, BlocksLength, Most, CanUnbuffered;
    EveryRunEnds(job, states, steps);
    ShapeKept(job, states, steps);
    step := RankStep(w);
    if states[|steps|].ranks[w].phase != Done {
      step := RingProgress.NeverStuck(job, states, steps, |steps|, w);
    }
  }

  lemma ShapeKept(job: Job, states: seq<RingRanks.State>, steps: seq<RingRanks.Step>)
    requires IsRun(job, states, steps)
    ensures |states| == |steps| + 1 && Shape(job, states[|steps|])
  {
    RunInv(job, states, steps, |steps|);
  }

  function Erasures(erased: seq<bool>): nat {
    |Lost(erased, |erased|)|
  }

  method CountErasures(erased: seq<bool>, gs: nat) returns (l: nat)
    requires |erased| == 2 * gs
    ensures l == Erasures(erased)
  {
    l := 0;
    for i := 0 to gs
      invariant l == |Lost(erased, i)| + |Lost(erased, gs + i)| - |Lost(erased, gs)|
    {
      if erased[i] {
        l := l + 1;
      }
      if erased[i + gs] {
        l := l + 1;
      }
    }
  }

  /** What was not erased is still as it was written. */
  ghost predicate Undamaged(lost: seq<bool>, have: seq<seq<Byte>>, orig: seq<seq<Byte>>)
    requires |have| == |orig| == |lost|
  {
    forall i :: 0 <= i < |lost| && !lost[i] ==> have[i] == orig[i]
  }

  lemma NoErasuresMeansUndamaged(erased: seq<bool>, k: nat)
    requires |erased| == 2 * k && Erasures(erased) == 0
    ensures forall i :: 0 <= i < 2 * k ==> !erased[i]
  {
    NoneLost(erased, 2 * k);
  }

  lemma {:induction false} NoneLost(erased: seq<bool>, n: nat)
    requires n <= |erased| && |Lost(erased, n)| == 0
    ensures forall i :: 0 <= i < n ==> !erased[i]
  {
    if n > 0 {
      NoneLost(erased, n - 1);
    }
  }

  /** The surviving files as words. */
  function SurvivingWords(lost: seq<bool>, files: seq<seq<Byte>>, maxFs: nat): (w: seq<seq<Word>>)
    requires |files| == |lost| && maxFs % 2 == 0
    ensures |w| == |files|
    ensures forall i :: 0 <= i < |files| && !lost[i] ==> w[i] == ToWords(Truncated(files[i], maxFs))
  {
    seq(|files|, i requires 0 <= i < |files| => if lost[i] then [] else ToWords(Truncated(files[i], maxFs)))
  }

  lemma SurvivingDataIntact(lost: seq<bool>, ckpt: seq<seq<Byte>>, orig: seq<seq<Byte>>, maxFs: nat)
    requires |ckpt| == |orig| == |lost| && maxFs % 2 == 0 && Undamaged(lost, ckpt, orig)
    ensures Intact(lost, SurvivingWords(lost, ckpt, maxFs), PaddedWords(orig, maxFs))
  {
    hide Truncated, ToWords;
  }

  lemma SurvivingCode(f: Field, k: nat, file: seq<Byte>, orig: seq<seq<Byte>>, maxFs: nat, i: nat)
    requires GroupSize(k) && |orig| == k && maxFs % 2 == 0 && i < k && file == EncodedFiles(f, k, orig, maxFs)[i]
    ensures ToWords(Truncated(file, maxFs)) == Codes(f, k, PaddedWords(orig, maxFs), maxFs / 2)[i]
  {
    hide ToWords, FromWords, Codes, PaddedWords;
    BytesRoundTrip(Codes(f, k, PaddedWords(orig, maxFs), maxFs / 2)[i]);
    assert Truncated(file, maxFs) == file;
  }

  lemma SurvivingCodesIntact(f: Field, lost: seq<bool>, k: nat, enc: seq<seq<Byte>>, orig: seq<seq<Byte>>, maxFs: nat)
    requires GroupSize(k) && |lost| == |enc| == |orig| == k && maxFs % 2 == 0
    requires Undamaged(lost, enc, EncodedFiles(f, k, orig, maxFs))
    ensures Intact(lost, SurvivingWords(lost, enc, maxFs), Codes(f, k, PaddedWords(orig, maxFs), maxFs / 2))
  {
    hide Truncated, ToWords, FromWords, Codes, PaddedWords, SurvivingWords, EncodedFiles;
    forall i | 0 <= i < k && !lost[i]
      ensures SurvivingWords(lost, enc, maxFs)[i] == Codes(f, k, PaddedWords(orig, maxFs), maxFs / 2)[i]
    {
      SurvivingCode(f, k, enc[i], orig, maxFs, i);
    }
  }

  function Restored(words: seq<seq<Word>>, fs: seq<nat>): (r: seq<seq<Byte>>)
    requires |words| == |fs|
    ensures |r| == |fs| && forall i :: 0 <= i < |fs| ==> r[i] == Truncated(FromWords(words[i]), fs[i])
  {
    seq(|fs|, i requires 0 <= i < |fs| => Truncated(FromWords(words[i]), fs[i]))
  }

  /** Decoded words, written and truncated to the recorded sizes, are the original files. */
  lemma RestoredIsOriginal(orig: seq<seq<Byte>>, fs: seq<nat>, maxFs: nat)
    requires |fs| == |orig| && maxFs % 2 == 0
    requires forall i :: 0 <= i < |fs| ==> |orig[i]| == fs[i] <= maxFs
    ensures Restored(PaddedWords(orig, maxFs), fs) == orig
  {
    hide ToWords, FromWords, Truncated;
    forall i | 0 <= i < |fs|
      ensures Truncated(FromWords(PaddedWords(orig, maxFs)[i]), fs[i]) == orig[i]
    {
      WordsRoundTrip(Truncated(orig[i], maxFs));
      TruncateUndoesPadding(orig[i], maxFs);
    }
  }

  /**
   * Recovery of a group.  It succeeds exactly when at most k of the 2k files are erased, and then every checkpoint
   * file and every encoded file is what it was before the loss.
   */
  method RecoverL3(f: Field, k: nat, erased: seq<bool>, ckpt: seq<seq<Byte>>, enc: seq<seq<Byte>>, fs: seq<nat>,
                   maxFs: nat, bs: nat, ghost orig: seq<seq<Byte>>)
    returns (ok: bool, ckpt': seq<seq<Byte>>, enc': seq<seq<Byte>>)
    requires f.IsField() && GroupFiles(orig, k, maxFs) && 0 < bs
    requires |erased| == 2 * k && |ckpt| == |enc| == |fs| == k
    requires forall i :: 0 <= i < k ==> fs[i] == |orig[i]|
    requires Undamaged(erased[..k], ckpt, orig) && Undamaged(erased[k..], enc, EncodedFiles(f, k, orig, maxFs))
    ensures ok <==> Erasures(erased) <= k
    ensures ok ==> ckpt' == orig && enc' == EncodedFiles(f, k, orig, maxFs)
    ensures !ok ==> ckpt' == ckpt && enc' == enc
  {
    hide f.IsField, Codes, PaddedWords, SurvivingWords, Restored, Bytes, Intact;
    ok, ckpt', enc' := true, ckpt, enc;
    var l := CountErasures(erased, k);
    if l > k {
      return false, ckpt, enc;
    }
    if l > 0 {
      LostIsAscending(erased, 2 * k);
      SurvivingDataIntact(erased[..k], ckpt, orig, maxFs);
      SurvivingCodesIntact(f, erased[k..], k, enc, orig, maxFs);
      var data, coding;
      ok, data, coding :=
        Decode(f, k, erased, SurvivingWords(erased[..k], ckpt, maxFs), SurvivingWords(erased[k..], enc, maxFs),
                                 maxFs / 2, bs, PaddedWords(orig, maxFs));
      RestoredIsOriginal(orig, fs, maxFs);
      ckpt', enc' := Restored(data, fs), Bytes(coding);
    } else {
      NoErasuresMeansUndamaged(erased, k);
      forall i | 0 <= i < k ensures ckpt[i] == orig[i] && enc[i] == EncodedFiles(f, k, orig, maxFs)[i] {
        assert !erased[..k][i] && !erased[k..][i];
      }
    }
  }

  /** The recovery the library runs, in the field of 2^16 elements. */
  method RecoverL3Gf16(k: nat, erased: seq<bool>, ckpt: seq<seq<Byte>>, enc: seq<seq<Byte>>, fs: seq<nat>,
                       maxFs: nat, bs: nat, ghost orig: seq<seq<Byte>>)
    returns (ok: bool, ckpt': seq<seq<Byte>>, enc': seq<seq<Byte>>)
    requires GroupFiles(orig, k, maxFs) && 0 < bs
    requires |erased| == 2 * k && |ckpt| == |enc| == |fs| == k
    requires forall i :: 0 <= i < k ==> fs[i] == |orig[i]|
    requires Undamaged(erased[..k], ckpt, orig) && Undamaged(erased[k..], enc, EncodedFiles(Gf(), k, orig, maxFs))
    ensures ok <==> Erasures(erased) <= k
    ensures ok ==> ckpt' == orig && enc' == EncodedFiles(Gf(), k, orig, maxFs)
  {
    hide Gf;
    GfIsField();
    ok, ckpt', enc' := RecoverL3(Gf(), k, erased, ckpt, enc, fs, maxFs, bs, orig);
  }
}
