/** Bytes and files.  A file reads as zeros past its end, and a write past the end leaves a hole of zeros. */
module FileBytes {
  newtype Byte = x: int | 0 <= x < 256

  type File = seq<Byte>

  function ByteAt(file: File, at: nat): Byte {
    if at < |file| then file[at] else 0
  }

  /** The `size` bytes from `at` on. */
  function Region(file: File, at: nat, size: nat): (r: seq<Byte>)
    ensures |r| == size
    ensures forall i :: 0 <= i < size ==> r[i] == ByteAt(file, at + i)
  {
    seq(size, i requires 0 <= i => ByteAt(file, at + i))
  }

  /** write(2) after a seek to `at`. */
  function WriteAt(file: File, at: nat, data: seq<Byte>): (r: File)
    ensures forall i: nat :: ByteAt(r, i) == if at <= i < at + |data| then data[i - at] else ByteAt(file, i)
    ensures |r| == if |data| == 0 || at + |data| <= |file| then |file| else at + |data|
  {
    if |data| == 0 then file
    else
      var size := if at + |data| <= |file| then |file| else at + |data|;
      seq(size, i requires 0 <= i => if at <= i < at + |data| then data[i - at] else ByteAt(file, i))
  }

  lemma WriteElsewhere(file: File, at: nat, data: seq<Byte>, from: nat, size: nat)
    requires at + |data| <= from || from + size <= at
    ensures Region(WriteAt(file, at, data), from, size) == Region(file, from, size)
  {
  }

  lemma WriteHere(file: File, at: nat, data: seq<Byte>)
    ensures Region(WriteAt(file, at, data), at, |data|) == data
  {
  }
}
