/** The metadata of an FTI-FF file as bytes: little-endian fields without padding, and back. */
module Metadata {
  import opened FileBytes

  const DIGEST: nat := 16
  const INT: nat := 4
  const LONG: nat := 8

  // ------------------------------------------------------------------ integers

  function Power256(w: nat): nat {
    if w == 0 then 1 else 256 * Power256(w - 1)
  }

  /** The low `w` bytes of a number, the lowest first. */
  function ToBytes(n: nat, w: nat): (r: seq<Byte>)
    ensures |r| == w
    decreases w
  {
    if w == 0 then [] else [(n % 256) as Byte] + ToBytes(n / 256, w - 1)
  }

  function FromBytes(b: seq<Byte>): nat {
    if b == [] then 0 else b[0] as nat + 256 * FromBytes(b[1..])
  }

  /** A number that fits survives, and no other does. */
  lemma {:induction false} BytesRoundTrip(n: nat, w: nat)
    ensures FromBytes(ToBytes(n, w)) == n <==> n < Power256(w)
    ensures FromBytes(ToBytes(n, w)) < Power256(w)
    decreases w
  {
    if w != 0 {
      BytesRoundTrip(n / 256, w - 1);
      assert ToBytes(n, w)[1..] == ToBytes(n / 256, w - 1);
    }
  }

  // ------------------------------------------------------------------ records

  /**
   * The file metadata that readers rely on; the other fields are carried along.  A size that a level does not need
   * is -1, which is stored as the largest word.
   */
  datatype FileRecord = FileRecord(checksum: seq<Byte>, myHash: seq<Byte>, ckptSize: nat, fs: nat, maxFs: nat,
                                   ptFs: nat, timestamp: nat)

  datatype BlockRecord = BlockRecord(numvars: nat, dbsize: nat)

  datatype ChunkRecord = ChunkRecord(
    id: nat, idx: nat, containerid: nat, hascontent: bool, hasCkpt: bool,
    dptr: nat, fptr: nat, chunksize: nat, containersize: nat, hash: seq<Byte>)

  const FILE_RECORD: nat := 89
  const BLOCK_RECORD: nat := 12
  const CHUNK_RECORD: nat := 62

  const MAX_INT: nat := 0x8000_0000
  const MAX_LONG: nat := 0x8000_0000_0000_0000
  const MAX_WORD: nat := 0x1_0000_0000_0000_0000

  predicate FitsFile(m: FileRecord) {
    |m.checksum| == 33 && |m.myHash| == DIGEST &&
    m.ckptSize < MAX_LONG && m.fs < MAX_LONG && m.maxFs < MAX_WORD && m.ptFs < MAX_WORD && m.timestamp < MAX_LONG
  }

  predicate FitsBlock(b: BlockRecord) {
    b.numvars < MAX_INT && b.dbsize < MAX_LONG
  }

  predicate FitsChunk(c: ChunkRecord) {
    && c.id < MAX_INT && c.idx < MAX_INT && c.containerid < MAX_INT
    && c.dptr < MAX_LONG && c.fptr < MAX_LONG && c.chunksize < MAX_LONG && c.containersize < MAX_LONG
    && |c.hash| == DIGEST
  }

  function BoolByte(b: bool): Byte {
    if b then 1 else 0
  }

  function FileBytesOf(m: FileRecord): seq<Byte> {
    m.checksum + m.myHash + ToBytes(m.ckptSize, LONG) + ToBytes(m.fs, LONG) + ToBytes(m.maxFs, LONG)
    + ToBytes(m.ptFs, LONG) + ToBytes(m.timestamp, LONG)
  }

  function BlockBytesOf(b: BlockRecord): (r: seq<Byte>)
    ensures |r| == BLOCK_RECORD
  {
    ToBytes(b.numvars, INT) + ToBytes(b.dbsize, LONG)
  }

  function ChunkBytesOf(c: ChunkRecord): (r: seq<Byte>)
    requires |c.hash| == DIGEST
    ensures |r| == CHUNK_RECORD
  {
    ToBytes(c.id, INT) + ToBytes(c.idx, INT) + ToBytes(c.containerid, INT)
    + [BoolByte(c.hascontent)] + [BoolByte(c.hasCkpt)]
    + ToBytes(c.dptr, LONG) + ToBytes(c.fptr, LONG) + ToBytes(c.chunksize, LONG) + ToBytes(c.containersize, LONG)
    + c.hash
  }

  /** A field of `w` bytes at `pos`. */
  function Field(buffer: seq<Byte>, pos: nat, w: nat): nat
    requires pos + w <= |buffer|
  {
    FromBytes(buffer[pos..pos + w])
  }

  function ReadFile(buffer: seq<Byte>): FileRecord
    requires |buffer| >= FILE_RECORD
  {
    FileRecord(buffer[0..33], buffer[33..49], Field(buffer, 49, LONG), Field(buffer, 57, LONG), Field(buffer, 65, LONG),
      Field(buffer, 73, LONG), Field(buffer, 81, LONG))
  }

  function ReadBlock(buffer: seq<Byte>): BlockRecord
    requires |buffer| == BLOCK_RECORD
  {
    BlockRecord(Field(buffer, 0, INT), Field(buffer, 4, LONG))
  }

  function ReadChunk(buffer: seq<Byte>): ChunkRecord
    requires |buffer| == CHUNK_RECORD
  {
    ChunkRecord(Field(buffer, 0, INT), Field(buffer, 4, INT), Field(buffer, 8, INT), buffer[12] != 0, buffer[13] != 0,
      Field(buffer, 14, LONG), Field(buffer, 22, LONG), Field(buffer, 30, LONG), Field(buffer, 38, LONG),
      buffer[46..62])
  }

  lemma Powers()
    ensures Power256(INT) == 0x1_0000_0000 && Power256(LONG) == 0x1_0000_0000_0000_0000
  {
    assert Power256(2) == 0x1_0000;
    assert Power256(4) == 0x1_0000_0000;
    assert Power256(6) == 0x1_0000_0000_0000;
  }

  lemma {:induction false} IntRoundTrip(n: nat)
    requires n < MAX_INT
    ensures FromBytes(ToBytes(n, INT)) == n
  {
    hide FromBytes, ToBytes, Power256;
    Powers();
    BytesRoundTrip(n, INT);
  }

  lemma {:induction false} LongRoundTrip(n: nat)
    requires n < MAX_WORD
    ensures FromBytes(ToBytes(n, LONG)) == n
  {
    hide FromBytes, ToBytes, Power256;
    Powers();
    BytesRoundTrip(n, LONG);
  }

  lemma FileRoundTrip(m: FileRecord)
    requires FitsFile(m)
    ensures |FileBytesOf(m)| == FILE_RECORD && ReadFile(FileBytesOf(m)) == m
  {
    hide FromBytes, ToBytes;
    var b := FileBytesOf(m);
    LongRoundTrip(m.ckptSize);
    LongRoundTrip(m.fs);
    LongRoundTrip(m.maxFs);
    LongRoundTrip(m.ptFs);
    LongRoundTrip(m.timestamp);
    assert b[0..33] == m.checksum && b[33..49] == m.myHash;
    assert b[49..57] == ToBytes(m.ckptSize, LONG) && b[57..65] == ToBytes(m.fs, LONG)
           && b[65..73] == ToBytes(m.maxFs, LONG);
    assert b[73..81] == ToBytes(m.ptFs, LONG) && b[81..89] == ToBytes(m.timestamp, LONG);
  }

  lemma BlockRoundTrip(b: BlockRecord)
    requires FitsBlock(b)
    ensures ReadBlock(BlockBytesOf(b)) == b
  {
    hide FromBytes, ToBytes;
    IntRoundTrip(b.numvars);
    LongRoundTrip(b.dbsize);
    var s := BlockBytesOf(b);
    assert s[0..4] == ToBytes(b.numvars, INT) && s[4..12] == ToBytes(b.dbsize, LONG);
  }

  lemma ChunkRoundTrip(c: ChunkRecord)
    requires FitsChunk(c)
    ensures ReadChunk(ChunkBytesOf(c)) == c
  {
    hide FromBytes, ToBytes;
    var s := ChunkBytesOf(c);
    IntRoundTrip(c.id);
    IntRoundTrip(c.idx);
    IntRoundTrip(c.containerid);
    LongRoundTrip(c.dptr);
    LongRoundTrip(c.fptr);
    LongRoundTrip(c.chunksize);
    LongRoundTrip(c.containersize);
    assert s[0..4] == ToBytes(c.id, INT) && s[4..8] == ToBytes(c.idx, INT) && s[8..12] == ToBytes(c.containerid, INT);
    assert s[12] == BoolByte(c.hascontent) && s[13] == BoolByte(c.hasCkpt);
    assert s[14..22] == ToBytes(c.dptr, LONG) && s[22..30] == ToBytes(c.fptr, LONG);
    assert s[30..38] == ToBytes(c.chunksize, LONG) && s[38..46] == ToBytes(c.containersize, LONG)
           && s[46..62] == c.hash;
  }

  // ------------------------------------------------------------------ positions

  /** The number in the four bytes from `pos` on, the lowest first. */
  function IntAt(b: seq<Byte>, pos: nat): nat
    requires pos + 4 <= |b|
  {
    b[pos] as nat + 0x100 * b[pos + 1] as nat + 0x1_0000 * b[pos + 2] as nat + 0x100_0000 * b[pos + 3] as nat
  }

  /** The number in the eight bytes from `pos` on, the lowest first. */
  function LongAt(b: seq<Byte>, pos: nat): nat
    requires pos + 8 <= |b|
  {
    IntAt(b, pos) + 0x1_0000_0000 * IntAt(b, pos + 4)
  }

  lemma {:induction false} FromFour(b: seq<Byte>, pos: nat, rest: nat)
    requires pos + 4 <= rest <= |b|
    ensures FromBytes(b[pos..rest]) == IntAt(b, pos) + 0x1_0000_0000 * FromBytes(b[pos + 4..rest])
  {
    FromOne(b, pos, rest);
    FromOne(b, pos + 1, rest);
    FromOne(b, pos + 2, rest);
    FromOne(b, pos + 3, rest);
  }

  lemma {:induction false} FromOne(b: seq<Byte>, pos: nat, rest: nat)
    requires pos < rest <= |b|
    ensures FromBytes(b[pos..rest]) == b[pos] as nat + 256 * FromBytes(b[pos + 1..rest])
  {
    assert b[pos..rest][1..] == b[pos + 1..rest];
  }

  lemma {:induction false} LongBytes(b: seq<Byte>, pos: nat, n: nat)
    requires pos + 8 <= |b| && n < MAX_WORD && b[pos..pos + 8] == ToBytes(n, LONG)
    ensures LongAt(b, pos) == n
  {
    hide ToBytes, IntAt;
    LongRoundTrip(n);
    FromFour(b, pos, pos + 8);
    FromFour(b, pos + 4, pos + 8);
    assert b[pos + 8..pos + 8] == [];
  }

  lemma {:induction false} IntBytes(b: seq<Byte>, pos: nat, n: nat)
    requires pos + 4 <= |b| && n < MAX_INT && b[pos..pos + 4] == ToBytes(n, INT)
    ensures IntAt(b, pos) == n
  {
    hide ToBytes, IntAt;
    IntRoundTrip(n);
    FromFour(b, pos, pos + 4);
    assert b[pos + 4..pos + 4] == [];
  }

  /** Where the fields of the file metadata are. */
  lemma FilePositions(m: FileRecord)
    requires FitsFile(m)
    ensures var b := FileBytesOf(m);
      && |b| == 89 && b[..33] == m.checksum && b[33..49] == m.myHash
      && LongAt(b, 49) == m.ckptSize && LongAt(b, 57) == m.fs && LongAt(b, 65) == m.maxFs
      && LongAt(b, 73) == m.ptFs && LongAt(b, 81) == m.timestamp
  {
    hide ToBytes, LongAt;
    var b := FileBytesOf(m);
    LongBytes(b, 49, m.ckptSize);
    LongBytes(b, 57, m.fs);
    LongBytes(b, 65, m.maxFs);
    LongBytes(b, 73, m.ptFs);
    LongBytes(b, 81, m.timestamp);
  }

  /** Where the fields of the metadata of a block are. */
  lemma BlockPositions(r: BlockRecord)
    requires FitsBlock(r)
    ensures var b := BlockBytesOf(r); |b| == 12 && IntAt(b, 0) == r.numvars && LongAt(b, 4) == r.dbsize
  {
    hide ToBytes, LongAt, IntAt;
    var b := BlockBytesOf(r);
    IntBytes(b, 0, r.numvars);
    LongBytes(b, 4, r.dbsize);
  }

  /** Where the fields of the metadata of a chunk are. */
  lemma ChunkPositions(c: ChunkRecord)
    requires FitsChunk(c)
    ensures var b := ChunkBytesOf(c);
      && |b| == 62 && IntAt(b, 0) == c.id && IntAt(b, 4) == c.idx && IntAt(b, 8) == c.containerid
      && (b[12] == 1 <==> c.hascontent) && (b[13] == 1 <==> c.hasCkpt)
      && LongAt(b, 14) == c.dptr && LongAt(b, 22) == c.fptr && LongAt(b, 30) == c.chunksize
      && LongAt(b, 38) == c.containersize && b[46..] == c.hash
  {
    hide ToBytes, LongAt, IntAt;
    var b := ChunkBytesOf(c);
    IntBytes(b, 0, c.id);
    IntBytes(b, 4, c.idx);
    IntBytes(b, 8, c.containerid);
    LongBytes(b, 14, c.dptr);
    LongBytes(b, 22, c.fptr);
    LongBytes(b, 30, c.chunksize);
    LongBytes(b, 38, c.containersize);
  }

  // ------------------------------------------------------------------ buffers

  /** memcpy of `bytes` to position `pos` of a buffer. */
  method CopyTo(buffer: array<Byte>, pos: nat, bytes: seq<Byte>) returns (next: nat)
    requires pos + |bytes| <= buffer.Length
    modifies buffer
    ensures next == pos + |bytes|
    ensures buffer[..next] == old(buffer[..pos]) + bytes
  {
    for i := 0 to |bytes|
      invariant buffer[..pos + i] == old(buffer[..pos]) + bytes[..i]
    {
      buffer[pos + i] := bytes[i];
    }
    next := pos + |bytes|;
    assert bytes[..|bytes|] == bytes;
  }

  method SerializeBlock(b: BlockRecord, buffer: array<Byte>)
    requires buffer.Length == BLOCK_RECORD
    modifies buffer
    ensures buffer[..] == BlockBytesOf(b)
  {
    hide ToBytes;
    var pos := CopyTo(buffer, 0, ToBytes(b.numvars, INT));
    pos := CopyTo(buffer, pos, ToBytes(b.dbsize, LONG));
    assert buffer[..] == buffer[..pos];
  }

  /** Copies `numbers` one after the other, each as `w` bytes. */
  method CopyNumbers(buffer: array<Byte>, pos: nat, numbers: seq<nat>, w: nat) returns (next: nat)
    requires pos + AllBytes(numbers, w).1 <= buffer.Length
    modifies buffer
    ensures next == pos + AllBytes(numbers, w).1
    ensures buffer[..next] == old(buffer[..pos]) + AllBytes(numbers, w).0
  {
    hide ToBytes;
    next := pos;
    assert numbers[..0] == [];
    for i := 0 to |numbers|
      invariant next == pos + AllBytes(numbers[..i], w).1 <= buffer.Length
      invariant buffer[..next] == old(buffer[..pos]) + AllBytes(numbers[..i], w).0
    {
      assert numbers[..i + 1][..i] == numbers[..i];
      BytesGrow(numbers, i + 1, w);
      next := CopyTo(buffer, next, ToBytes(numbers[i], w));
    }
    assert numbers[..|numbers|] == numbers;
  }

  /** The bytes of several numbers, and how many they are. */
  function AllBytes(numbers: seq<nat>, w: nat): (r: (seq<Byte>, nat))
    ensures |r.0| == r.1
  {
    if numbers == [] then ([], 0)
    else
      var front := AllBytes(numbers[..|numbers| - 1], w);
      (front.0 + ToBytes(numbers[|numbers| - 1], w), front.1 + w)
  }

  lemma {:induction false} BytesGrow(numbers: seq<nat>, i: nat, w: nat)
    requires i <= |numbers|
    ensures AllBytes(numbers[..i], w).1 <= AllBytes(numbers, w).1
    decreases |numbers|
  {
    hide ToBytes;
    if i == |numbers| {
      assert numbers[..i] == numbers;
    } else {
      assert numbers[..|numbers| - 1][..i] == numbers[..i];
      BytesGrow(numbers[..|numbers| - 1], i, w);
    }
  }

  lemma {:induction false} ThreeNumbers(a: nat, b: nat, c: nat, w: nat)
    ensures AllBytes([a, b, c], w) == (ToBytes(a, w) + ToBytes(b, w) + ToBytes(c, w), 3 * w)
  {
    hide ToBytes;
    assert [a, b, c][..2] == [a, b] && [a, b][..1] == [a] && [a][..0] == [];
    assert AllBytes([a], w).0 == ToBytes(a, w);
  }

  lemma {:induction false} FourNumbers(a: nat, b: nat, c: nat, d: nat, w: nat)
    ensures AllBytes([a, b, c, d], w) == (ToBytes(a, w) + ToBytes(b, w) + ToBytes(c, w) + ToBytes(d, w), 4 * w)
  {
    hide ToBytes;
    ThreeNumbers(a, b, c, w);
    assert [a, b, c, d][..3] == [a, b, c];
  }

  method SerializeChunk(c: ChunkRecord, buffer: array<Byte>)
    requires buffer.Length == CHUNK_RECORD && |c.hash| == DIGEST
    modifies buffer
    ensures buffer[..] == ChunkBytesOf(c)
  {
    hide ToBytes, AllBytes;
    ThreeNumbers(c.id, c.idx, c.containerid, INT);
    FourNumbers(c.dptr, c.fptr, c.chunksize, c.containersize, LONG);
    var pos := CopyNumbers(buffer, 0, [c.id, c.idx, c.containerid], INT);
    pos := CopyTo(buffer, pos, [BoolByte(c.hascontent)]);
    pos := CopyTo(buffer, pos, [BoolByte(c.hasCkpt)]);
    pos := CopyNumbers(buffer, pos, [c.dptr, c.fptr, c.chunksize, c.containersize], LONG);
    pos := CopyTo(buffer, pos, c.hash);
    assert buffer[..] == buffer[..pos];
  }

  method SerializeFile(m: FileRecord, buffer: array<Byte>)
    requires buffer.Length == FILE_RECORD + 1 && |m.checksum| == 33 && |m.myHash| == DIGEST
    modifies buffer
    ensures buffer[..FILE_RECORD] == FileBytesOf(m)
  {
    hide ToBytes;
    var pos := CopyTo(buffer, 0, m.checksum);
    pos := CopyTo(buffer, pos, m.myHash);
    pos := CopyTo(buffer, pos, ToBytes(m.ckptSize, LONG));
    pos := CopyTo(buffer, pos, ToBytes(m.fs, LONG));
    pos := CopyTo(buffer, pos, ToBytes(m.maxFs, LONG));
    pos := CopyTo(buffer, pos, ToBytes(m.ptFs, LONG));
    pos := CopyTo(buffer, pos, ToBytes(m.timestamp, LONG));
  }
}
