/** MD5 over a message that arrives in pieces: the digest is that of the whole message, by RFC 1321. */
module Md5 {
  import opened FileBytes
  import opened Md5Rounds
  import opened Metadata

  // ------------------------------------------------------------------ the digest of a whole message

  const BLOCK: nat := 64

  /** The registers after all whole blocks of `data`. */
  function Fold(v: Chain, data: seq<Byte>): Chain
    decreases |data|
  {
    if |data| < BLOCK then v else Fold(Compress(v, data[..BLOCK]), data[BLOCK..])
  }

  /** The number of zeros in the padding of a message of `n` bytes. */
  function ZeroCount(n: nat): (z: nat)
    ensures (n + 1 + z) % 64 == 56 && z < 64
  {
    if n % 64 < 56 then 55 - n % 64 else 119 - n % 64
  }

  function Zeros(n: nat): (r: seq<Byte>)
    ensures |r| == n
  {
    seq(n, _ => 0)
  }

  /**
   * The message padded by sections 3.1 and 3.2 of RFC 1321: a 1 bit, as few zeros as make the length 56 modulo 64, and
   * the low 64 bits of the length in bits.
   */
  function Padded(message: seq<Byte>): seq<Byte> {
    message + [0x80] + Zeros(ZeroCount(|message|)) + ToBytes(8 * |message|, 8)
  }

  function Out(v: Chain): (r: seq<Byte>)
    ensures |r| == 16
  {
    ToBytes(v.a as nat, 4) + ToBytes(v.b as nat, 4) + ToBytes(v.c as nat, 4) + ToBytes(v.d as nat, 4)
  }

  function Digest(message: seq<Byte>): (r: seq<Byte>)
    ensures |r| == 16
  {
    Out(Fold(INITIAL, Padded(message)))
  }

  // ------------------------------------------------------------------ folding

  /** How many bytes of a message of `n` bytes are in whole blocks. */
  function Whole(n: nat): (w: nat)
    ensures w <= n && n - w == n % 64 && w % 64 == 0
  {
    n - n % 64
  }

  lemma {:induction false} FoldAppend(v: Chain, a: seq<Byte>, b: seq<Byte>)
    requires |a| % 64 == 0
    ensures Fold(v, a + b) == Fold(Fold(v, a), b)
    decreases |a|
  {
    hide Compress;
    if |a| < BLOCK {
      assert a + b == b;
    } else {
      assert (a + b)[..BLOCK] == a[..BLOCK] && (a + b)[BLOCK..] == a[BLOCK..] + b;
      FoldAppend(Compress(v, a[..BLOCK]), a[BLOCK..], b);
    }
  }

  /** What is left of a block does not count. */
  lemma {:induction false} FoldWhole(v: Chain, data: seq<Byte>)
    ensures Fold(v, data) == Fold(v, data[..Whole(|data|)])
  {
    hide Fold;
    var w := Whole(|data|);
    assert data == data[..w] + data[w..];
    FoldAppend(v, data[..w], data[w..]);
    ShortFold(Fold(v, data[..w]), data[w..]);
  }

  lemma {:induction false} ShortFold(v: Chain, data: seq<Byte>)
    requires |data| < BLOCK
    ensures Fold(v, data) == v
  {
  }

  /** The body: one or more whole blocks. */
  method Body(v: Chain, data: seq<Byte>) returns (r: Chain)
    requires 0 < |data| && |data| % 64 == 0
    ensures r == Fold(v, data)
  {
    hide Compress;
    r := v;
    var ptr := 0;
    assert data[0..] == data;
    while ptr < |data|
      invariant ptr <= |data| && ptr % 64 == 0 && Fold(v, data) == Fold(r, data[ptr..])
    {
      assert data[ptr..][..BLOCK] == data[ptr..ptr + BLOCK] && data[ptr..][BLOCK..] == data[ptr + BLOCK..];
      r := Transform(r, data[ptr..ptr + BLOCK]);
      ptr := ptr + BLOCK;
    }
  }

  // ------------------------------------------------------------------ the byte counter

  const LO: nat := 0x2000_0000
  const U32: nat := 0x1_0000_0000

  /** The two counters stand for the length of the message: 29 low bits and 32 high bits. */
  predicate Counts(lo: nat, hi: nat, n: nat) {
    lo < LO && hi < U32 && lo == n % LO && hi == n / LO % U32
  }

  /** The carry test of the update is right for every size. */
  lemma CountersAdd(lo: nat, hi: nat, n: nat, size: nat)
    requires Counts(lo, hi, n)
    ensures var lo' := (lo + size) % LO;
            var carry := if lo' < lo then 1 else 0;
            Counts(lo', (hi + carry + size / LO) % U32, n + size)
  {
    var q, s := n / LO, size / LO;
    var r := size % LO;
    assert n == q * LO + lo && size == s * LO + r;
    var lo' := (lo + size) % LO;
    var carry := if lo + r < LO then 0 else 1;
    assert n + size == (q + s + carry) * LO + (lo + r - carry * LO);
    Quotient(n + size, q + s + carry, lo + r - carry * LO);
    Quotient(lo + size, s + carry, lo + r - carry * LO);
    AddHigh(q, hi, s + carry);
  }

  lemma Quotient(n: nat, q: nat, r: nat)
    requires n == q * LO + r && r < LO
    ensures n / LO == q && n % LO == r
  {
  }

  lemma AddHigh(q: nat, hi: nat, more: nat)
    requires hi == q % U32
    ensures (hi + more) % U32 == (q + more) % U32
  {
    assert q == q / U32 * U32 + hi;
  }

  /** The position in the current block can be read off the low counter. */
  lemma UsedInBlock(lo: nat, hi: nat, n: nat)
    requires Counts(lo, hi, n)
    ensures lo % 64 == n % 64
  {
    assert n == n / LO * LO + lo;
    assert LO == 64 * 0x80_0000;
  }

  /** The counters make up the length in bits, modulo two to the 64. */
  lemma {:induction false} BitLength(lo: nat, hi: nat, n: nat)
    requires Counts(lo, hi, n)
    ensures ToBytes(8 * lo, 4) + ToBytes(hi, 4) == ToBytes(8 * n, 8)
  {
    var q := n / LO;
    assert n == q * LO + lo;
    assert 8 * n == q * U32 + 8 * lo;
    LowBytes(8 * n, 8 * lo, q);
    HighBytes(q, hi);
    SplitBytes(8 * n, 4, 4);
    FourDown(8 * n);
  }

  lemma {:induction false} LowBytes(n: nat, low: nat, q: nat)
    requires n == q * U32 + low && low < U32
    ensures ToBytes(n, 4) == ToBytes(low, 4) && n / 256 / 256 / 256 / 256 == q
  {
    assert U32 == 256 * (256 * (256 * 256));
    Digit(n, q * (256 * (256 * 256)), low);
    Digit(n / 256, q * (256 * 256), low / 256);
    Digit(n / 256 / 256, q * 256, low / 256 / 256);
    Digit(n / 256 / 256 / 256, q, low / 256 / 256 / 256);
    FourBytes(n);
    FourBytes(low);
  }

  lemma Digit(n: nat, q: nat, low: nat)
    requires n == 256 * q + low
    ensures n % 256 == low % 256 && n / 256 == q + low / 256
  {
  }

  lemma {:induction false} FourBytes(n: nat)
    ensures ToBytes(n, 4) ==
            [(n % 256) as Byte, (n / 256 % 256) as Byte, (n / 256 / 256 % 256) as Byte,
             (n / 256 / 256 / 256 % 256) as Byte]
  {
    assert ToBytes(n / 256 / 256 / 256 / 256, 0) == [];
    assert ToBytes(n / 256 / 256 / 256, 1) == [(n / 256 / 256 / 256 % 256) as Byte];
    assert ToBytes(n / 256 / 256, 2) == [(n / 256 / 256 % 256) as Byte, (n / 256 / 256 / 256 % 256) as Byte];
  }

  /** Only the low 32 bits of the high counter are written. */
  lemma {:induction false} HighBytes(q: nat, hi: nat)
    requires hi == q % U32
    ensures ToBytes(hi, 4) == ToBytes(q, 4)
  {
    assert q == q / U32 * U32 + hi;
    LowBytes(q, hi, q / U32);
  }

  /** A number without its low `a` bytes. */
  function Shifted(n: nat, a: nat): nat {
    if a == 0 then n else Shifted(n / 256, a - 1)
  }

  lemma {:induction false} FourDown(n: nat)
    ensures Shifted(n, 4) == n / 256 / 256 / 256 / 256
  {
    assert Shifted(n / 256 / 256 / 256, 1) == n / 256 / 256 / 256 / 256;
    assert Shifted(n / 256 / 256, 2) == n / 256 / 256 / 256 / 256;
  }

  /** The high bytes of a number are the bytes of what is left after the low ones. */
  lemma {:induction false} SplitBytes(n: nat, a: nat, b: nat)
    ensures ToBytes(n, a + b) == ToBytes(n, a) + ToBytes(Shifted(n, a), b)
    decreases a
  {
    if a != 0 {
      SplitBytes(n / 256, a - 1, b);
    }
  }

  // ------------------------------------------------------------------ the streaming context

  class Context {
    var lo: nat
    var hi: nat
    var v: Chain
    const buffer: array<Byte>
    ghost var message: seq<Byte>

    /** The context stands for the message so far: whole blocks in the registers, the rest in the buffer. */
    ghost predicate Valid()
      reads this, buffer
    {
      && buffer.Length == BLOCK && Counts(lo, hi, |message|)
      && v == Fold(INITIAL, message)
      && buffer[..|message| % 64] == message[Whole(|message|)..]
    }

    constructor ()
      ensures Valid() && message == [] && fresh(buffer)
    {
      lo, hi, v, message := 0, 0, INITIAL, [];
      buffer := new Byte[BLOCK](_ => 0);
    }

    /** memcpy into the buffer. */
    method Fill(at: nat, data: seq<Byte>)
      requires buffer.Length == BLOCK && at + |data| <= BLOCK
      modifies buffer
      ensures buffer[..at + |data|] == old(buffer[..at]) + data
    {
      for i := 0 to |data|
        invariant buffer[..at + i] == old(buffer[..at]) + data[..i]
      {
        buffer[at + i] := data[i];
      }
      assert data[..|data|] == data;
    }

    /** Counts `size` more bytes. */
    method AddToCount(size: nat, ghost n: nat)
      requires Counts(lo, hi, n)
      modifies `lo, `hi
      ensures Counts(lo, hi, n + size)
    {
      hide Counts;
      var savedLo := lo;
      CountersAdd(lo, hi, n, size);
      LowCounter(lo, hi, n);
      CarryFirst(hi, if (lo + size) % LO < lo then 1 else 0, size / LO);
      lo := (savedLo + size) % LO;
      if lo < savedLo {
        hi := (hi + 1) % U32;
      }
      hi := (hi + size / LO) % U32;
    }

    /** Adds `data` to the message. */
    method Update(data: seq<Byte>)
      requires Valid()
      modifies this, buffer
      ensures Valid() && message == old(message) + data
    {
      hide Fold, Counts;
      ghost var before := message;
      UsedInBlock(lo, hi, |message|);
      var used := lo % 64;
      AddToCount(|data|, |message|);
      message := message + data;
      if used + |data| < 64 && used != 0 {
        Fill(used, data);
        StillPartial(before, data);
        FoldWhole(INITIAL, before);
        FoldWhole(INITIAL, message);
      } else {
        FillBlocks(before, data, used);
      }
    }

    /** Completes the block in the buffer, then takes the rest of the data. */
    method FillBlocks(ghost before: seq<Byte>, data: seq<Byte>, used: nat)
      requires buffer.Length == BLOCK && used == |before| % 64 && (used != 0 ==> 64 <= used + |data|)
      requires v == Fold(INITIAL, before) && buffer[..used] == before[Whole(|before|)..]
      modifies this`v, buffer
      ensures v == Fold(INITIAL, before + data)
      ensures buffer[..|before + data| % 64] == (before + data)[Whole(|before + data|)..]
    {
      hide Fold;
      FoldWhole(INITIAL, before);
      if used != 0 {
        var available := 64 - used;
        Fill(used, data[..available]);
        assert buffer[..] == buffer[..64];
        CompletedBlock(before, data, used);
        v := Body(v, buffer[..]);
        TakeRest(before[..Whole(|before|)] + buffer[..], data[available..]);
      } else {
        assert before[..Whole(|before|)] == before;
        TakeRest(before, data);
      }
    }

    /** After whole blocks: takes all further ones from the data, and keeps what is left. */
    method TakeRest(ghost done: seq<Byte>, data: seq<Byte>)
      requires buffer.Length == BLOCK && |done| % 64 == 0 && v == Fold(INITIAL, done)
      modifies this`v, buffer
      ensures v == Fold(INITIAL, done + data)
      ensures buffer[..|done + data| % 64] == (done + data)[Whole(|done + data|)..]
    {
      hide Fold;
      var whole := Whole(|data|);
      assert done + data == (done + data[..whole]) + data[whole..];
      FoldAppend(INITIAL, done, data[..whole]);
      if |data| >= 64 {
        v := Body(v, data[..whole]);
      } else {
        ShortFold(v, data[..whole]);
      }
      Fill(0, data[whole..]);
      RestOfBlock(done + data, done + data[..whole], data[whole..]);
      FoldAppend(INITIAL, done + data[..whole], data[whole..]);
      ShortFold(v, data[whole..]);
    }

    /** Zeros up to the last eight bytes of the block, then the length in bits. */
    method LastBlock(ghost head: seq<Byte>, used: nat, ghost n: nat)
      requires buffer.Length == BLOCK && used <= 56 && buffer[..used] == head && Counts(lo, hi, n)
      modifies this`v, buffer
      ensures v == Fold(old(v), head + Zeros(56 - used) + ToBytes(8 * n, 8))
    {
      hide Fold, Counts, Zeros, ToBytes;
      BitLength(lo, hi, n);
      Fill(used, Zeros(56 - used));
      Fill(56, ToBytes(8 * lo, 4));
      Fill(60, ToBytes(hi, 4));
      assert buffer[..] == buffer[..64];
      Regroup(head + Zeros(56 - used), ToBytes(8 * lo, 4), ToBytes(hi, 4), [], []);
      v := Body(v, buffer[..]);
    }

    /** Pads the message and returns its digest; the context is cleared. */
    method Final() returns (result: seq<Byte>)
      requires Valid()
      modifies this, buffer
      ensures result == Digest(message) && message == old(message)
    {
      hide Fold, Counts, Zeros, ToBytes, Padded;
      ghost var n, rest, start := |message|, message[Whole(|message|)..], v;
      UsedInBlock(lo, hi, n);
      PaddedTail(message);
      var used := lo % 64;
      Fill(used, [0x80]);
      used := used + 1;
      var available := 64 - used;
      if available < 8 {
        Fill(used, Zeros(available));
        assert buffer[..] == buffer[..64];
        TwoBlocks(v, rest, available, ToBytes(8 * n, 8));
        v := Body(v, buffer[..]);
        assert buffer[..0] == [];
        LastBlock([], 0, n);
        assert [] + Zeros(56) == Zeros(56);
      } else {
        LastBlock(rest + [0x80], used, n);
      }
      result := Out(v);
      lo, hi := 0, 0;
    }
  }

  /** The block that the first part of the data completes. */
  lemma CompletedBlock(before: seq<Byte>, data: seq<Byte>, used: nat)
    requires used == |before| % 64 && 64 <= used + |data|
    ensures var block := before[Whole(|before|)..] + data[..64 - used];
            && |block| == 64 && (before[..Whole(|before|)] + block) + data[64 - used..] == before + data
            && |before[..Whole(|before|)] + block| % 64 == 0
            && Fold(INITIAL, before[..Whole(|before|)] + block) == Fold(Fold(INITIAL, before), block)
  {
    hide Fold;
    var block := before[Whole(|before|)..] + data[..64 - used];
    FoldAppend(INITIAL, before[..Whole(|before|)], block);
    FoldWhole(INITIAL, before);
  }

  lemma LowCounter(lo: nat, hi: nat, n: nat)
    requires Counts(lo, hi, n)
    ensures lo < LO && hi < U32
  {
  }

  /** The two additions to the high counter may be made one after the other. */
  lemma CarryFirst(hi: nat, carry: nat, more: nat)
    requires hi < U32 && carry <= 1
    ensures ((hi + carry) % U32 + more) % U32 == (hi + carry + more) % U32
  {
    AddHigh(hi + carry, (hi + carry) % U32, more);
  }

  /** A short piece only fills the buffer up further. */
  lemma StillPartial(before: seq<Byte>, data: seq<Byte>)
    requires |before| % 64 + |data| < 64
    ensures Whole(|before + data|) == Whole(|before|)
    ensures (before + data)[Whole(|before + data|)..] == before[Whole(|before|)..] + data
    ensures (before + data)[..Whole(|before + data|)] == before[..Whole(|before|)]
  {
    assert |before| == |before| / 64 * 64 + |before| % 64;
  }

  /** What is left after whole blocks is the last part of the message. */
  lemma RestOfBlock(message: seq<Byte>, done: seq<Byte>, rest: seq<Byte>)
    requires done + rest == message && |done| % 64 == 0 && |rest| < 64
    ensures |message| % 64 == |rest| && message[Whole(|message|)..] == rest
  {
    assert |message| == |done| + |rest|;
    assert |done| == |done| / 64 * 64;
    assert message[|done|..] == rest;
  }

  lemma Regroup(a: seq<Byte>, b: seq<Byte>, c: seq<Byte>, d: seq<Byte>, e: seq<Byte>)
    ensures a + b + c + d + e == a + (b + c + d + e) && a + b + c == a + (b + c)
  {
  }

  /** The end of the padded message, from the last whole block of the message on. */
  function Tail(message: seq<Byte>): seq<Byte> {
    message[Whole(|message|)..] + [0x80] + Zeros(ZeroCount(|message|)) + ToBytes(8 * |message|, 8)
  }

  /** The padded message is its whole blocks and a tail of one or two blocks. */
  lemma PaddedSplits(message: seq<Byte>)
    ensures Padded(message) == message[..Whole(|message|)] + Tail(message)
  {
    hide ToBytes, Zeros, ZeroCount;
    var head, rest := message[..Whole(|message|)], message[Whole(|message|)..];
    assert message == head + rest;
    Regroup(head, rest, [0x80], Zeros(ZeroCount(|message|)), ToBytes(8 * |message|, 8));
  }

  lemma {:induction false} PaddedTail(message: seq<Byte>)
    ensures Digest(message) == Out(Fold(Fold(INITIAL, message), Tail(message)))
  {
    assert Digest(message) == Out(Fold(INITIAL, Padded(message)));
    hide *;
    PaddedSplits(message);
    FoldAppend(INITIAL, message[..Whole(|message|)], Tail(message));
    FoldWhole(INITIAL, message);
  }

  /** A tail of two blocks is taken one after the other. */
  lemma {:induction false} TwoBlocks(v: Chain, rest: seq<Byte>, z: nat, length: seq<Byte>)
    requires |rest| + 1 + z == 64 && |length| == 8
    ensures Zeros(z + 56) == Zeros(z) + Zeros(56)
    ensures Fold(v, rest + [0x80] + Zeros(z + 56) + length) ==
            Fold(Fold(v, rest + [0x80] + Zeros(z)), Zeros(56) + length)
  {
    hide Fold;
    assert Zeros(z + 56) == Zeros(z) + Zeros(56);
    assert rest + [0x80] + Zeros(z + 56) + length == (rest + [0x80] + Zeros(z)) + (Zeros(56) + length);
    FoldAppend(v, rest + [0x80] + Zeros(z), Zeros(56) + length);
  }

  /** The digest of a message that is there in one piece. */
  method Md5Of(message: seq<Byte>) returns (result: seq<Byte>)
    ensures result == Digest(message)
  {
    var ctx := new Context();
    ctx.Update(message);
    assert [] + message == message;
    result := ctx.Final();
  }

  function Joined(pieces: seq<seq<Byte>>): seq<Byte> {
    if pieces == [] then [] else Joined(pieces[..|pieces| - 1]) + pieces[|pieces| - 1]
  }

  lemma JoinedStart(pieces: seq<seq<Byte>>)
    ensures Joined(pieces[..0]) == [] && pieces[..|pieces|] == pieces
  {
  }

  lemma OnePieceMore(pieces: seq<seq<Byte>>, i: nat)
    requires i < |pieces|
    ensures Joined(pieces[..i + 1]) == Joined(pieces[..i]) + pieces[i]
  {
    assert pieces[..i + 1][..i] == pieces[..i];
  }

  /** However a message is split, the digest is that of the whole. */
  method Md5OfPieces(pieces: seq<seq<Byte>>) returns (result: seq<Byte>)
    ensures result == Digest(Joined(pieces))
  {
    hide Digest, Joined, Fold, Counts, Whole, Padded;
    var ctx := new Context();
    JoinedStart(pieces);
    for i := 0 to |pieces|
      invariant ctx.Valid() && ctx.message == Joined(pieces[..i]) && fresh(ctx) && fresh(ctx.buffer)
    {
      OnePieceMore(pieces, i);
      ctx.Update(pieces[i]);
    }
    result := ctx.Final();
  }
}
