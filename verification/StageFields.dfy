/** The packed fields of the staging feature: the status byte and the word of the request table. */
module StageFields {
  // ------------------------------------------------------------------ the status byte

  const VAL_MASK: bv8 := 0xE
  const AVL_MASK: bv8 := 0x1

  function ValBits(b: bv8): bv8 {
    (b & VAL_MASK) >> 1
  }

  function AvlBit(b: bv8): bv8 {
    b & AVL_MASK
  }

  /** A value above 4 is refused and leaves the byte alone. */
  function WithVal(b: bv8, entry: bv8): bv8 {
    if entry > 4 then b else (entry << 1) | (!VAL_MASK & b)
  }

  function WithAvl(b: bv8, entry: bv8): bv8 {
    if entry > 1 then b else entry | (!AVL_MASK & b)
  }

  /** Each field can be set without touching the other one or the free bits. */
  lemma StatusFieldLaws(b: bv8, v: bv8, a: bv8)
    ensures v <= 4 ==> ValBits(WithVal(b, v)) == v && AvlBit(WithVal(b, v)) == AvlBit(b)
    ensures a <= 1 ==> AvlBit(WithAvl(b, a)) == a && ValBits(WithAvl(b, a)) == ValBits(b)
    ensures v <= 4 ==> WithVal(b, v) & 0xF0 == b & 0xF0
    ensures a <= 1 ==> WithAvl(b, a) & 0xF0 == b & 0xF0
    ensures v > 4 ==> WithVal(b, v) == b
    ensures a > 1 ==> WithAvl(b, a) == b
    ensures WithVal(WithAvl(b, a), v) == WithAvl(WithVal(b, v), a)
  {
  }

  /** The status of a staging request. */
  datatype Status = NINI | PEND | ACTV | SCES | FAIL

  function Code(v: Status): bv8 {
    match v
    case NINI => 0
    case PEND => 1
    case ACTV => 2
    case SCES => 3
    case FAIL => 4
  }

  /** The byte of one ID. */
  datatype Cell = Cell(bits: bv8)

  function GetVal(c: Cell): Status {
    var v := ValBits(c.bits);
    if v == Code(PEND) then PEND else if v == Code(ACTV) then ACTV
    else if v == Code(SCES) then SCES else if v == Code(FAIL) then FAIL else NINI
  }

  /** The ID is taken. */
  predicate Taken(c: Cell) {
    AvlBit(c.bits) == 1
  }

  function SetVal(c: Cell, v: Status): Cell {
    Cell(WithVal(c.bits, Code(v)))
  }

  function SetTaken(c: Cell, taken: bool): Cell {
    Cell(WithAvl(c.bits, if taken then 1 else 0))
  }

  lemma CellLaws(c: Cell, v: Status, taken: bool)
    ensures GetVal(SetVal(c, v)) == v && (Taken(SetVal(c, v)) <==> Taken(c))
    ensures (Taken(SetTaken(c, taken)) <==> taken) && GetVal(SetTaken(c, taken)) == GetVal(c)
  {
    StatusFieldLaws(c.bits, Code(v), if taken then 1 else 0);
    hide ValBits, AvlBit, WithVal, WithAvl;
  }

  lemma ClearCell()
    ensures GetVal(Cell(0)) == NINI && !Taken(Cell(0))
  {
  }

  // ------------------------------------------------------------------ the word of the request table

  const MAX_NUM: nat := 524288
  const MAX_ID: nat := 0x7ffff
  const WORD: nat := 0x1_0000_0000

  /** Bit 19 of a word. */
  function GetAll(field: nat): nat {
    field / MAX_NUM % 2
  }

  /** Bits 0 to 18 of a word. */
  function GetIdx(field: nat): nat {
    field % MAX_NUM
  }

  /** The word with bit 19 replaced; an entry above 1 is refused. */
  function SetAll(field: nat, entry: nat): nat {
    if entry > 1 then field else field - GetAll(field) * MAX_NUM + entry * MAX_NUM
  }

  /** The word with its low 19 bits replaced; an entry that does not fit is refused. */
  function SetIdx(field: nat, entry: nat): nat {
    if entry > MAX_ID then field else field - GetIdx(field) + entry
  }

  lemma TableFieldLaws(field: nat, a: nat, i: nat)
    requires field < WORD
    ensures SetAll(field, a) < WORD && SetIdx(field, i) < WORD
    ensures a <= 1 ==> GetAll(SetAll(field, a)) == a && GetIdx(SetAll(field, a)) == GetIdx(field)
    ensures i <= MAX_ID ==> GetIdx(SetIdx(field, i)) == i && GetAll(SetIdx(field, i)) == GetAll(field)
    ensures GetIdx(field) <= MAX_ID && GetAll(field) <= 1
  {
    var high, bit, low := field / (2 * MAX_NUM), GetAll(field), GetIdx(field);
    assert field == high * (2 * MAX_NUM) + bit * MAX_NUM + low;
    if a <= 1 {
      assert SetAll(field, a) == high * (2 * MAX_NUM) + a * MAX_NUM + low;
    }
    if i <= MAX_ID {
      assert SetIdx(field, i) == high * (2 * MAX_NUM) + bit * MAX_NUM + i;
    }
  }
}
