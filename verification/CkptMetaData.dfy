/** The checkpoint metadata file: one section per checkpoint id. */
module CkptMetaData {
  import opened Slots
  import opened IniFile
  import opened Decimals

  datatype Rec = Rec(id: nat, timestamp: string, level: nat, nbProcs: nat, ioMode: nat, isDcp: bool)

  const ENTRIES: nat := 6

  function SectionOf(id: nat): string {
    "checkpoint_id." + Decimal(id)
  }

  function FieldName(f: nat): string
    requires 1 <= f < ENTRIES
  {
    if f == 1 then "timestamp" else if f == 2 then "level" else if f == 3 then "nb_procs" else if f == 4 then "io_mode"
      else "is_dcp"
  }

  /** The key of entry `f` of a checkpoint; entry 0 is the section itself. */
  function Key(id: nat, f: nat): string
    requires f < ENTRIES
  {
    if f == 0 then SectionOf(id) else SectionOf(id) + ":" + FieldName(f)
  }

  function Val(r: Rec, f: nat): Value
    requires f < ENTRIES
  {
    if f == 0 then None
    else if f == 1 then Some(r.timestamp)
    else if f == 2 then Some(Decimal(r.level))
    else if f == 3 then Some(Decimal(r.nbProcs))
    else if f == 4 then Some(Decimal(r.ioMode))
    else Some(if r.isDcp then "true" else "false")
  }

  function RecEntries(r: Rec): (es: seq<Entry>) {
    seq(ENTRIES, f requires 0 <= f < ENTRIES => Entry(Key(r.id, f), Val(r, f)))
  }

  function PutAll(entries: seq<Entry>, more: seq<Entry>): seq<Entry> {
    if |more| == 0 then
      entries
    else
      var e := more[|more| - 1];
      Put(PutAll(entries, more[..|more| - 1]), e.key, e.val)
  }

  /** The entries of the metadata file, if there is one. */
  function Base(file: Option<seq<Line>>): seq<Entry> {
    if file.None? then [] else Loaded(file.value)
  }

  function WrittenLines(file: Option<seq<Line>>, r: Rec): seq<Line> {
    Dumped(PutAll(Base(file), RecEntries(r)))
  }

  // ----- Writing -----

  /** An empty dictionary, or the one in the file. */
  method OpenIni(file: Option<seq<Line>>) returns (ini: Dictionary.Dictionary)
    ensures fresh(ini) && ini.Valid() && fresh(ini.key) && fresh(ini.val) && fresh(ini.hash)
    ensures Packed(ini.Contents(), Base(file))
  {
    hide UniqueKeys, Count, Loaded, Dictionary.Hash;
    if file.None? {
      ini := new Dictionary.Dictionary(0);
    } else {
      ini := Load(file.value);
    }
  }

  /** Create or update the section of one checkpoint. */
  method WriteCkptMetaData(file: Option<seq<Line>>, r: Rec) returns (lines: seq<Line>)
    ensures lines == WrittenLines(file, r)
  {
    ghost var base := Base(file);
    PutAllStart(base, r);
    hide UniqueKeys, Count, Base, RecEntries, PutAll, Key, Val, Dictionary.Hash, Packed, ToMap, AfterSet;
    var ini := OpenIni(file);
    for f := 0 to ENTRIES
      invariant fresh(ini) && ini.Valid() && fresh(ini.key) && fresh(ini.val) && fresh(ini.hash)
      invariant Packed(ini.Contents(), PutAll(base, RecEntries(r)[..f]))
    {
      PutAllNext(base, r, f);
      SetKeepsOrder(ini.Contents(), PutAll(base, RecEntries(r)[..f]), Key(r.id, f), Val(r, f));
      ini.Set(Key(r.id, f), Val(r, f));
    }
    PackedOccupied(ini.Contents(), PutAll(base, RecEntries(r)));
    lines := Dump(ini);
  }

  lemma {:induction false} PutAllStart(base: seq<Entry>, r: Rec)
    ensures |RecEntries(r)| == ENTRIES && RecEntries(r)[..ENTRIES] == RecEntries(r)
    ensures PutAll(base, RecEntries(r)[..0]) == base
  {
  }

  lemma {:induction false} PutAllNext(base: seq<Entry>, r: Rec, f: nat)
    requires f < ENTRIES
    ensures |RecEntries(r)| == ENTRIES
    ensures PutAll(base, RecEntries(r)[..f + 1]) == Put(PutAll(base, RecEntries(r)[..f]), Key(r.id, f), Val(r, f))
  {
    assert RecEntries(r)[..f + 1][..f] == RecEntries(r)[..f];
  }

  // ----- Loading -----

  /** What is taken from the file; the id is unset when the section name does not hold one. */
  datatype Found = Found(id: Option<nat>, level: int, isDcp: Option<bool>)

  function ScanId(key: string): Option<nat> {
    if "checkpoint_id." <= key && DigitCount(key[14..]) > 0 then Some(Number(key[14..])) else None
  }

  function ToInt(val: Value): int {
    if val.Some? then Number(val.value) else -1
  }

  function ToBool(val: Value): Option<bool> {
    if val.None? || val.value == [] then
      None
    else if val.value[0] in "yY1tT" then
      Some(true)
    else if val.value[0] in "nN0fF" then
      Some(false)
    else
      None
  }

  function ValueAt(entries: seq<Entry>, key: string): Value {
    var i := IndexFrom(entries, key, 0);
    if i < |entries| then entries[i].val else None
  }

  /** What the section says about its checkpoint. */
  function SectionFound(entries: seq<Entry>, section: string): Option<Found> {
    var level := ToInt(ValueAt(entries, section + ":" + FieldName(2)));
    var isDcp := ToBool(ValueAt(entries, section + ":" + FieldName(5)));
    if level == -1 || (level == 4 && isDcp.None?) then
      None
    else
      Some(Found(ScanId(section), level, if level == 4 then isDcp else None))
  }

  function LastCkpt(entries: seq<Entry>): Option<Found> {
    if |entries| < ENTRIES then None else SectionFound(entries, entries[|entries| - ENTRIES].key)
  }

  lemma PackedValue(slots: Slots, entries: seq<Entry>, key: string)
    requires Packed(slots, entries)
    ensures ValueAt(entries, key) == if key in ToMap(slots) then ToMap(slots)[key] else None
  {
    PackedFind(slots, entries, key);
    HasFound(slots, key);
  }

  /** The value of one field of the last section. */
  method GetField(ini: Dictionary.Dictionary, ghost base: seq<Entry>, lastCkpt: string, f: nat) returns (val: Value)
    requires ini.Valid() && Packed(ini.Contents(), base) && 1 <= f < ENTRIES
    ensures val == ValueAt(base, lastCkpt + ":" + FieldName(f))
  {
    PackedValue(ini.Contents(), base, lastCkpt + ":" + FieldName(f));
    val := ini.Get(lastCkpt + ":" + FieldName(f), None);
  }

  method LoadSection(ini: Dictionary.Dictionary, ghost base: seq<Entry>, section: string) returns (r: Option<Found>)
    requires ini.Valid() && Packed(ini.Contents(), base)
    ensures r == SectionFound(base, section)
  {
    hide Packed, UniqueKeys, Count, ScanId, ToInt, ToBool, FieldName, ValueAt, Dictionary.Hash;
    var text := GetField(ini, base, section, 2);
    var level := ToInt(text);
    if level == -1 {
      return None;
    }
    var isDcp := None;
    if level == 4 {
      var flag := GetField(ini, base, section, 5);
      isDcp := ToBool(flag);
      if isDcp.None? {
        return None;
      }
    }
    r := Some(Found(ScanId(section), level, isDcp));
  }

  method KeyAt(ini: Dictionary.Dictionary, ghost base: seq<Entry>, i: nat) returns (key: string)
    requires ini.Shape() && Packed(ini.Contents(), base) && i < |base|
    ensures key == base[i].key
  {
    assert ini.Contents()[i] == Some(base[i]);
    key := ini.key[i].value;
  }

  /** Find the last checkpoint: the section six slots before the end. */
  method LoadCkptMetaData(file: Option<seq<Line>>) returns (r: Option<Found>)
    ensures r == LastCkpt(Base(file))
  {
    hide *;
    ghost var base := Base(file);
    LastCkptIs(base);
    if file.None? {
      NoFile(file);
      return None;
    }
    var ini := OpenIni(file);
    CountIs(ini, base);
    if ini.n < ENTRIES {
      return None;
    }
    var section := KeyAt(ini, base, ini.n - ENTRIES);
    r := LoadSection(ini, base, section);
  }

  lemma NoFile(file: Option<seq<Line>>)
    requires file.None?
    ensures Base(file) == []
  {
  }

  lemma CountIs(ini: Dictionary.Dictionary, base: seq<Entry>)
    requires ini.Valid() && Packed(ini.Contents(), base)
    ensures ini.n == |base| && ini.Shape()
  {
    PackedCount(ini.Contents(), base);
  }

  lemma LastCkptIs(base: seq<Entry>)
    ensures ENTRIES == 6
    ensures LastCkpt(base) == if |base| < ENTRIES then None else SectionFound(base, base[|base| - ENTRIES].key)
  {
  }
}
