/** Printing a dictionary as an ini file and reading it back, at the level of line kinds. */
module IniFile {
  import opened Slots
  import Dictionary

  datatype Line = Blank | Section(name: string) | Setting(key: string, val: string)

  predicate HasColon(key: string) {
    ':' in key
  }

  /** The key was set inside section `s`. */
  predicate Belongs(key: string, s: string) {
    s + ":" <= key
  }

  function Text(val: Value): string {
    if val.Some? then val.value else ""
  }

  /** The entries in slot order. */
  function Occupied(slots: Slots): seq<Entry> {
    if |slots| == 0 then
      []
    else
      var e := slots[|slots| - 1];
      Occupied(slots[..|slots| - 1]) + if e.Some? then [e.value] else []
  }

  /** Section names are the keys without a colon. */
  function Sections(entries: seq<Entry>): (r: seq<string>) {
    if |entries| == 0 then
      []
    else
      var key := entries[|entries| - 1].key;
      Sections(entries[..|entries| - 1]) + if HasColon(key) then [] else [key]
  }

  // ----- Printing -----

  function Settings(entries: seq<Entry>, s: string): seq<Line> {
    if |entries| == 0 then
      []
    else
      var e := entries[|entries| - 1];
      Settings(entries[..|entries| - 1], s) + if Belongs(e.key, s) then [Setting(e.key[|s| + 1..], Text(e.val))] else []
  }

  function SectionLines(entries: seq<Entry>, s: string): seq<Line> {
    [Blank, Section(s)] + Settings(entries, s) + [Blank]
  }

  function SectionsLines(entries: seq<Entry>, names: seq<string>): seq<Line> {
    if |names| == 0 then
      []
    else
      SectionsLines(entries, names[..|names| - 1]) + SectionLines(entries, names[|names| - 1])
  }

  /** Without any section the keys are printed as they are. */
  function PlainLines(entries: seq<Entry>): (r: seq<Line>)
    ensures |r| == |entries|
  {
    if |entries| == 0 then
      []
    else
      var e := entries[|entries| - 1];
      PlainLines(entries[..|entries| - 1]) + [Setting(e.key, Text(e.val))]
  }

  function Dumped(entries: seq<Entry>): seq<Line> {
    if Sections(entries) == [] then PlainLines(entries) else SectionsLines(entries, Sections(entries)) + [Blank]
  }

  // ----- Reading -----

  datatype Reader = Reader(section: string, entries: seq<Entry>)

  function ReadLine(r: Reader, line: Line): Reader {
    match line
    case Blank => r
    case Section(name) => Reader(name, Put(r.entries, name, None))
    case Setting(key, val) => r.(entries := Put(r.entries, r.section + ":" + key, Some(val)))
  }

  function Read(lines: seq<Line>): Reader {
    if |lines| == 0 then Reader("", []) else ReadLine(Read(lines[..|lines| - 1]), lines[|lines| - 1])
  }

  function Loaded(lines: seq<Line>): seq<Entry> {
    Read(lines).entries
  }

  // ----- One more entry -----

  lemma {:induction false} SectionsSnoc(entries: seq<Entry>, e: Entry)
    ensures Sections(entries + [e]) == Sections(entries) + if HasColon(e.key) then [] else [e.key]
  {
    assert (entries + [e])[..|entries|] == entries;
  }

  lemma {:induction false} SettingsSnoc(entries: seq<Entry>, s: string, e: Entry)
    ensures Settings(entries + [e], s)
         == Settings(entries, s) + if Belongs(e.key, s) then [Setting(e.key[|s| + 1..], Text(e.val))] else []
  {
    assert (entries + [e])[..|entries|] == entries;
  }

  lemma {:induction false} PlainSnoc(entries: seq<Entry>, e: Entry)
    ensures PlainLines(entries + [e]) == PlainLines(entries) + [Setting(e.key, Text(e.val))]
  {
    assert (entries + [e])[..|entries|] == entries;
  }

  // ----- The loops -----

  method CountSections(d: Dictionary.Dictionary) returns (nsec: nat)
    requires d.Valid()
    ensures nsec == |Sections(Occupied(d.Contents()))|
  {
    nsec := 0;
    for i := 0 to d.key.Length
      invariant nsec == |Sections(Occupied(d.Contents()[..i]))|
    {
      assert d.Contents()[..i + 1][..i] == d.Contents()[..i];
      NextSection(d.Contents(), i);
      if d.key[i].Some? && !HasColon(d.key[i].value) {
        nsec := nsec + 1;
      }
    }
    assert d.Contents()[..d.key.Length] == d.Contents();
  }

  lemma NextOccupied(slots: Slots, i: nat)
    requires i < |slots|
    ensures slots[i].Some? ==> Occupied(slots[..i + 1]) == Occupied(slots[..i]) + [slots[i].value]
    ensures slots[i].None? ==> Occupied(slots[..i + 1]) == Occupied(slots[..i])
  {
    assert slots[..i + 1][..i] == slots[..i];
  }

  lemma NextSection(slots: Slots, i: nat)
    requires i < |slots|
    ensures Sections(Occupied(slots[..i + 1]))
         == Sections(Occupied(slots[..i]))
           + if slots[i].Some? && !HasColon(slots[i].value.key) then [slots[i].value.key] else []
  {
    hide Occupied, Sections, HasColon;
    NextOccupied(slots, i);
    if slots[i].Some? {
      SectionsSnoc(Occupied(slots[..i]), slots[i].value);
    }
  }

  /** The sections of the first slots come first. */
  lemma {:induction false} SectionsGrow(slots: Slots, i: nat)
    requires i <= |slots|
    ensures Sections(Occupied(slots[..i])) <= Sections(Occupied(slots))
    decreases |slots| - i
  {
    if i < |slots| {
      NextSection(slots, i);
      SectionsGrow(slots, i + 1);
    } else {
      assert slots[..i] == slots;
    }
  }

  /** The name of section `n`, counting from zero in slot order. */
  method SectionName(d: Dictionary.Dictionary, n: nat) returns (r: Option<string>)
    requires d.Valid()
    ensures r == if n < |Sections(Occupied(d.Contents()))| then Some(Sections(Occupied(d.Contents()))[n]) else None
  {
    ghost var slots := d.Contents();
    assert Sections(Occupied(slots[..0])) == [];
    hide Occupied, Sections, HasColon, UniqueKeys, Count, Dictionary.Hash;
    var i, foundsec := 0, 0;
    while i < d.key.Length && foundsec <= n
      invariant i <= d.key.Length
      invariant foundsec == |Sections(Occupied(slots[..i]))|
      invariant foundsec <= n
                || (foundsec == n + 1 && 0 < i && slots[i - 1].Some?
                    && slots[i - 1].value.key == Sections(Occupied(slots[..i]))[n])
    {
      NextSection(slots, i);
      if d.key[i].Some? && !HasColon(d.key[i].value) {
        foundsec := foundsec + 1;
      }
      i := i + 1;
    }
    SectionsGrow(slots, i);
    assert slots[..|slots|] == slots;
    r := if foundsec <= n then None else d.key[i - 1];
  }

  lemma {:induction false} NextSetting(slots: Slots, s: string, i: nat)
    requires i < |slots|
    ensures Settings(Occupied(slots[..i + 1]), s)
         == Settings(Occupied(slots[..i]), s)
            + if slots[i].Some? && Belongs(slots[i].value.key, s)
              then [Setting(slots[i].value.key[|s| + 1..], Text(slots[i].value.val))] else []
  {
    hide Occupied, Settings, Belongs;
    NextOccupied(slots, i);
    if slots[i].Some? {
      SettingsSnoc(Occupied(slots[..i]), s, slots[i].value);
    }
  }

  method DumpSettings(d: Dictionary.Dictionary, s: string) returns (lines: seq<Line>)
    requires d.Valid()
    ensures lines == Settings(Occupied(d.Contents()), s)
  {
    ghost var slots := d.Contents();
    assert Settings(Occupied(slots[..0]), s) == [];
    hide Occupied, Settings, UniqueKeys, Count, Dictionary.Hash;
    lines := [];
    for j := 0 to d.key.Length
      invariant lines == Settings(Occupied(slots[..j]), s)
    {
      NextSetting(slots, s, j);
      if d.key[j].Some? && Belongs(d.key[j].value, s) {
        lines := lines + [Setting(d.key[j].value[|s| + 1..], Text(d.val[j]))];
      }
    }
    assert slots[..d.key.Length] == slots;
  }

  /** Print one section; nothing if the name is no key. */
  method DumpSection(d: Dictionary.Dictionary, s: string) returns (lines: seq<Line>)
    requires d.Valid()
    ensures lines == if s in ToMap(d.Contents()) then SectionLines(Occupied(d.Contents()), s) else []
  {
    var i := d.Search(s);
    HasFound(d.Contents(), s);
    if i == d.key.Length {
      return [];
    }
    var settings := DumpSettings(d, s);
    lines := [Blank, Section(s)] + settings + [Blank];
  }

  lemma NextPlain(slots: Slots, i: nat)
    requires i < |slots|
    ensures PlainLines(Occupied(slots[..i + 1]))
         == PlainLines(Occupied(slots[..i]))
           + if slots[i].Some? then [Setting(slots[i].value.key, Text(slots[i].value.val))] else []
  {
    hide Occupied, PlainLines;
    NextOccupied(slots, i);
    if slots[i].Some? {
      PlainSnoc(Occupied(slots[..i]), slots[i].value);
    }
  }

  lemma {:induction false} SectionIsKey(slots: Slots, n: nat)
    requires n < |Sections(Occupied(slots))|
    ensures Sections(Occupied(slots))[n] in Keys(slots)
    decreases |slots|
  {
    var last := |slots| - 1;
    assert slots[..last + 1] == slots;
    NextSection(slots, last);
    hide Sections, HasColon, Keys;
    if n < |Sections(Occupied(slots[..last]))| {
      SectionIsKey(slots[..last], n);
      KeysGrow(slots, last, Sections(Occupied(slots))[n]);
    } else {
      KeysAt(slots, slots[last].value.key);
      assert HasKey(slots, last, slots[last].value.key);
    }
  }

  lemma KeysGrow(slots: Slots, n: nat, key: string)
    requires n <= |slots| && key in Keys(slots[..n])
    ensures key in Keys(slots)
  {
    KeysAt(slots[..n], key);
    var i :| HasKey(slots[..n], i, key);
    assert HasKey(slots, i, key);
    KeysAt(slots, key);
  }

  /** Print all keys as they are. */
  method DumpPlain(d: Dictionary.Dictionary) returns (lines: seq<Line>)
    requires d.Valid()
    ensures lines == PlainLines(Occupied(d.Contents()))
  {
    lines := [];
    for i := 0 to d.key.Length
      invariant lines == PlainLines(Occupied(d.Contents()[..i]))
    {
      NextPlain(d.Contents(), i);
      if d.key[i].Some? {
        lines := lines + [Setting(d.key[i].value, Text(d.val[i]))];
      }
    }
    assert d.Contents()[..d.key.Length] == d.Contents();
  }

  /** Print the whole dictionary, section by section in slot order. */
  method Dump(d: Dictionary.Dictionary) returns (lines: seq<Line>)
    requires d.Valid()
    ensures lines == Dumped(Occupied(d.Contents()))
  {
    hide Occupied, Sections, SectionLines, Keys, UniqueKeys, Count, Dictionary.Hash;
    ghost var entries := Occupied(d.Contents());
    ghost var names := Sections(entries);
    var nsec := CountSections(d);
    if nsec < 1 {
      lines := DumpPlain(d);
      return;
    }
    lines := [];
    for i := 0 to nsec
      invariant lines == SectionsLines(entries, names[..i])
    {
      var name := SectionName(d, i);
      SectionIsKey(d.Contents(), i);
      var section := DumpSection(d, name.value);
      assert names[..i + 1][..i] == names[..i];
      lines := lines + section;
    }
    assert names[..nsec] == names;
    lines := lines + [Blank];
  }

  /** Read lines into a new dictionary: keys are stored under the latest section. */
  method Load(lines: seq<Line>) returns (d: Dictionary.Dictionary)
    ensures fresh(d) && d.Valid() && fresh(d.key) && fresh(d.val) && fresh(d.hash)
    ensures Packed(d.Contents(), Loaded(lines))
  {
    hide UniqueKeys, Count, ToMap, Dictionary.Hash, Put;
    d := new Dictionary.Dictionary(0);
    var section := "";
    for i := 0 to |lines|
      invariant fresh(d) && d.Valid() && fresh(d.key) && fresh(d.val) && fresh(d.hash)
      invariant section == Read(lines[..i]).section && Packed(d.Contents(), Loaded(lines[..i]))
    {
      assert lines[..i + 1][..i] == lines[..i];
      match lines[i]
      case Blank =>
      case Section(name) =>
        section := name;
        SetKeepsOrder(d.Contents(), Loaded(lines[..i]), section, None);
        d.Set(section, None);
      case Setting(key, val) =>
        SetKeepsOrder(d.Contents(), Loaded(lines[..i]), section + ":" + key, Some(val));
        d.Set(section + ":" + key, Some(val));
    }
    assert lines[..|lines|] == lines;
  }

  lemma {:induction false} PackedOccupied(slots: Slots, entries: seq<Entry>)
    requires Packed(slots, entries)
    ensures Occupied(slots) == entries
  {
    if |slots| > 0 {
      var n := |slots| - 1;
      PackedOccupied(slots[..n], if |entries| == |slots| then entries[..n] else entries);
    }
  }
}
