/** What printing an ini dictionary and reading it back keeps. */
module IniOrder {
  import opened Slots
  import opened IniFile

  ghost predicate NoKey(entries: seq<Entry>, key: string) {
    forall i :: 0 <= i < |entries| ==> entries[i].key != key
  }

  ghost predicate DistinctKeys(entries: seq<Entry>) {
    forall i, j :: 0 <= i < j < |entries| ==> entries[i].key != entries[j].key
  }

  /** The section that the last entries stand under: the latest section name. */
  function Current(entries: seq<Entry>): Option<string> {
    if |entries| == 0 then
      None
    else
      var e := entries[|entries| - 1];
      if HasColon(e.key) then Current(entries[..|entries| - 1]) else Some(e.key)
  }

  /** Section entries carry no value; every other entry follows its own section and has a value. */
  predicate Grouped(entries: seq<Entry>) {
    |entries| == 0 ||
    (var before, e := entries[..|entries| - 1], entries[|entries| - 1];
     && Grouped(before)
     && if HasColon(e.key)
        then e.val.Some? && Current(before).Some? && Belongs(e.key, Current(before).value)
        else e.val.None?)
  }

  // ----- What is read back -----

  function Fields(entries: seq<Entry>, s: string): seq<Entry> {
    if |entries| == 0 then
      []
    else
      var e := entries[|entries| - 1];
      Fields(entries[..|entries| - 1], s) + if Belongs(e.key, s) then [Entry(e.key, Some(Text(e.val)))] else []
  }

  function Under(entries: seq<Entry>, names: seq<string>): seq<Entry> {
    if |names| == 0 then
      []
    else
      var s := names[|names| - 1];
      Under(entries, names[..|names| - 1]) + [Entry(s, None)] + Fields(entries, s)
  }

  /** The entries again, each section followed by its own keys in slot order. */
  function Regrouped(entries: seq<Entry>): seq<Entry> {
    Under(entries, Sections(entries))
  }

  // ----- Keys and sections -----

  lemma PrefixAt(s: string, key: string)
    requires Belongs(key, s)
    ensures |s| < |key| && key[|s|] == ':' && HasColon(key)
    ensures s + ":" + key[|s| + 1..] == key
    ensures forall i :: 0 <= i < |s| ==> key[i] == s[i]
  {
    assert (s + ":")[|s|] == ':';
    assert key == key[..|s| + 1] + key[|s| + 1..];
    forall i | 0 <= i < |s| ensures key[i] == s[i] {
      assert (s + ":")[i] == s[i];
    }
  }

  /** A key belongs to one section only. */
  lemma OneSection(key: string, s: string, t: string)
    requires Belongs(key, s) && Belongs(key, t) && !HasColon(s) && !HasColon(t)
    ensures s == t
  {
    PrefixAt(s, key);
    PrefixAt(t, key);
    assert forall i :: 0 <= i < |s| ==> s[i] == t[i];
  }

  lemma {:induction false} SectionsHaveNoColon(entries: seq<Entry>, i: nat)
    requires i < |Sections(entries)|
    ensures !HasColon(Sections(entries)[i])
    ensures exists j :: 0 <= j < |entries| && entries[j].key == Sections(entries)[i]
  {
    var n := |entries| - 1;
    if i < |Sections(entries[..n])| {
      SectionsHaveNoColon(entries[..n], i);
      var j :| 0 <= j < n && entries[..n][j].key == Sections(entries)[i];
      assert entries[j].key == Sections(entries)[i];
    } else {
      assert entries[n].key == Sections(entries)[i];
    }
  }

  lemma {:induction false} SectionsDiffer(entries: seq<Entry>, i: nat, j: nat)
    requires DistinctKeys(entries) && i < j < |Sections(entries)|
    ensures Sections(entries)[i] != Sections(entries)[j]
  {
    var n := |entries| - 1;
    if j < |Sections(entries[..n])| {
      SectionsDiffer(entries[..n], i, j);
    } else {
      SectionsHaveNoColon(entries[..n], i);
      var k :| 0 <= k < n && entries[..n][k].key == Sections(entries[..n])[i];
      assert entries[k].key != entries[n].key;
    }
  }

  lemma {:induction false} FieldsBelong(entries: seq<Entry>, s: string, i: nat)
    requires i < |Fields(entries, s)|
    ensures Belongs(Fields(entries, s)[i].key, s)
    ensures exists j :: 0 <= j < |entries| && entries[j].key == Fields(entries, s)[i].key
  {
    var n := |entries| - 1;
    if i < |Fields(entries[..n], s)| {
      FieldsBelong(entries[..n], s, i);
      var j :| 0 <= j < n && entries[..n][j].key == Fields(entries, s)[i].key;
      assert entries[j].key == Fields(entries, s)[i].key;
    } else {
      assert entries[n].key == Fields(entries, s)[i].key;
    }
  }

  /** Reading back keeps section names and keys of earlier sections only. */
  lemma {:induction false} UnderHolds(entries: seq<Entry>, names: seq<string>, i: nat)
    requires i < |Under(entries, names)|
    ensures exists m ::
            0 <= m < |names|
              && (Under(entries, names)[i].key == names[m] || Belongs(Under(entries, names)[i].key, names[m]))
  {
    var n := |names| - 1;
    var k := |Under(entries, names[..n])|;
    if i < k {
      UnderHolds(entries, names[..n], i);
      var m :| 0 <= m < n
        && (Under(entries, names)[i].key == names[..n][m] || Belongs(Under(entries, names)[i].key, names[..n][m]));
      assert names[..n][m] == names[m];
    } else if i > k {
      FieldsBelong(entries, names[n], i - k - 1);
    }
  }

  ghost predicate Names(names: seq<string>) {
    && (forall i :: 0 <= i < |names| ==> !HasColon(names[i]))
    && (forall i, j :: 0 <= i < j < |names| ==> names[i] != names[j])
  }

  lemma NewSection(entries: seq<Entry>, names: seq<string>)
    requires Names(names) && |names| > 0
    ensures NoKey(Under(entries, names[..|names| - 1]), names[|names| - 1])
  {
    var n := |names| - 1;
    var before := Under(entries, names[..n]);
    forall i | 0 <= i < |before| ensures before[i].key != names[n] {
      UnderHolds(entries, names[..n], i);
      var m :| 0 <= m < n && (before[i].key == names[..n][m] || Belongs(before[i].key, names[..n][m]));
      if Belongs(before[i].key, names[m]) {
        PrefixAt(names[m], before[i].key);
      }
    }
  }

  lemma {:induction false} NewField(entries: seq<Entry>, names: seq<string>, i: nat)
    requires DistinctKeys(entries) && Names(names) && |names| > 0
    requires i < |entries| && Belongs(entries[i].key, names[|names| - 1])
    ensures NoKey(Under(entries, names[..|names| - 1]) + [Entry(names[|names| - 1], None)]
                  + Fields(entries[..i], names[|names| - 1]), entries[i].key)
  {
    var n := |names| - 1;
    PrefixAt(names[n], entries[i].key);
    hide Belongs, Under, Fields, Names, DistinctKeys, HasColon;
    NotUnderOthers(entries, names, entries[i].key);
    NotAmongFields(entries, names[n], i);
  }

  lemma NotUnderOthers(entries: seq<Entry>, names: seq<string>, key: string)
    requires Names(names) && |names| > 0 && Belongs(key, names[|names| - 1])
    ensures NoKey(Under(entries, names[..|names| - 1]), key)
  {
    var n := |names| - 1;
    var before := Under(entries, names[..n]);
    PrefixAt(names[n], key);
    hide Under;
    forall k | 0 <= k < |before| ensures before[k].key != key {
      UnderHolds(entries, names[..n], k);
      var m :| 0 <= m < n && (before[k].key == names[..n][m] || Belongs(before[k].key, names[..n][m]));
      assert names[..n][m] == names[m];
      if before[k].key == key && Belongs(key, names[m]) {
        OneSection(key, names[m], names[n]);
      }
    }
  }

  lemma {:induction false} NotAmongFields(entries: seq<Entry>, s: string, i: nat)
    requires DistinctKeys(entries) && i < |entries|
    ensures NoKey(Fields(entries[..i], s), entries[i].key)
  {
    var fields := Fields(entries[..i], s);
    forall k | 0 <= k < |fields| ensures fields[k].key != entries[i].key {
      FieldsBelong(entries[..i], s, k);
      var j :| 0 <= j < i && entries[..i][j].key == fields[k].key;
      assert entries[j].key != entries[i].key;
    }
  }

  // ----- Reading back what was printed -----

  lemma PutNew(entries: seq<Entry>, key: string, val: Value)
    requires NoKey(entries, key)
    ensures Put(entries, key, val) == entries + [Entry(key, val)]
  {
  }

  lemma {:induction false} ReadSnoc(lines: seq<Line>, line: Line)
    ensures Read(lines + [line]) == ReadLine(Read(lines), line)
  {
    assert (lines + [line])[..|lines|] == lines;
  }

  lemma {:induction false} ReadSettings(entries: seq<Entry>, names: seq<string>, lines: seq<Line>, i: nat)
    requires DistinctKeys(entries) && Names(names) && |names| > 0 && i <= |entries|
    requires Read(lines) ==
             Reader(names[|names| - 1], Under(entries, names[..|names| - 1]) + [Entry(names[|names| - 1], None)])
    ensures Read(lines + Settings(entries[..i], names[|names| - 1]))
         == Reader(names[|names| - 1],
                   Under(entries, names[..|names| - 1]) + [Entry(names[|names| - 1], None)]
                     + Fields(entries[..i], names[|names| - 1]))
  {
    var s := names[|names| - 1];
    if i == 0 {
      assert lines + Settings([], s) == lines;
    } else {
      ReadSettings(entries, names, lines, i - 1);
      var e := entries[i - 1];
      assert entries[..i] == entries[..i - 1] + [e];
      SettingsSnoc(entries[..i - 1], s, e);
      FieldsSnoc(entries[..i - 1], s, e);
      hide Read, Settings, Fields, Under, Names, DistinctKeys;
      if Belongs(e.key, s) {
        NewField(entries, names, i - 1);
        ReadSetting(lines + Settings(entries[..i - 1], s), s, e);
        Glue(lines, Settings(entries[..i - 1], s), Setting(e.key[|s| + 1..], Text(e.val)));
        Glue(Under(entries, names[..|names| - 1]) + [Entry(s, None)], Fields(entries[..i - 1], s),
             Entry(e.key, Some(Text(e.val))));
      } else {
        assert Settings(entries[..i - 1], s) + [] == Settings(entries[..i - 1], s);
        assert Fields(entries[..i - 1], s) + [] == Fields(entries[..i - 1], s);
      }
    }
  }

  lemma {:induction false} ReadSetting(before: seq<Line>, s: string, e: Entry)
    requires Read(before).section == s && Belongs(e.key, s) && NoKey(Read(before).entries, e.key)
    ensures Read(before + [Setting(e.key[|s| + 1..], Text(e.val))])
         == Reader(s, Read(before).entries + [Entry(e.key, Some(Text(e.val)))])
  {
    PrefixAt(s, e.key);
    PutNew(Read(before).entries, e.key, Some(Text(e.val)));
    ReadSnoc(before, Setting(e.key[|s| + 1..], Text(e.val)));
  }

  lemma {:induction false} ReadSections(entries: seq<Entry>, names: seq<string>)
    requires DistinctKeys(entries) && Names(names)
    ensures Loaded(SectionsLines(entries, names)) == Under(entries, names)
  {
    if |names| > 0 {
      var n := |names| - 1;
      ReadSections(entries, names[..n]);
      ReadSection(entries, names, SectionsLines(entries, names[..n]));
    }
  }

  lemma {:induction false} ReadSection(entries: seq<Entry>, names: seq<string>, before: seq<Line>)
    requires DistinctKeys(entries) && Names(names) && |names| > 0
    requires Loaded(before) == Under(entries, names[..|names| - 1])
    ensures Loaded(before + SectionLines(entries, names[|names| - 1])) == Under(entries, names)
  {
    var s := names[|names| - 1];
    NewSection(entries, names);
    OpenSection(before, s);
    UnderStep(entries, names);
    ReadSettings(entries, names, before + [Blank, Section(s)], |entries|);
    hide *;
    assert entries[..|entries|] == entries;
    BlankIsSkipped(before + [Blank, Section(s)] + Settings(entries, s));
    SectionLinesAre(entries, s, before);
    LoadedIs(before + SectionLines(entries, s));
  }

  lemma {:induction false} LoadedIs(lines: seq<Line>)
    ensures Loaded(lines) == Read(lines).entries
  {
  }

  lemma {:induction false} SectionLinesAre(entries: seq<Entry>, s: string, before: seq<Line>)
    ensures before + SectionLines(entries, s) == before + [Blank, Section(s)] + Settings(entries, s) + [Blank]
  {
  }

  lemma {:induction false} UnderStep(entries: seq<Entry>, names: seq<string>)
    requires |names| > 0
    ensures Under(entries, names)
         == Under(entries, names[..|names| - 1]) + [Entry(names[|names| - 1], None)]
           + Fields(entries, names[|names| - 1])
  {
  }

  lemma {:induction false} BlankIsSkipped(lines: seq<Line>)
    ensures Read(lines + [Blank]) == Read(lines)
  {
    ReadSnoc(lines, Blank);
  }

  lemma {:induction false} OpenSection(lines: seq<Line>, s: string)
    requires NoKey(Loaded(lines), s)
    ensures Read(lines + [Blank, Section(s)]) == Reader(s, Loaded(lines) + [Entry(s, None)])
  {
    BlankIsSkipped(lines);
    ReadSnoc(lines + [Blank], Section(s));
    PutNew(Loaded(lines), s, None);
    assert lines + [Blank, Section(s)] == lines + [Blank] + [Section(s)];
  }

  /** Whatever the slots held: each section comes back once, followed by its keys, in slot order. */
  lemma {:induction false} PrintedThenRead(entries: seq<Entry>)
    requires DistinctKeys(entries) && Sections(entries) != []
    ensures Loaded(Dumped(entries)) == Regrouped(entries)
  {
    var names := Sections(entries);
    forall i | 0 <= i < |names| ensures !HasColon(names[i]) {
      SectionsHaveNoColon(entries, i);
    }
    forall i, j | 0 <= i < j < |names| ensures names[i] != names[j] {
      SectionsDiffer(entries, i, j);
    }
    ReadSections(entries, names);
    ReadSnoc(SectionsLines(entries, names), Blank);
  }

  // ----- When the order is kept -----

  lemma {:induction false} GroupedSnoc(entries: seq<Entry>, e: Entry)
    ensures Grouped(entries + [e]) <==> Grouped(entries) && if HasColon(e.key)
      then e.val.Some? && Current(entries).Some? && Belongs(e.key, Current(entries).value)
      else e.val.None?
    ensures Current(entries + [e]) == if HasColon(e.key) then Current(entries) else Some(e.key)
  {
    assert (entries + [e])[..|entries|] == entries;
  }

  lemma {:induction false} FieldsGrouped(before: seq<Entry>, entries: seq<Entry>, s: string)
    requires Grouped(before) && Current(before) == Some(s)
    ensures Grouped(before + Fields(entries, s)) && Current(before + Fields(entries, s)) == Some(s)
  {
    if |entries| == 0 {
      assert before + Fields(entries, s) == before;
    } else {
      var n := |entries| - 1;
      var e := entries[n];
      FieldsGrouped(before, entries[..n], s);
      if Belongs(e.key, s) {
        PrefixAt(s, e.key);
        GroupedSnoc(before + Fields(entries[..n], s), Entry(e.key, Some(Text(e.val))));
        assert before + Fields(entries, s) == before + Fields(entries[..n], s) + [Entry(e.key, Some(Text(e.val)))];
      } else {
        assert before + Fields(entries, s) == before + Fields(entries[..n], s);
      }
    }
  }

  lemma {:induction false} UnderGrouped(entries: seq<Entry>, names: seq<string>)
    requires forall i :: 0 <= i < |names| ==> !HasColon(names[i])
    ensures Grouped(Under(entries, names))
  {
    if |names| > 0 {
      var n := |names| - 1;
      UnderGrouped(entries, names[..n]);
      GroupedSnoc(Under(entries, names[..n]), Entry(names[n], None));
      FieldsGrouped(Under(entries, names[..n]) + [Entry(names[n], None)], entries, names[n]);
    }
  }

  lemma {:induction false} FieldsSnoc(entries: seq<Entry>, s: string, e: Entry)
    ensures Fields(entries + [e], s) == Fields(entries, s)
            + if Belongs(e.key, s) then [Entry(e.key, Some(Text(e.val)))] else []
  {
    assert (entries + [e])[..|entries|] == entries;
  }

  /** An entry of another section changes nothing under these. */
  lemma {:induction false} UnderOthers(entries: seq<Entry>, e: Entry, names: seq<string>)
    requires forall i :: 0 <= i < |names| ==> !Belongs(e.key, names[i])
    ensures Under(entries + [e], names) == Under(entries, names)
  {
    if |names| > 0 {
      var n := |names| - 1;
      assert !Belongs(e.key, names[n]);
      forall i | 0 <= i < n ensures !Belongs(e.key, names[..n][i]) {
        assert names[..n][i] == names[i];
      }
      UnderOthers(entries, e, names[..n]);
      FieldsSnoc(entries, names[n], e);
    }
  }

  /** In grouped entries the current section is the last, and no other name has keys yet. */
  lemma {:induction false} GroupedCurrent(entries: seq<Entry>)
    requires Grouped(entries)
    ensures Current(entries) ==
            if Sections(entries) == [] then None else Some(Sections(entries)[|Sections(entries)| - 1])
  {
    if |entries| > 0 {
      GroupedCurrent(entries[..|entries| - 1]);
    }
  }

  lemma {:induction false} NoFieldsYet(entries: seq<Entry>, s: string)
    requires Grouped(entries) && !HasColon(s) && NoKey(entries, s)
    ensures Fields(entries, s) == []
  {
    if |entries| > 0 {
      var n := |entries| - 1;
      var before, e := entries[..n], entries[n];
      NoFieldsYet(before, s);
      if Belongs(e.key, s) {
        PrefixAt(s, e.key);
        GroupedCurrent(before);
        var last := |Sections(before)| - 1;
        SectionsHaveNoColon(before, last);
        OneSection(e.key, s, Sections(before)[last]);
      }
    }
  }

  /** A key of the last section goes to the end. */
  lemma {:induction false} AddField(before: seq<Entry>, e: Entry)
    requires DistinctKeys(before) && Grouped(before) && Regrouped(before) == before
    requires HasColon(e.key) && e.val.Some? && Current(before).Some? && Belongs(e.key, Current(before).value)
    ensures Regrouped(before + [e]) == before + [e]
  {
    var names := Sections(before);
    var last := |names| - 1;
    GroupedCurrent(before);
    SectionsSnoc(before, e);
    assert Sections(before + [e]) == names;
    hide Belongs, Sections, Under, Grouped, DistinctKeys, HasColon;
    OfLastOnly(before, e);
    AddToLast(before, e, names);
  }

  lemma AddToLast(before: seq<Entry>, e: Entry, names: seq<string>)
    requires |names| > 0 && e.val.Some? && Belongs(e.key, names[|names| - 1])
    requires var earlier := names[..|names| - 1]; forall i :: 0 <= i < |earlier| ==> !Belongs(e.key, earlier[i])
    ensures Under(before + [e], names) == Under(before, names) + [e]
  {
    var last := |names| - 1;
    UnderOthers(before, e, names[..last]);
    FieldsSnoc(before, names[last], e);
    UnderStep(before, names);
    UnderStep(before + [e], names);
    TextIs(e);
    Glue(Under(before, names[..last]) + [Entry(names[last], None)], Fields(before, names[last]), e);
  }

  lemma Glue<T>(a: seq<T>, b: seq<T>, e: T)
    ensures a + (b + [e]) == a + b + [e]
  {
  }

  lemma TextIs(e: Entry)
    requires e.val.Some?
    ensures Entry(e.key, Some(Text(e.val))) == e
  {
  }

  /** A key of the last section belongs to no earlier one. */
  lemma {:induction false} OfLastOnly(before: seq<Entry>, e: Entry)
    requires DistinctKeys(before) && Sections(before) != [] && Belongs(e.key, Sections(before)[|Sections(before)| - 1])
    ensures var names := Sections(before)[..|Sections(before)| - 1];
            forall i :: 0 <= i < |names| ==> !Belongs(e.key, names[i])
  {
    var names := Sections(before);
    var last := |names| - 1;
    SectionsHaveNoColon(before, last);
    forall i | 0 <= i < last ensures !Belongs(e.key, names[..last][i]) {
      SectionsHaveNoColon(before, i);
      SectionsDiffer(before, i, last);
      hide Belongs, Sections, HasColon, DistinctKeys;
      if Belongs(e.key, names[i]) {
        OneSection(e.key, names[i], names[last]);
      }
    }
  }

  /** A new section goes to the end. */
  lemma {:induction false} AddSection(before: seq<Entry>, e: Entry)
    requires Grouped(before) && Regrouped(before) == before && NoKey(before, e.key)
    requires !HasColon(e.key) && e.val.None?
    ensures Regrouped(before + [e]) == before + [e]
  {
    var names := Sections(before);
    forall i | 0 <= i < |names| ensures !Belongs(e.key, names[i]) {
      if Belongs(e.key, names[i]) {
        PrefixAt(names[i], e.key);
      }
    }
    UnderOthers(before, e, names);
    NoFieldsYet(before, e.key);
    FieldsSnoc(before, e.key, e);
    assert !Belongs(e.key, e.key);
    SectionsSnoc(before, e);
    hide Sections, Fields, Belongs, Grouped, NoKey;
    assert (names + [e.key])[..|names|] == names;
  }

  lemma {:induction false} GroupedIsRegrouped(entries: seq<Entry>)
    requires DistinctKeys(entries) && Grouped(entries)
    ensures Regrouped(entries) == entries
  {
    if |entries| > 0 {
      var n := |entries| - 1;
      assert entries == entries[..n] + [entries[n]];
      GroupedIsRegrouped(entries[..n]);
      if HasColon(entries[n].key) {
        AddField(entries[..n], entries[n]);
      } else {
        AddSection(entries[..n], entries[n]);
      }
    }
  }

  lemma {:induction false} PlainFirst(entries: seq<Entry>)
    requires |entries| > 0
    ensures |Loaded(PlainLines(entries))| > 0 && Loaded(PlainLines(entries))[0].key == ":" + entries[0].key
    ensures Read(PlainLines(entries)).section == ""
  {
    var n := |entries| - 1;
    var e := entries[n];
    var before := PlainLines(entries[..n]);
    PlainSnoc(entries[..n], e);
    assert entries == entries[..n] + [e];
    ReadSnoc(before, Setting(e.key, Text(e.val)));
    assert "" + ":" + e.key == ":" + e.key;
    if n > 0 {
      PlainFirst(entries[..n]);
      hide PlainLines, Read;
      PutKeepsFirst(Loaded(before), ":" + e.key, Some(Text(e.val)));
    }
  }

  lemma PutKeepsFirst(entries: seq<Entry>, key: string, val: Value)
    requires |entries| > 0
    ensures |Put(entries, key, val)| > 0 && Put(entries, key, val)[0].key == entries[0].key
  {
  }

  lemma {:induction false} NoSectionNotGrouped(entries: seq<Entry>)
    requires Grouped(entries) && Sections(entries) == []
    ensures entries == []
  {
    if |entries| > 0 {
      NoSectionNotGrouped(entries[..|entries| - 1]);
    }
  }

  /** Without any section every key comes back once, in order, under a section without a name. */
  lemma {:induction false} PlainThenRead(entries: seq<Entry>)
    requires DistinctKeys(entries)
    ensures Read(PlainLines(entries)).section == "" && |Loaded(PlainLines(entries))| == |entries|
    ensures forall i :: 0 <= i < |entries| ==>
            Loaded(PlainLines(entries))[i] == Entry(":" + entries[i].key, Some(Text(entries[i].val)))
  {
    if |entries| > 0 {
      var n := |entries| - 1;
      PlainThenRead(entries[..n]);
      assert entries == entries[..n] + [entries[n]];
      hide DistinctKeys, PlainLines, Read;
      OnePlainMore(entries[..n], entries[n]);
    }
  }

  lemma {:induction false} OnePlainMore(front: seq<Entry>, e: Entry)
    requires DistinctKeys(front + [e])
    requires Read(PlainLines(front)).section == "" && |Loaded(PlainLines(front))| == |front|
    requires forall i :: 0 <= i < |front| ==>
             Loaded(PlainLines(front))[i] == Entry(":" + front[i].key, Some(Text(front[i].val)))
    ensures Read(PlainLines(front + [e])).section == ""
    ensures Loaded(PlainLines(front + [e])) == Loaded(PlainLines(front)) + [Entry(":" + e.key, Some(Text(e.val)))]
  {
    var before := Loaded(PlainLines(front));
    forall i | 0 <= i < |front| ensures before[i].key != ":" + e.key {
      assert front[i] == (front + [e])[i] && e == (front + [e])[|front|];
      assert front[i].key == (":" + front[i].key)[1..] && e.key == (":" + e.key)[1..];
    }
    hide DistinctKeys, PlainLines, Read;
    PlainSnoc(front, e);
    ReadSnoc(PlainLines(front), Setting(e.key, Text(e.val)));
    PutNew(before, ":" + e.key, Some(Text(e.val)));
    assert "" + ":" + e.key == ":" + e.key;
  }

  /** Printing and reading back is the identity exactly on grouped contents. */
  lemma {:induction false} OrderKeptIffGrouped(entries: seq<Entry>)
    requires DistinctKeys(entries)
    ensures Loaded(Dumped(entries)) == entries <==> Grouped(entries)
  {
    if Sections(entries) == [] {
      if |entries| > 0 {
        PlainFirst(entries);
        assert |":" + entries[0].key| > |entries[0].key|;
      }
      if Grouped(entries) {
        NoSectionNotGrouped(entries);
      }
    } else {
      PrintedThenRead(entries);
      forall i | 0 <= i < |Sections(entries)| ensures !HasColon(Sections(entries)[i]) {
        SectionsHaveNoColon(entries, i);
      }
      UnderGrouped(entries, Sections(entries));
      if Grouped(entries) {
        GroupedIsRegrouped(entries);
      }
    }
  }
}
