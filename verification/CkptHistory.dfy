/** What the metadata file says after any history of checkpoints. */
module CkptHistory {
  import opened Slots
  import opened IniFile
  import opened IniOrder
  import opened Decimals
  import opened CkptMetaData

  // ----- Keys of different checkpoints differ -----

  lemma DecimalNoColon(id: nat)
    ensures !HasColon(SectionOf(id))
  {
    DecimalDigits(id);
    assert forall i :: 0 <= i < |Decimal(id)| ==> Decimal(id)[i] != ':';
    assert ':' !in "checkpoint_id.";
  }

  lemma SectionsApart(a: nat, b: nat)
    requires SectionOf(a) == SectionOf(b)
    ensures a == b
  {
    assert SectionOf(a)[14..] == Decimal(a) && SectionOf(b)[14..] == Decimal(b);
    NumberRoundTrip(a);
    NumberRoundTrip(b);
  }

  lemma FieldNamesDiffer(f: nat, g: nat)
    requires 1 <= f < g < ENTRIES
    ensures FieldName(f) != FieldName(g)
  {
    assert "timestamp"[0] == 't' && "level"[0] == 'l' && "nb_procs"[0] == 'n' && "io_mode"[1] == 'o'
           && "is_dcp"[1] == 's';
    assert "io_mode"[0] == 'i' && "is_dcp"[0] == 'i';
  }

  lemma SamePrefix(s: string, a: string, b: string)
    requires s + a == s + b
    ensures a == b
  {
    assert (s + a)[|s|..] == a && (s + b)[|s|..] == b;
  }

  lemma KeyShape(id: nat, f: nat)
    requires f < ENTRIES
    ensures f == 0 ==> Key(id, f) == SectionOf(id) && !HasColon(Key(id, f))
    ensures f > 0 ==>
            Key(id, f) == SectionOf(id) + ":" + FieldName(f) && Belongs(Key(id, f), SectionOf(id))
              && HasColon(Key(id, f))
  {
    DecimalNoColon(id);
    if f > 0 {
      PrefixAt(SectionOf(id), Key(id, f));
    }
  }

  lemma KeysApart(a: nat, f: nat, b: nat, g: nat)
    requires f < ENTRIES && g < ENTRIES && Key(a, f) == Key(b, g)
    ensures a == b && f == g
  {
    KeyShape(a, f);
    KeyShape(b, g);
    DecimalNoColon(a);
    DecimalNoColon(b);
    hide Key, SectionOf, Belongs, HasColon, FieldName;
    if f > 0 && g > 0 {
      OneSection(Key(a, f), SectionOf(a), SectionOf(b));
      SamePrefix(SectionOf(a) + ":", FieldName(f), FieldName(g));
      if f < g {
        FieldNamesDiffer(f, g);
      } else if g < f {
        FieldNamesDiffer(g, f);
      }
    }
    SectionsApart(a, b);
  }

  // ----- One record of each checkpoint, in the order of first writes -----

  function Flat(recs: seq<Rec>): (r: seq<Entry>)
    ensures |r| == ENTRIES * |recs|
  {
    if |recs| == 0 then [] else Flat(recs[..|recs| - 1]) + RecEntries(recs[|recs| - 1])
  }

  ghost predicate DistinctIds(recs: seq<Rec>) {
    forall i, j :: 0 <= i < j < |recs| ==> recs[i].id != recs[j].id
  }

  function Position(recs: seq<Rec>, id: nat): (r: nat)
    ensures r <= |recs|
    ensures r < |recs| ==> recs[r].id == id
    ensures r == |recs| ==> forall i :: 0 <= i < |recs| ==> recs[i].id != id
  {
    if |recs| == 0 then 0
    else if recs[|recs| - 1].id == id then |recs| - 1
    else
      var p := Position(recs[..|recs| - 1], id);
      if p < |recs| - 1 then p else |recs|
  }

  /** A known id is updated where it is, a new one is appended. */
  function Recorded(recs: seq<Rec>, r: Rec): seq<Rec> {
    var p := Position(recs, r.id);
    if p < |recs| then recs[p := r] else recs + [r]
  }

  function Records(writes: seq<Rec>): seq<Rec> {
    if |writes| == 0 then [] else Recorded(Records(writes[..|writes| - 1]), writes[|writes| - 1])
  }

  function File(writes: seq<Rec>): Option<seq<Line>> {
    if |writes| == 0 then None else Some(WrittenLines(File(writes[..|writes| - 1]), writes[|writes| - 1]))
  }

  lemma {:induction false} FlatSnoc(recs: seq<Rec>, r: Rec)
    ensures Flat(recs + [r]) == Flat(recs) + RecEntries(r)
  {
    assert (recs + [r])[..|recs|] == recs;
  }

  lemma {:induction false} FlatAt(recs: seq<Rec>, p: nat, f: nat)
    requires p < |recs| && f < ENTRIES
    ensures Flat(recs)[ENTRIES * p + f] == Entry(Key(recs[p].id, f), Val(recs[p], f))
  {
    if p < |recs| - 1 {
      FlatAt(recs[..|recs| - 1], p, f);
    }
  }

  lemma {:induction false} FlatDistinct(recs: seq<Rec>)
    requires DistinctIds(recs)
    ensures DistinctKeys(Flat(recs))
  {
    forall i, j | 0 <= i < j < |Flat(recs)| ensures Flat(recs)[i].key != Flat(recs)[j].key {
      Locate(recs, i);
      Locate(recs, j);
      if Flat(recs)[i].key == Flat(recs)[j].key {
        KeysApart(recs[i / 6].id, i % 6, recs[j / 6].id, j % 6);
      }
    }
  }

  lemma {:induction false} Locate(recs: seq<Rec>, i: nat)
    requires i < |Flat(recs)|
    ensures i / 6 < |recs| && Flat(recs)[i].key == Key(recs[i / 6].id, i % 6)
  {
    FlatAt(recs, i / 6, i % 6);
  }

  // ----- Grouping -----

  lemma {:induction false} AppendRec(before: seq<Entry>, r: Rec, f: nat)
    requires Grouped(before) && f <= ENTRIES
    ensures Grouped(before + RecEntries(r)[..f])
    ensures f > 0 ==> Current(before + RecEntries(r)[..f]) == Some(SectionOf(r.id))
  {
    if f == 0 {
      assert before + RecEntries(r)[..0] == before;
    } else {
      AppendRec(before, r, f - 1);
      AppendField(before + RecEntries(r)[..f - 1], r, f - 1);
      hide *;
      OneLonger(before, RecEntries(r), f - 1);
    }
  }

  lemma {:induction false} OneLonger(a: seq<Entry>, b: seq<Entry>, f: nat)
    requires f < |b|
    ensures a + b[..f + 1] == a + b[..f] + [b[f]]
  {
  }

  lemma {:induction false} AppendField(before: seq<Entry>, r: Rec, f: nat)
    requires Grouped(before) && f < ENTRIES
    requires f > 0 ==> Current(before) == Some(SectionOf(r.id))
    ensures Grouped(before + [RecEntries(r)[f]])
    ensures Current(before + [RecEntries(r)[f]]) == Some(SectionOf(r.id))
  {
    KeyShape(r.id, f);
    ValIsSet(r, f);
    GroupedSnoc(before, RecEntries(r)[f]);
    hide Grouped, Current, Key, SectionOf, Belongs, HasColon, RecEntries, FieldName;
  }

  lemma {:induction false} ValIsSet(r: Rec, f: nat)
    requires f < ENTRIES
    ensures RecEntries(r)[f] == Entry(Key(r.id, f), Val(r, f)) && (Val(r, f).None? <==> f == 0)
  {
  }

  lemma {:induction false} FlatGrouped(recs: seq<Rec>)
    ensures Grouped(Flat(recs))
  {
    if |recs| > 0 {
      FlatGrouped(recs[..|recs| - 1]);
      var r := recs[|recs| - 1];
      AppendRec(Flat(recs[..|recs| - 1]), r, ENTRIES);
      assert RecEntries(r)[..ENTRIES] == RecEntries(r);
    }
  }

  // ----- One write -----

  lemma {:induction false} PutAllNew(entries: seq<Entry>, more: seq<Entry>)
    requires DistinctKeys(more) && forall i :: 0 <= i < |more| ==> NoKey(entries, more[i].key)
    ensures PutAll(entries, more) == entries + more
  {
    if |more| > 0 {
      var n := |more| - 1;
      forall i | 0 <= i < n ensures NoKey(entries, more[..n][i].key) {
        assert more[..n][i] == more[i];
      }
      PutAllNew(entries, more[..n]);
      assert NoKey(entries + more[..n], more[n].key);
      PutNew(entries + more[..n], more[n].key, more[n].val);
      assert more == more[..n] + [more[n]];
    }
  }

  lemma PutAt(entries: seq<Entry>, at: nat, val: Value)
    requires DistinctKeys(entries) && at < |entries|
    ensures Put(entries, entries[at].key, val) == entries[at := Entry(entries[at].key, val)]
  {
    var i := IndexFrom(entries, entries[at].key, 0);
    assert i <= at;
  }

  lemma {:induction false} PutAllKnown(entries: seq<Entry>, at: nat, more: seq<Entry>)
    requires DistinctKeys(entries) && at + |more| <= |entries|
    requires forall i :: 0 <= i < |more| ==> entries[at + i].key == more[i].key
    ensures PutAll(entries, more) == entries[..at] + more + entries[at + |more|..]
  {
    if |more| == 0 {
      assert entries == entries[..at] + more + entries[at + |more|..];
    } else {
      var n := |more| - 1;
      PutAllKnown(entries, at, more[..n]);
      var patched := PutAll(entries, more[..n]);
      PatchedKeys(entries, at, more[..n], patched);
      PutAt(patched, at + n, more[n].val);
      PatchOne(entries, at, more, patched);
    }
  }

  lemma {:induction false} PatchOne(entries: seq<Entry>, at: nat, more: seq<Entry>, patched: seq<Entry>)
    requires 0 < |more| && at + |more| <= |entries|
    requires patched == entries[..at] + more[..|more| - 1] + entries[at + |more| - 1..]
    ensures patched[at + |more| - 1 := more[|more| - 1]] == entries[..at] + more + entries[at + |more|..]
  {
  }

  lemma {:induction false} PatchedKeys(entries: seq<Entry>, at: nat, more: seq<Entry>, patched: seq<Entry>)
    requires DistinctKeys(entries) && at + |more| <= |entries|
    requires forall i :: 0 <= i < |more| ==> entries[at + i].key == more[i].key
    requires patched == entries[..at] + more + entries[at + |more|..]
    ensures |patched| == |entries| && DistinctKeys(patched)
    ensures forall i :: 0 <= i < |entries| ==> patched[i].key == entries[i].key
  {
    forall i | 0 <= i < |entries| ensures patched[i].key == entries[i].key {
      if at <= i < at + |more| {
        assert patched[i] == more[i - at];
        assert entries[at + (i - at)].key == more[i - at].key;
      }
    }
    SameKeysDistinct(entries, patched);
  }

  lemma {:induction false} SameKeysDistinct(a: seq<Entry>, b: seq<Entry>)
    requires DistinctKeys(a) && |a| == |b| && forall i :: 0 <= i < |a| ==> b[i].key == a[i].key
    ensures DistinctKeys(b)
  {
  }

  lemma {:induction false} FlatUpdate(recs: seq<Rec>, p: nat, r: Rec)
    requires p < |recs|
    ensures Flat(recs[p := r]) == Flat(recs)[..ENTRIES * p] + RecEntries(r) + Flat(recs)[ENTRIES * (p + 1)..]
  {
    var n := |recs| - 1;
    if p == n {
      assert recs[p := r][..n] == recs[..n];
    } else {
      FlatUpdate(recs[..n], p, r);
      assert recs[p := r][..n] == recs[..n][p := r];
    }
  }

  lemma UpdateKnown(recs: seq<Rec>, p: nat, r: Rec)
    requires DistinctIds(recs) && p < |recs| && recs[p].id == r.id
    ensures PutAll(Flat(recs), RecEntries(r)) == Flat(recs[p := r])
  {
    hide Flat, RecEntries, DistinctIds, PutAll;
    FlatDistinct(recs);
    FlatUpdate(recs, p, r);
    RecordKeys(recs, p, r);
    PutAllKnown(Flat(recs), ENTRIES * p, RecEntries(r));
  }

  /** The entries of a checkpoint have the keys of its new record. */
  lemma {:induction false} RecordKeys(recs: seq<Rec>, p: nat, r: Rec)
    requires p < |recs| && recs[p].id == r.id
    ensures |RecEntries(r)| == ENTRIES && ENTRIES * p + ENTRIES <= |Flat(recs)|
    ensures forall f :: 0 <= f < ENTRIES ==> Flat(recs)[ENTRIES * p + f].key == RecEntries(r)[f].key
  {
    hide Flat, Key, Val;
    forall f | 0 <= f < ENTRIES ensures Flat(recs)[ENTRIES * p + f].key == RecEntries(r)[f].key {
      FlatAt(recs, p, f);
    }
  }

  lemma {:induction false} AppendNew(recs: seq<Rec>, r: Rec)
    requires forall i :: 0 <= i < |recs| ==> recs[i].id != r.id
    ensures PutAll(Flat(recs), RecEntries(r)) == Flat(recs + [r])
  {
    FlatSnoc(recs, r);
    FlatDistinct([r]);
    assert Flat([r]) == RecEntries(r) by {
      FlatSnoc([], r);
    }
    forall f | 0 <= f < ENTRIES ensures NoKey(Flat(recs), RecEntries(r)[f].key) {
      forall i | 0 <= i < |Flat(recs)| ensures Flat(recs)[i].key != RecEntries(r)[f].key {
        Locate(recs, i);
        if Key(recs[i / 6].id, i % 6) == Key(r.id, f) {
          KeysApart(recs[i / 6].id, i % 6, r.id, f);
        }
      }
    }
    PutAllNew(Flat(recs), RecEntries(r));
  }

  lemma RecordedDistinct(recs: seq<Rec>, r: Rec)
    requires DistinctIds(recs)
    ensures DistinctIds(Recorded(recs, r))
  {
  }

  /** After any history the file holds one record per id, in the order of first writes, each as last written. */
  lemma {:induction false} FileHoldsRecords(writes: seq<Rec>)
    ensures DistinctIds(Records(writes))
    ensures Base(File(writes)) == Flat(Records(writes))
  {
    if |writes| > 0 {
      var n := |writes| - 1;
      var r, recs := writes[n], Records(writes[..n]);
      FileHoldsRecords(writes[..n]);
      RecordedDistinct(recs, r);
      OneWrite(recs, r);
      FlatDistinct(Recorded(recs, r));
      FlatGrouped(Recorded(recs, r));
      OrderKeptIffGrouped(Flat(Recorded(recs, r)));
      FileStep(writes);
    }
  }

  lemma {:induction false} OneWrite(recs: seq<Rec>, r: Rec)
    requires DistinctIds(recs)
    ensures PutAll(Flat(recs), RecEntries(r)) == Flat(Recorded(recs, r))
  {
    var p := Position(recs, r.id);
    if p < |recs| {
      UpdateKnown(recs, p, r);
    } else {
      AppendNew(recs, r);
    }
  }

  lemma {:induction false} FileStep(writes: seq<Rec>)
    requires |writes| > 0
    ensures Base(File(writes)) ==
            Loaded(Dumped(PutAll(Base(File(writes[..|writes| - 1])), RecEntries(writes[|writes| - 1]))))
  {
  }

  // ----- Loading -----

  lemma ScanOwnId(id: nat)
    ensures ScanId(SectionOf(id)) == Some(id)
  {
    assert SectionOf(id)[14..] == Decimal(id);
    NumberRoundTrip(id);
  }

  lemma {:induction false} ValueInRec(recs: seq<Rec>, f: nat)
    requires DistinctIds(recs) && |recs| > 0 && f < ENTRIES
    ensures ValueAt(Flat(recs), Key(recs[|recs| - 1].id, f)) == Val(recs[|recs| - 1], f)
  {
    var p := |recs| - 1;
    FlatDistinct(recs);
    FlatAt(recs, p, f);
    var i := IndexFrom(Flat(recs), Key(recs[p].id, f), 0);
    assert i <= ENTRIES * p + f;
  }

  /** The record that loading reports. */
  function Report(r: Rec): Found {
    Found(Some(r.id), r.level, if r.level == 4 then Some(r.isDcp) else None)
  }

  lemma {:induction false} LastRecordFound(recs: seq<Rec>)
    requires DistinctIds(recs) && |recs| > 0
    ensures LastCkpt(Flat(recs)) == Some(Report(recs[|recs| - 1]))
  {
    var r := recs[|recs| - 1];
    FlatAt(recs, |recs| - 1, 0);
    ValueInRec(recs, 2);
    ValueInRec(recs, 5);
    ScanOwnId(r.id);
    hide SectionOf, Flat, ScanId, Decimal, ToBool, ValueAt, DistinctIds, FieldName;
    SectionReported(Flat(recs), r);
  }

  lemma {:induction false} SectionReported(entries: seq<Entry>, r: Rec)
    requires |entries| >= ENTRIES && entries[|entries| - ENTRIES].key == SectionOf(r.id)
    requires ScanId(SectionOf(r.id)) == Some(r.id)
    requires ValueAt(entries, SectionOf(r.id) + ":" + FieldName(2)) == Some(Decimal(r.level))
    requires ValueAt(entries, SectionOf(r.id) + ":" + FieldName(5)) == Some(if r.isDcp then "true" else "false")
    ensures LastCkpt(entries) == Some(Report(r))
  {
    NumberRoundTrip(r.level);
    BoolRoundTrip(r.isDcp);
    hide SectionOf, ScanId, Decimal, Number, ToBool, ValueAt, FieldName;
  }

  lemma BoolRoundTrip(b: bool)
    ensures ToBool(Some(if b then "true" else "false")) == Some(b)
  {
    assert 't' in "yY1tT" && 'f' !in "yY1tT" && 'f' in "nN0fF" by {
      assert "yY1tT"[3] == 't' && "nN0fF"[3] == 'f';
    }
  }

  /** The write of an id that no earlier write used. */
  ghost predicate Fresh(writes: seq<Rec>, i: nat)
    requires i < |writes|
  {
    forall j :: 0 <= j < i ==> writes[j].id != writes[i].id
  }

  /** The latest write of an id. */
  ghost predicate Latest(writes: seq<Rec>, i: nat)
    requires i < |writes|
  {
    forall j :: i < j < |writes| ==> writes[j].id != writes[i].id
  }

  /** The last fresh write. */
  ghost function LastFresh(writes: seq<Rec>): (r: nat)
    requires |writes| > 0
    ensures r < |writes|
  {
    var n := |writes| - 1;
    if n == 0 || Fresh(writes, n) then n else LastFresh(writes[..n])
  }

  lemma {:induction false} LastFreshIsLast(writes: seq<Rec>)
    requires |writes| > 0
    ensures Fresh(writes, LastFresh(writes))
    ensures forall i :: LastFresh(writes) < i < |writes| ==> !Fresh(writes, i)
  {
    var n := |writes| - 1;
    if n > 0 && !Fresh(writes, n) {
      var f := LastFresh(writes[..n]);
      LastFreshIsLast(writes[..n]);
      assert Fresh(writes, f);
      forall i | f < i < |writes| ensures !Fresh(writes, i) {
        if i < n {
          assert !Fresh(writes[..n], i);
        }
      }
    }
  }

  lemma {:induction false} FreshUnknown(writes: seq<Rec>, recs: seq<Rec>)
    requires |writes| > 0 && recs == Records(writes[..|writes| - 1])
    ensures Fresh(writes, |writes| - 1) <==> Position(recs, writes[|writes| - 1].id) == |recs|
  {
    var n := |writes| - 1;
    KnownId(writes[..n], writes[n].id);
    if Uses(writes[..n], writes[n].id) {
      var j :| 0 <= j < n && writes[..n][j].id == writes[n].id;
      assert writes[j].id == writes[n].id;
    } else {
      forall j | 0 <= j < n ensures writes[j].id != writes[n].id {
        assert writes[j] == writes[..n][j];
      }
    }
  }

  ghost predicate Uses(writes: seq<Rec>, id: nat) {
    exists j :: 0 <= j < |writes| && writes[j].id == id
  }

  lemma {:induction false} UsesOneMore(writes: seq<Rec>, id: nat)
    requires |writes| > 0
    ensures Uses(writes, id) <==> Uses(writes[..|writes| - 1], id) || writes[|writes| - 1].id == id
  {
    var n := |writes| - 1;
    if Uses(writes[..n], id) {
      var j :| 0 <= j < n && writes[..n][j].id == id;
      assert writes[j].id == id;
    }
    if Uses(writes, id) && writes[n].id != id {
      var j :| 0 <= j < |writes| && writes[j].id == id;
      assert writes[..n][j].id == id;
    }
  }

  /** The records are those of the ids written. */
  lemma {:induction false} KnownId(writes: seq<Rec>, id: nat)
    ensures Position(Records(writes), id) < |Records(writes)| <==> Uses(writes, id)
  {
    if |writes| > 0 {
      var n := |writes| - 1;
      KnownId(writes[..n], id);
      RecordedHas(Records(writes[..n]), writes[n], id);
      UsesOneMore(writes, id);
      hide Uses, Position, Recorded;
    }
  }

  lemma {:induction false} RecordedHas(recs: seq<Rec>, r: Rec, id: nat)
    ensures Position(Recorded(recs, r), id) < |Recorded(recs, r)| <==> Position(recs, id) < |recs| || id == r.id
  {
    var next := Recorded(recs, r);
    var p := Position(recs, id);
    if p < |recs| {
      assert next[p].id == id;
    }
    if id == r.id {
      var q := Position(recs, r.id);
      assert next[q].id == id;
    }
  }

  /** The last record is the latest write of the last fresh id. */
  lemma {:induction false} LastRecord(writes: seq<Rec>) returns (w: nat)
    requires |writes| > 0
    ensures |Records(writes)| > 0 && w < |writes| && Records(writes)[|Records(writes)| - 1] == writes[w]
    ensures writes[w].id == writes[LastFresh(writes)].id && Latest(writes, w)
  {
    var n := |writes| - 1;
    var recs, r := Records(writes[..n]), writes[n];
    FreshUnknown(writes, recs);
    LastOfRecorded(recs, r);
    assert Records(writes) == Recorded(recs, r);
    hide Records, Recorded;
    if Position(recs, r.id) < |recs| {
      NotFirst(writes);
      assert n > 0;
      w := LastRecord(writes[..n]);
      LatestStill(writes, w);
      hide LastFresh, Fresh, Latest, Position;
      assert Latest(writes, n) by {
        LatestIsLast(writes);
      }
      if recs[|recs| - 1].id == r.id {
        w := n;
      }
    } else {
      w := n;
    }
  }

  lemma {:induction false} LatestIsLast(writes: seq<Rec>)
    requires |writes| > 0
    ensures Latest(writes, |writes| - 1)
  {
  }

  lemma {:induction false} LatestStill(writes: seq<Rec>, w: nat)
    requires w < |writes| - 1 && Latest(writes[..|writes| - 1], w)
    ensures writes[|writes| - 1].id != writes[w].id ==> Latest(writes, w)
  {
    var n := |writes| - 1;
    if writes[n].id != writes[w].id {
      forall j | w < j < |writes| ensures writes[j].id != writes[w].id {
        if j < n {
          assert writes[j] == writes[..n][j];
        }
      }
    }
  }

  lemma {:induction false} LastOfRecorded(recs: seq<Rec>, r: Rec)
    ensures var next := Recorded(recs, r);
      |next| > 0 &&
      next[|next| - 1] == if Position(recs, r.id) == |recs| || recs[|recs| - 1].id == r.id then r else recs[|recs| - 1]
  {
  }

  lemma {:induction false} NotFirst(writes: seq<Rec>)
    requires |writes| > 0 && !Fresh(writes, |writes| - 1)
    ensures |writes| > 1 && LastFresh(writes) == LastFresh(writes[..|writes| - 1])
  {
  }

  /** Loading reports the last id that was fresh when written, with what was last written for it. */
  lemma LastFreshIsFound(writes: seq<Rec>) returns (w: nat)
    requires |writes| > 0
    ensures w < |writes| && writes[w].id == writes[LastFresh(writes)].id && Latest(writes, w)
    ensures LastCkpt(Base(File(writes))) == Some(Report(writes[w]))
  {
    FileHoldsRecords(writes);
    w := LastRecord(writes);
    LastRecordFound(Records(writes));
  }

  /** The last write is reported exactly when its id is the one most recently written for the first time. */
  lemma {:induction false} LastWriteFoundIff(writes: seq<Rec>)
    requires |writes| > 0
    ensures LastCkpt(Base(File(writes))).Some?
    ensures LastCkpt(Base(File(writes))).value.id == Some(writes[|writes| - 1].id)
       <==> writes[LastFresh(writes)].id == writes[|writes| - 1].id
    ensures writes[LastFresh(writes)].id == writes[|writes| - 1].id
        ==> LastCkpt(Base(File(writes))).value == Report(writes[|writes| - 1])
  {
    var w := LastFreshIsFound(writes);
    if writes[w].id == writes[|writes| - 1].id {
      assert w == |writes| - 1;
    }
  }

  /** Ids that only grow are always reported. */
  lemma {:induction false} GrowingIdsFound(writes: seq<Rec>)
    requires |writes| > 0 && forall i, j :: 0 <= i < j < |writes| ==> writes[i].id < writes[j].id
    ensures LastCkpt(Base(File(writes))) == Some(Report(writes[|writes| - 1]))
  {
    assert Fresh(writes, |writes| - 1);
    LastWriteFoundIff(writes);
  }

  /** Going back to an older id after a newer one leaves the newer one as the last. */
  lemma ReusedIdIsNotFound(a: Rec, b: Rec, again: Rec)
    requires again.id == a.id && b.id != a.id
    ensures LastCkpt(Base(File([a, b, again]))) == Some(Report(b))
  {
    var writes := [a, b, again];
    assert writes[0].id == writes[2].id;
    assert !Fresh(writes, 2);
    assert Fresh(writes, 1);
    LastFreshIsLast(writes);
    var w := LastFreshIsFound(writes);
    assert w != 0 && w != 2;
  }
}
