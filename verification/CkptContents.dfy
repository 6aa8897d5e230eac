/** What the checkpoint metadata file holds, key by key, after any history of checkpoints. */
module CkptContents {
  import opened Slots
  import opened IniFile
  import opened IniOrder
  import opened Decimals
  import opened CkptMetaData
  import opened CkptHistory

  /** The entry is one of the six of a checkpoint. */
  predicate OfRecord(e: Entry, r: Rec) {
    var section := "checkpoint_id." + Decimal(r.id);
    || e == Entry(section, None)
    || e == Entry(section + ":timestamp", Some(r.timestamp))
    || e == Entry(section + ":level", Some(Decimal(r.level)))
    || e == Entry(section + ":nb_procs", Some(Decimal(r.nbProcs)))
    || e == Entry(section + ":io_mode", Some(Decimal(r.ioMode)))
    || e == Entry(section + ":is_dcp", Some(if r.isDcp then "true" else "false"))
  }

  /** The key is the section of a checkpoint, or in it. */
  predicate OfId(key: string, id: nat) {
    var section := "checkpoint_id." + Decimal(id);
    key == section || section + ":" <= key
  }

  lemma {:induction false} KeyTexts(id: nat)
    ensures var section := "checkpoint_id." + Decimal(id);
      && Key(id, 0) == section && Key(id, 1) == section + ":timestamp" && Key(id, 2) == section + ":level"
      && Key(id, 3) == section + ":nb_procs" && Key(id, 4) == section + ":io_mode" && Key(id, 5) == section + ":is_dcp"
  {
    var s := SectionOf(id);
    assert s == "checkpoint_id." + Decimal(id);
    hide SectionOf;
    assert s + ":" + "timestamp" == s + ":timestamp" && s + ":" + "level" == s + ":level";
    assert s + ":" + "nb_procs" == s + ":nb_procs" && s + ":" + "io_mode" == s + ":io_mode";
    assert s + ":" + "is_dcp" == s + ":is_dcp";
  }

  lemma {:induction false} RecordTexts(r: Rec, e: Entry)
    ensures OfRecord(e, r) <==> exists f: nat :: f < ENTRIES && e == Entry(Key(r.id, f), Val(r, f))
  {
    KeyTexts(r.id);
    hide Key, Decimal;
    if OfRecord(e, r) {
      var f := if e == Entry(Key(r.id, 0), Val(r, 0)) then 0 else if e == Entry(Key(r.id, 1), Val(r, 1)) then 1
        else if e == Entry(Key(r.id, 2), Val(r, 2)) then 2 else if e == Entry(Key(r.id, 3), Val(r, 3)) then 3
        else if e == Entry(Key(r.id, 4), Val(r, 4)) then 4 else 5;
      assert e == Entry(Key(r.id, f), Val(r, f));
    }
  }

  // ----- Records and the latest writes -----

  /** The latest write of an id is the record of that id. */
  lemma {:induction false} LatestIsRecord(writes: seq<Rec>, w: nat) returns (p: nat)
    requires w < |writes| && Latest(writes, w)
    ensures p < |Records(writes)| && Records(writes)[p] == writes[w]
  {
    var n := |writes| - 1;
    var recs := Records(writes[..n]);
    var q := Position(recs, writes[n].id);
    if w == n {
      p := q;
    } else {
      assert writes[n].id != writes[w].id;
      StillLatest(writes, w);
      p := LatestIsRecord(writes[..n], w);
    }
  }

  lemma {:induction false} StillLatest(writes: seq<Rec>, w: nat)
    requires w < |writes| - 1 && Latest(writes, w)
    ensures Latest(writes[..|writes| - 1], w)
  {
  }

  /** Every record is the latest write of its id. */
  lemma {:induction false} RecordIsLatest(writes: seq<Rec>, p: nat) returns (w: nat)
    requires p < |Records(writes)|
    ensures w < |writes| && Latest(writes, w) && Records(writes)[p] == writes[w]
  {
    var n := |writes| - 1;
    var recs := Records(writes[..n]);
    FileHoldsRecords(writes[..n]);
    if p < |recs| && recs[p].id != writes[n].id {
      w := RecordIsLatest(writes[..n], p);
      LatestStill(writes, w);
    } else {
      w := n;
      LatestIsLast(writes);
    }
  }

  // ----- The file -----

  lemma {:induction false} FlatHas(recs: seq<Rec>, e: Entry)
    ensures e in Flat(recs) <==> exists p :: 0 <= p < |recs| && OfRecord(e, recs[p])
  {
    hide Flat, Key, Val, OfRecord;
    if e in Flat(recs) {
      var i :| 0 <= i < |Flat(recs)| && Flat(recs)[i] == e;
      FlatAt(recs, i / 6, i % 6);
      RecordTexts(recs[i / 6], e);
      assert OfRecord(e, recs[i / 6]);
    }
    if p :| 0 <= p < |recs| && OfRecord(e, recs[p]) {
      RecordTexts(recs[p], e);
      var f: nat :| f < ENTRIES && e == Entry(Key(recs[p].id, f), Val(recs[p], f));
      FlatAt(recs, p, f);
    }
  }

  /** The entry is one of the latest write of its id. */
  ghost predicate Says(writes: seq<Rec>, e: Entry) {
    exists w :: 0 <= w < |writes| && Latest(writes, w) && OfRecord(e, writes[w])
  }

  /**
   * After any history the file has each key once, and its entries are exactly the six of every latest write: section,
   * time, level, number of processes, I/O mode and the differential flag, each under its own name.
   */
  lemma {:induction false} FileSays(writes: seq<Rec>, e: Entry)
    ensures DistinctKeys(Base(File(writes)))
    ensures e in Base(File(writes)) <==> Says(writes, e)
  {
    FileHoldsRecords(writes);
    var recs := Records(writes);
    FlatDistinct(recs);
    FlatHas(recs, e);
    hide Base, File, Flat, Records, OfRecord, Latest, DistinctKeys, DistinctIds;
    if p :| 0 <= p < |recs| && OfRecord(e, recs[p]) {
      var w := RecordIsLatest(writes, p);
      assert OfRecord(e, writes[w]);
    }
    if w :| 0 <= w < |writes| && Latest(writes, w) && OfRecord(e, writes[w]) {
      var p := LatestIsRecord(writes, w);
      assert OfRecord(e, recs[p]);
    }
  }

  /** What the last write says about its checkpoint. */
  lemma {:induction false} LastWriteSays(writes: seq<Rec>, e: Entry)
    requires |writes| > 0 && OfRecord(e, writes[|writes| - 1])
    ensures e in Base(File(writes))
  {
    FileSays(writes, e);
    LatestIsLast(writes);
  }

  lemma {:induction false} StillSaid(writes: seq<Rec>, id: nat, e: Entry)
    requires |writes| > 0 && id != writes[|writes| - 1].id && OfId(e.key, id) && Says(writes[..|writes| - 1], e)
    ensures Says(writes, e)
  {
    var before := writes[..|writes| - 1];
    hide OfRecord, Latest, OfId;
    var w :| 0 <= w < |before| && Latest(before, w) && OfRecord(e, before[w]);
    RecordHasId(e, before[w], id);
    LatestStill(writes, w);
    assert OfRecord(e, writes[w]);
  }

  lemma {:induction false} SaidBefore(writes: seq<Rec>, id: nat, e: Entry)
    requires |writes| > 0 && id != writes[|writes| - 1].id && OfId(e.key, id) && Says(writes, e)
    ensures Says(writes[..|writes| - 1], e)
  {
    var before := writes[..|writes| - 1];
    hide OfRecord, Latest, OfId;
    var w :| 0 <= w < |writes| && Latest(writes, w) && OfRecord(e, writes[w]);
    RecordHasId(e, writes[w], id);
    StillLatest(writes, w);
    assert OfRecord(e, before[w]);
  }

  /** A write leaves every entry of another checkpoint alone. */
  lemma {:induction false} OthersKept(writes: seq<Rec>, id: nat, e: Entry)
    requires |writes| > 0 && id != writes[|writes| - 1].id && OfId(e.key, id)
    ensures e in Base(File(writes)) <==> e in Base(File(writes[..|writes| - 1]))
  {
    FileSays(writes, e);
    FileSays(writes[..|writes| - 1], e);
    hide *;
    if Says(writes, e) {
      SaidBefore(writes, id, e);
    } else if Says(writes[..|writes| - 1], e) {
      StillSaid(writes, id, e);
    }
  }

  /** The key of an entry tells the id of its checkpoint. */
  lemma {:induction false} RecordHasId(e: Entry, r: Rec, id: nat)
    requires OfRecord(e, r) && OfId(e.key, id)
    ensures r.id == id
  {
    RecordTexts(r, e);
    var f: nat :| f < ENTRIES && e == Entry(Key(r.id, f), Val(r, f));
    KeyShape(r.id, f);
    DecimalNoColon(r.id);
    DecimalNoColon(id);
    OfIdMeans(e.key, id);
    hide OfRecord, OfId, Key, Val, SectionOf, Belongs, HasColon;
    if e.key != SectionOf(id) && f > 0 {
      OneSection(e.key, SectionOf(r.id), SectionOf(id));
    }
    SectionsApart(r.id, id);
  }

  lemma OfIdMeans(key: string, id: nat)
    requires OfId(key, id)
    ensures key == SectionOf(id) || (Belongs(key, SectionOf(id)) && HasColon(key))
  {
    if key != SectionOf(id) {
      PrefixAt(SectionOf(id), key);
    }
  }

  /** Numbers are written in decimal, the highest digit first, without leading zeros. */
  lemma {:induction false} DecimalIsPlain(n: nat)
    ensures Decimal(n)[0] == '0' <==> n == 0
    ensures Decimal(1234567890) == "1234567890"
  {
    if n >= 10 {
      DecimalIsPlain(n / 10);
    }
    assert Decimal(1234) == "1234" && Decimal(1234567) == "1234567";
  }
}
