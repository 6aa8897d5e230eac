/** The slots of the ini dictionary, as values: what lookup, insertion and removal do to them. */
module Slots {
  datatype Option<T> = None | Some(value: T)

  type Value = Option<string>

  datatype Entry = Entry(key: string, val: Value)

  type Slots = seq<Option<Entry>>

  predicate HasKey(slots: Slots, i: int, key: string) {
    0 <= i < |slots| && slots[i].Some? && slots[i].value.key == key
  }

  ghost predicate UniqueKeys(slots: Slots) {
    forall i, j, key :: HasKey(slots, i, key) && HasKey(slots, j, key) ==> i == j
  }

  /** The first slot from `i` on that holds `key`, or the number of slots. */
  function FindFrom(slots: Slots, key: string, i: nat): (r: nat)
    requires i <= |slots|
    ensures i <= r <= |slots|
    ensures r < |slots| ==> HasKey(slots, r, key)
    ensures forall j :: i <= j < r ==> !HasKey(slots, j, key)
    decreases |slots| - i
  {
    if i == |slots| || HasKey(slots, i, key) then i else FindFrom(slots, key, i + 1)
  }

  function Find(slots: Slots, key: string): (r: nat)
    ensures r <= |slots|
  {
    FindFrom(slots, key, 0)
  }

  function Count(slots: Slots): (r: nat)
    ensures r <= |slots|
  {
    if |slots| == 0 then 0 else Count(slots[..|slots| - 1]) + if slots[|slots| - 1].Some? then 1 else 0
  }

  /** The first free slot from `i` on, or the number of slots. */
  function FreeFrom(slots: Slots, i: nat): (r: nat)
    requires i <= |slots|
    ensures i <= r <= |slots|
    ensures r < |slots| ==> slots[r].None?
    ensures forall j :: i <= j < r ==> slots[j].Some?
    decreases |slots| - i
  {
    if i == |slots| || slots[i].None? then i else FreeFrom(slots, i + 1)
  }

  /** The slot a new key goes to: the first free one from `n` on, wrapping at the end. */
  function FreeSlot(slots: Slots, n: nat): (r: nat)
    requires n <= |slots|
    ensures r <= |slots|
  {
    if FreeFrom(slots, n) < |slots| then FreeFrom(slots, n) else FreeFrom(slots, 0)
  }

  function Doubled(slots: Slots): Slots {
    slots + seq(|slots|, _ => None)
  }

  /** The slots an insertion searches: twice as many when all are taken. */
  function Room(slots: Slots): Slots {
    if Count(slots) == |slots| then Doubled(slots) else slots
  }

  function AfterSet(slots: Slots, key: string, val: Value): Slots
    requires |slots| > 0
  {
    if Find(slots, key) < |slots| then
      slots[Find(slots, key) := Some(Entry(key, val))]
    else
      RoomIsFree(slots);
      Room(slots)[FreeSlot(Room(slots), Count(slots)) := Some(Entry(key, val))]
  }

  function AfterUnset(slots: Slots, key: string): Slots {
    if Find(slots, key) < |slots| then slots[Find(slots, key) := None] else slots
  }

  /** The map the slots stand for. */
  function ToMap(slots: Slots): map<string, Value> {
    map key | key in Keys(slots) :: ValueOf(slots, key)
  }

  function Keys(slots: Slots): set<string> {
    set i | 0 <= i < |slots| && slots[i].Some? :: slots[i].value.key
  }

  function ValueOf(slots: Slots, key: string): Value {
    if Find(slots, key) < |slots| then
      HasFound(slots, key);
      slots[Find(slots, key)].value.val
    else
      None
  }

  lemma HasFound(slots: Slots, key: string)
    ensures Find(slots, key) < |slots| ==> HasKey(slots, Find(slots, key), key)
    ensures Find(slots, key) < |slots| <==> key in Keys(slots)
  {
    if key in Keys(slots) {
      var i :| 0 <= i < |slots| && slots[i].Some? && slots[i].value.key == key;
      assert HasKey(slots, i, key);
      assert Find(slots, key) <= i;
    }
  }

  lemma FoundIsUnique(slots: Slots, key: string, i: nat)
    requires UniqueKeys(slots) && HasKey(slots, i, key)
    ensures Find(slots, key) == i
  {
    HasFound(slots, key);
  }

  // ----- Counting -----

  lemma CountAt(slots: Slots, i: nat, e: Option<Entry>)
    requires i < |slots|
    ensures Count(slots[i := e]) == Count(slots) + (if e.Some? then 1 else 0) - (if slots[i].Some? then 1 else 0)
  {
    var n := |slots| - 1;
    if i == n {
      assert slots[i := e][..n] == slots[..n];
    } else {
      CountAt(slots[..n], i, e);
      assert slots[i := e][..n] == slots[..n][i := e];
    }
  }

  /** Fewer keys than slots leave a slot free. */
  lemma {:induction false} SomeFree(slots: Slots)
    ensures Count(slots) < |slots| <==> exists i :: 0 <= i < |slots| && slots[i].None?
  {
    var n := |slots| - 1;
    if |slots| > 0 {
      SomeFree(slots[..n]);
      if Count(slots) < |slots| && slots[n].Some? {
        var i :| 0 <= i < n && slots[..n][i].None?;
        assert slots[i].None?;
      }
      if i :| 0 <= i < |slots| && slots[i].None? {
        assert i < n ==> slots[..n][i].None?;
      }
    }
  }

  lemma {:induction false} CountDoubled(slots: Slots, k: nat)
    ensures Count(slots + seq(k, _ => None)) == Count(slots)
  {
    if k == 0 {
      assert slots + seq(k, _ => None) == slots;
    } else {
      CountDoubled(slots, k - 1);
      assert (slots + seq(k, _ => None))[..|slots| + k - 1] == slots + seq(k - 1, _ => None);
    }
  }

  /** The insertion loop always finds a free slot, wherever earlier removals left gaps. */
  lemma {:induction false} RoomIsFree(slots: Slots)
    requires |slots| > 0
    ensures Count(slots) < |Room(slots)|
    ensures Count(Room(slots)) == Count(slots)
    ensures FreeSlot(Room(slots), Count(slots)) < |Room(slots)|
    ensures Room(slots)[FreeSlot(Room(slots), Count(slots))].None?
  {
    CountDoubled(slots, |slots|);
    SomeFree(Room(slots));
  }

  // ----- The slots refine a map -----

  lemma KeysAt(slots: Slots, key: string)
    ensures key in Keys(slots) <==> exists i :: HasKey(slots, i, key)
  {
    if i :| HasKey(slots, i, key) {
      assert slots[i].value.key in Keys(slots);
    }
    if key in Keys(slots) {
      var i :| 0 <= i < |slots| && slots[i].Some? && slots[i].value.key == key;
      assert HasKey(slots, i, key);
    }
  }

  /** Slots that hold the same entries, wherever they sit, stand for the same map. */
  lemma SameLookup(a: Slots, b: Slots, key: string, i: nat, j: nat)
    requires UniqueKeys(a) && UniqueKeys(b)
    requires HasKey(a, i, key) && HasKey(b, j, key) && a[i].value.val == b[j].value.val
    ensures key in ToMap(a) && key in ToMap(b) && ToMap(a)[key] == ToMap(b)[key]
  {
    KeysAt(a, key);
    KeysAt(b, key);
    FoundIsUnique(a, key, i);
    FoundIsUnique(b, key, j);
  }

  lemma RoomSlots(slots: Slots, i: nat, key: string)
    ensures HasKey(Room(slots), i, key) <==> HasKey(slots, i, key)
    ensures HasKey(slots, i, key) ==> Room(slots)[i] == slots[i]
  {
  }

  /** Where every key sits after an insertion or update. */
  lemma SetSlots(slots: Slots, key: string, val: Value) returns (at: nat)
    requires |slots| > 0 && UniqueKeys(slots)
    ensures HasKey(AfterSet(slots, key, val), at, key)
    ensures AfterSet(slots, key, val)[at].value.val == val
    ensures forall i, k ::
            HasKey(AfterSet(slots, key, val), i, k) <==> (if i == at then k == key else HasKey(slots, i, k))
    ensures |slots| <= |AfterSet(slots, key, val)|
    ensures forall i, k {:trigger HasKey(slots, i, k)} :: HasKey(slots, i, k) && i != at ==>
            AfterSet(slots, key, val)[i] == slots[i]
    ensures at < |slots| && slots[at].Some? ==> slots[at].value.key == key
    ensures key in Keys(slots) <==> HasKey(slots, at, key)
  {
    HasFound(slots, key);
    if Find(slots, key) < |slots| {
      at := Find(slots, key);
    } else {
      RoomIsFree(slots);
      at := FreeSlot(Room(slots), Count(slots));
      assert AfterSet(slots, key, val) == Room(slots)[at := Some(Entry(key, val))];
      forall i, k | i != at
        ensures HasKey(AfterSet(slots, key, val), i, k) <==> HasKey(slots, i, k)
      {
        if i >= 0 {
          RoomSlots(slots, i, k);
        }
      }
    }
  }

  /** Setting a key is a map update: found keys are overwritten, new ones added, nothing else moves. */
  lemma {:induction false} SetRefinesMap(slots: Slots, key: string, val: Value)
    requires |slots| > 0 && UniqueKeys(slots)
    ensures UniqueKeys(AfterSet(slots, key, val))
    ensures ToMap(AfterSet(slots, key, val)) == ToMap(slots)[key := val]
    ensures Count(AfterSet(slots, key, val)) == Count(slots) + if key in ToMap(slots) then 0 else 1
  {
    var next := AfterSet(slots, key, val);
    SetCounts(slots, key, val);
    var at := SetSlots(slots, key, val);
    hide AfterSet, Find;
    StillUnique(slots, next, key, at);
    hide UniqueKeys;
    forall k ensures k in Keys(next) <==> k in Keys(slots) || k == key {
      hide Keys, HasKey;
      KeysAt(slots, k);
      KeysAt(next, k);
    }
    forall k | k in Keys(next) ensures ValueOf(next, k) == if k == key then val else ValueOf(slots, k) {
      SetValue(slots, key, val, k, at);
    }
    MapUpdated(slots, next, key, val);
  }

  lemma MapUpdated(slots: Slots, next: Slots, key: string, val: Value)
    requires forall k :: k in Keys(next) <==> k in Keys(slots) || k == key
    requires forall k :: k in Keys(next) ==> ValueOf(next, k) == if k == key then val else ValueOf(slots, k)
    ensures ToMap(next) == ToMap(slots)[key := val]
  {
    hide Keys, ValueOf;
    assert forall k :: k in ToMap(next) <==> k in ToMap(slots)[key := val];
  }

  lemma StillUnique(slots: Slots, next: Slots, key: string, at: nat)
    requires UniqueKeys(slots)
    requires forall i, k :: HasKey(next, i, k) <==> (if i == at then k == key else HasKey(slots, i, k))
    requires key in Keys(slots) <==> HasKey(slots, at, key)
    ensures UniqueKeys(next)
  {
    KeysAt(slots, key);
    hide HasKey, Keys;
    forall i, j, k | HasKey(next, i, k) && HasKey(next, j, k) ensures i == j {
      if i != at && j != at {
        assert HasKey(slots, i, k) && HasKey(slots, j, k);
      }
    }
  }

  lemma SetValue(slots: Slots, key: string, val: Value, k: string, at: nat)
    requires |slots| > 0 && UniqueKeys(slots) && UniqueKeys(AfterSet(slots, key, val))
    requires HasKey(AfterSet(slots, key, val), at, key) && AfterSet(slots, key, val)[at].value.val == val
    requires forall i, k ::
             HasKey(AfterSet(slots, key, val), i, k) <==> (if i == at then k == key else HasKey(slots, i, k))
    requires |slots| <= |AfterSet(slots, key, val)|
    requires forall i, k {:trigger HasKey(slots, i, k)} :: HasKey(slots, i, k) && i != at ==>
             AfterSet(slots, key, val)[i] == slots[i]
    requires k in Keys(AfterSet(slots, key, val))
    ensures ValueOf(AfterSet(slots, key, val), k) == if k == key then val else ValueOf(slots, k)
  {
    hide AfterSet, Find, UniqueKeys;
    var next := AfterSet(slots, key, val);
    KeysAt(next, k);
    var i :| HasKey(next, i, k);
    FoundIsUnique(next, k, i);
    if k != key {
      FoundIsUnique(slots, k, i);
    } else {
      FoundIsUnique(next, k, at);
    }
  }

  lemma {:induction false} SetCounts(slots: Slots, key: string, val: Value)
    requires |slots| > 0
    ensures Count(AfterSet(slots, key, val)) == Count(slots) + if key in Keys(slots) then 0 else 1
  {
    HasFound(slots, key);
    if Find(slots, key) < |slots| {
      CountAt(slots, Find(slots, key), Some(Entry(key, val)));
    } else {
      RoomIsFree(slots);
      CountAt(Room(slots), FreeSlot(Room(slots), Count(slots)), Some(Entry(key, val)));
    }
  }

  /** Removing a key removes it from the map and nothing else. */
  lemma {:induction false} UnsetRefinesMap(slots: Slots, key: string)
    requires UniqueKeys(slots)
    ensures UniqueKeys(AfterUnset(slots, key))
    ensures ToMap(AfterUnset(slots, key)) == ToMap(slots) - {key}
    ensures Count(AfterUnset(slots, key)) == Count(slots) - if key in ToMap(slots) then 1 else 0
  {
    var next := AfterUnset(slots, key);
    HasFound(slots, key);
    var at := Find(slots, key);
    if at < |slots| {
      CountAt(slots, at, None);
    }
    assert forall i, k :: HasKey(next, i, k) <==> HasKey(slots, i, k) && i != at;
    assert UniqueKeys(next);
    forall k ensures k in ToMap(next) <==> k in ToMap(slots) - {key} {
      KeysAt(slots, k);
      KeysAt(next, k);
    }
    forall k | k in ToMap(next) ensures ToMap(next)[k] == ToMap(slots)[k] {
      KeysAt(next, k);
      var i :| HasKey(next, i, k);
      SameLookup(slots, next, k, i, i);
    }
  }

  // ----- Without removals the slots keep the order of insertion -----

  /** The entries fill the slots from the front. */
  predicate Packed(slots: Slots, entries: seq<Entry>) {
    && |entries| <= |slots|
    && (forall i :: 0 <= i < |entries| ==> slots[i] == Some(entries[i]))
    && (forall i :: |entries| <= i < |slots| ==> slots[i] == None)
  }

  function IndexFrom(entries: seq<Entry>, key: string, i: nat): (r: nat)
    requires i <= |entries|
    ensures i <= r <= |entries|
    ensures r < |entries| ==> entries[r].key == key
    ensures forall j :: i <= j < r ==> entries[j].key != key
    decreases |entries| - i
  {
    if i == |entries| || entries[i].key == key then i else IndexFrom(entries, key, i + 1)
  }

  /** An ordered list of entries: a known key keeps its place, a new one goes to the end. */
  function Put(entries: seq<Entry>, key: string, val: Value): seq<Entry> {
    var i := IndexFrom(entries, key, 0);
    if i < |entries| then entries[i := Entry(key, val)] else entries + [Entry(key, val)]
  }

  lemma {:induction false} PackedCount(slots: Slots, entries: seq<Entry>)
    requires Packed(slots, entries)
    ensures Count(slots) == |entries|
  {
    if |slots| > 0 {
      var n := |slots| - 1;
      PackedCount(slots[..n], if |entries| == |slots| then entries[..n] else entries);
    }
  }

  lemma {:induction false} PackedFind(slots: Slots, entries: seq<Entry>, key: string)
    requires Packed(slots, entries)
    ensures Find(slots, key) == if IndexFrom(entries, key, 0) < |entries| then IndexFrom(entries, key, 0) else |slots|
  {
    var f, i := Find(slots, key), IndexFrom(entries, key, 0);
    if i < |entries| {
      assert HasKey(slots, i, key);
    }
    if f < |slots| {
      assert HasKey(slots, f, key);
    }
  }

  /** Updates stay in place and new keys take the next slot: first-insertion order. */
  lemma SetKeepsOrder(slots: Slots, entries: seq<Entry>, key: string, val: Value)
    requires |slots| > 0 && Packed(slots, entries)
    ensures Packed(AfterSet(slots, key, val), Put(entries, key, val))
  {
    PackedFind(slots, entries, key);
    PackedCount(slots, entries);
    if Find(slots, key) == |slots| {
      RoomIsFree(slots);
      assert Packed(Room(slots), entries);
      assert FreeFrom(Room(slots), |entries|) == |entries|;
    }
  }
}
