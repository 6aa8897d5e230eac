/** The ini dictionary: parallel arrays of keys, values and hashes. */
module Dictionary {
  import opened Slots

  const DICTMINSZ: nat := 128

  /** The hash kept beside each key. */
  function HashFrom(key: string, hash: bv32): bv32
    decreases |key|
  {
    if key == [] then
      hash
    else
      var a := hash + (key[0] as int % 256) as bv32;
      var b := a + (a << 10);
      HashFrom(key[1..], b ^ (b >> 6))
  }

  function Hash(key: string): bv32 {
    var a := HashFrom(key, 0);
    var b := a + (a << 3);
    var c := b ^ (b >> 11);
    c + (c << 15)
  }

  /** A copy of twice the length; the new half is zero. */
  method MemDouble<T>(a: array<T>, zero: T) returns (b: array<T>)
    ensures fresh(b) && b.Length == 2 * a.Length
    ensures forall i :: 0 <= i < a.Length ==> b[i] == a[i]
    ensures forall i :: a.Length <= i < b.Length ==> b[i] == zero
  {
    b := new T[2 * a.Length](_ => zero);
    for i := 0 to a.Length
      invariant forall j :: 0 <= j < i ==> b[j] == a[j]
      invariant forall j :: i <= j < b.Length ==> b[j] == zero
    {
      b[i] := a[i];
    }
  }

  function SlotsOf(keys: seq<Option<string>>, vals: seq<Value>): (r: Slots)
    requires |keys| == |vals|
  {
    seq(|keys|, i requires 0 <= i < |keys| => if keys[i].None? then None else Some(Entry(keys[i].value, vals[i])))
  }

  class Dictionary {
    var n: nat
    var key: array<Option<string>>
    var val: array<Value>
    var hash: array<bv32>

    ghost predicate Shape()
      reads this`key, this`val, this`hash
    {
      && 0 < key.Length == val.Length == hash.Length
      && key != val && hash as object != key as object && hash as object != val as object
    }

    ghost function Contents(): (r: Slots)
      requires Shape()
      reads this`key, this`val, this`hash, key, val
      ensures |r| == key.Length
      ensures forall i :: 0 <= i < |r| ==> r[i] == if key[i].None? then None else Some(Entry(key[i].value, val[i]))
    {
      SlotsOf(key[..], val[..])
    }

    ghost predicate Hashed()
      requires Shape()
      reads this`key, this`val, this`hash, key, hash
    {
      forall i :: 0 <= i < key.Length && key[i].Some? ==> hash[i] == Hash(key[i].value)
    }

    ghost predicate Valid()
      reads this, key, val, hash
    {
      Shape() && Hashed() && UniqueKeys(Contents()) && n == Count(Contents())
    }

    constructor (size: nat)
      ensures Valid() && fresh(key) && fresh(val) && fresh(hash)
      ensures Packed(Contents(), [])
      ensures ToMap(Contents()) == map[]
      ensures key.Length == if size < DICTMINSZ then DICTMINSZ else size
    {
      var size' := if size < DICTMINSZ then DICTMINSZ else size;
      n := 0;
      key := new Option<string>[size'](_ => None);
      val := new Value[size'](_ => None);
      hash := new bv32[size'](_ => 0);
      new;
      PackedCount(Contents(), []);
    }

    /** The slot of a key: hashes are compared first, then the strings. */
    method Search(k: string) returns (i: nat)
      requires Valid()
      ensures i == Find(Contents(), k)
    {
      var h := Hash(k);
      hide Hash;
      i := 0;
      while i < key.Length && !(key[i].Some? && h == hash[i] && k == key[i].value)
        invariant i <= key.Length
        invariant FindFrom(Contents(), k, i) == Find(Contents(), k)
      {
        i := i + 1;
      }
    }

    method Get(k: string, default: Value) returns (r: Value)
      requires Valid()
      ensures r == if k in ToMap(Contents()) then ToMap(Contents())[k] else default
    {
      var i := Search(k);
      HasFound(Contents(), k);
      r := if i < key.Length then val[i] else default;
    }

    /** Double the arrays; the new half is empty. */
    method Grow()
      requires Valid()
      modifies this
      ensures Valid() && n == old(n)
      ensures Contents() == Doubled(old(Contents()))
      ensures fresh(key) && fresh(val) && fresh(hash)
    {
      hide Hash, UniqueKeys, Count, HasKey;
      ghost var was := Contents();
      DoubledIsUnique(was);
      CountDoubled(was, |was|);
      var val' := MemDouble(val, None);
      var key' := MemDouble(key, None);
      var hash' := MemDouble(hash, 0);
      key, val, hash := key', val', hash';
      assert Contents() == Doubled(was);
    }

    /** Write one slot. */
    method Store(i: nat, k: string, v: Value)
      requires Shape() && Hashed() && i < key.Length
      modifies key, val, hash
      ensures Hashed() && Contents() == old(Contents())[i := Some(Entry(k, v))]
    {
      hide Hash;
      key[i] := Some(k);
      val[i] := v;
      hash[i] := Hash(k);
      assert Contents() == old(Contents())[i := Some(Entry(k, v))];
    }

    /** Empty one slot. */
    method Clear(i: nat)
      requires Shape() && Hashed() && i < key.Length
      modifies key, val, hash
      ensures Hashed() && Contents() == old(Contents())[i := None]
    {
      hide Hash;
      key[i] := None;
      val[i] := None;
      hash[i] := 0;
      assert Contents() == old(Contents())[i := None];
    }

    /** The first free slot from `n` on, wrapping at the end. */
    method FreeIndex() returns (i: nat)
      requires Valid() && n < key.Length
      ensures i == FreeSlot(Contents(), n) && i < key.Length && key[i].None?
    {
      SomeFree(Contents());
      ghost var free :| 0 <= free < key.Length && Contents()[free].None?;
      ghost var wrapped := false;
      i := n;
      while key[i].Some?
        invariant i < key.Length
        invariant !wrapped ==> FreeFrom(Contents(), i) == FreeFrom(Contents(), n)
        invariant wrapped ==> FreeFrom(Contents(), n) == key.Length
        invariant wrapped ==> FreeFrom(Contents(), i) == FreeFrom(Contents(), 0) <= free
        decreases !wrapped, key.Length - i
      {
        i := i + 1;
        if i == key.Length {
          i, wrapped := 0, true;
        }
      }
    }

    /** Overwrite the value of a key found in slot `i`. */
    method Update(i: nat, k: string, v: Value)
      requires Valid() && i == Find(Contents(), k) < |Contents()|
      modifies key, val, hash
      ensures Valid() && Contents() == AfterSet(old(Contents()), k, v)
    {
      ghost var next := AfterSet(Contents(), k, v);
      SetRefinesMap(Contents(), k, v);
      HasFound(Contents(), k);
      UpdateIs(Contents(), k, v);
      hide Hash, UniqueKeys, ToMap, Count, HasKey, Find, AfterSet;
      Store(i, k, v);
      assert Contents() == next;
    }

    /** Grow when all slots are taken. */
    method MakeRoom()
      requires Valid()
      modifies this
      ensures Valid() && n == old(n) < key.Length
      ensures Contents() == Room(old(Contents()))
      ensures key == old(key) || fresh(key)
      ensures val == old(val) || fresh(val)
      ensures hash == old(hash) || fresh(hash)
    {
      RoomIsFree(Contents());
      hide Hash, UniqueKeys, Count, HasKey;
      if n == key.Length {
        Grow();
      }
    }

    /** Add a key that no slot holds. */
    method Insert(k: string, v: Value)
      requires Valid() && Find(Contents(), k) == |Contents()|
      modifies this, key, val, hash
      ensures Shape() && Hashed() && n == old(n) + 1
      ensures Contents() == AfterSet(old(Contents()), k, v)
      ensures key == old(key) || fresh(key)
      ensures val == old(val) || fresh(val)
      ensures hash == old(hash) || fresh(hash)
    {
      ghost var was := Contents();
      RoomIsFree(was);
      hide Hash, UniqueKeys, Count, HasKey, FreeSlot, Room;
      MakeRoom();
      var i := FreeIndex();
      Store(i, k, v);
      n := n + 1;
    }

    method Set(k: string, v: Value)
      requires Valid()
      modifies this, key, val, hash
      ensures Valid()
      ensures Contents() == AfterSet(old(Contents()), k, v)
      ensures ToMap(Contents()) == old(ToMap(Contents()))[k := v]
      ensures key == old(key) || fresh(key)
      ensures val == old(val) || fresh(val)
      ensures hash == old(hash) || fresh(hash)
    {
      SetRefinesMap(Contents(), k, v);
      NothingFound(Contents(), k);
      InsertAdds(Contents(), k, v);
      hide Hash, Hashed, UniqueKeys, ToMap, Count, Find, AfterSet;
      if n > 0 {
        var i := Search(k);
        if i < key.Length {
          Update(i, k, v);
          return;
        }
      }
      Insert(k, v);
    }

    /** Remove the key in slot `i`. */
    method Delete(i: nat, k: string)
      requires Valid() && i == Find(Contents(), k) < |Contents()|
      modifies this, key, val, hash
      ensures Shape() && Hashed() && n == old(n) - 1
      ensures Contents() == AfterUnset(old(Contents()), k)
      ensures key == old(key) && val == old(val) && hash == old(hash)
    {
      CountedKey(Contents(), i, k);
      hide Hash, UniqueKeys, Count, HasKey;
      Clear(i);
      n := n - 1;
    }

    method Unset(k: string)
      requires Valid()
      modifies this, key, val, hash
      ensures Valid()
      ensures Contents() == AfterUnset(old(Contents()), k)
      ensures ToMap(Contents()) == old(ToMap(Contents())) - {k}
      ensures key == old(key) && val == old(val) && hash == old(hash)
    {
      UnsetRefinesMap(Contents(), k);
      UnsetCounts(Contents(), k);
      hide Hash, Hashed, UniqueKeys, ToMap, Keys, Count, HasKey, Find, AfterUnset;
      var i := Search(k);
      if i < key.Length {
        Delete(i, k);
      }
    }
  }

  lemma {:induction false} CountedKey(slots: Slots, i: nat, key: string)
    requires i == Find(slots, key) < |slots|
    ensures 0 < Count(slots)
  {
    HasFound(slots, key);
    CountAt(slots, i, None);
  }

  lemma {:induction false} UnsetCounts(slots: Slots, key: string)
    requires UniqueKeys(slots)
    ensures Count(AfterUnset(slots, key)) == Count(slots) - if Find(slots, key) < |slots| then 1 else 0
    ensures Find(slots, key) == |slots| ==> AfterUnset(slots, key) == slots
  {
    UnsetRefinesMap(slots, key);
    HasFound(slots, key);
  }

  lemma {:induction false} InsertAdds(slots: Slots, key: string, val: Value)
    requires |slots| > 0 && UniqueKeys(slots)
    ensures Find(slots, key) == |slots| ==> Count(AfterSet(slots, key, val)) == Count(slots) + 1
  {
    SetCounts(slots, key, val);
    HasFound(slots, key);
  }

  lemma UpdateIs(slots: Slots, key: string, val: Value)
    requires Find(slots, key) < |slots|
    ensures AfterSet(slots, key, val) == slots[Find(slots, key) := Some(Entry(key, val))]
  {
  }

  lemma DoubledIsUnique(slots: Slots)
    requires UniqueKeys(slots)
    ensures UniqueKeys(Doubled(slots))
  {
    forall i, j, key | HasKey(Doubled(slots), i, key) && HasKey(Doubled(slots), j, key) ensures i == j {
      assert HasKey(slots, i, key) && HasKey(slots, j, key);
    }
  }

  /** An empty dictionary needs no search. */
  lemma {:induction false} NothingFound(slots: Slots, key: string)
    ensures Count(slots) == 0 ==> Find(slots, key) == |slots|
  {
    if Find(slots, key) < |slots| {
      HasFound(slots, key);
      CountAt(slots, Find(slots, key), None);
    }
  }
}
