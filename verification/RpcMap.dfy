/** rpc_map_t, the table of methods and message types of a connection (src/rpc.c). */
module RpcMap {
  import opened Wrappers

  // value is None for a NULL pointer, which marks a free slot.
  datatype Slot<V> = Slot(key: int, value: Option<V>, useCount: nat)

  // What the table says of a key.
  datatype Binding<V> = Binding(value: V, useCount: nat)

  // Slots in use hold different keys.
  ghost predicate Packed<V>(slots: seq<Slot<V>>) {
    && (forall i :: 0 <= i < |slots| ==> slots[i].value.Some?)
    && (forall i, j :: 0 <= i < j < |slots| ==> slots[i].key != slots[j].key)
  }

  ghost function Bindings<V>(slots: seq<Slot<V>>): map<int, Binding<V>>
    requires Packed(slots)
  {
    if slots == [] then map[]
    else
      var n := |slots| - 1;
      Bindings(slots[..n])[slots[n].key := Binding(slots[n].value.value, slots[n].useCount)]
  }

  lemma {:induction false} SlotsAreBindings<V>(slots: seq<Slot<V>>)
    requires Packed(slots)
    ensures forall i :: 0 <= i < |slots| ==>
              slots[i].key in Bindings(slots)
              && Bindings(slots)[slots[i].key] == Binding(slots[i].value.value, slots[i].useCount)
    ensures forall k :: k in Bindings(slots) ==> exists i :: 0 <= i < |slots| && slots[i].key == k
  {
    if slots != [] {
      var n := |slots| - 1;
      SlotsAreBindings(slots[..n]);
      forall k | k in Bindings(slots) ensures exists i :: 0 <= i < |slots| && slots[i].key == k {
        if k == slots[n].key {
          assert 0 <= n < |slots|;
        } else {
          var i :| 0 <= i < n && slots[..n][i].key == k;
          assert slots[i].key == k;
        }
      }
    }
  }

  // Writing a slot in use changes its binding only.
  lemma {:induction false} UpdateSlot<V>(slots: seq<Slot<V>>, i: nat, s: Slot<V>)
    requires Packed(slots) && i < |slots| && s.key == slots[i].key && s.value.Some?
    ensures Packed(slots[i := s])
    ensures Bindings(slots[i := s]) == Bindings(slots)[s.key := Binding(s.value.value, s.useCount)]
  {
    var n := |slots| - 1;
    if i == n {
      assert slots[i := s][..n] == slots[..n];
    } else {
      assert slots[i := s][..n] == slots[..n][i := s];
      UpdateSlot(slots[..n], i, s);
    }
  }

  lemma AppendSlot<V>(slots: seq<Slot<V>>, s: Slot<V>)
    requires Packed(slots) && s.key !in Bindings(slots) && s.value.Some?
    ensures Packed(slots + [s])
    ensures Bindings(slots + [s]) == Bindings(slots)[s.key := Binding(s.value.value, s.useCount)]
  {
    SlotsAreBindings(slots);
    assert (slots + [s])[..|slots|] == slots;
  }

  class Map<V(==)> {
    var entries: array?<Slot<V>>
    var count: nat      // n_entries
    var capacity: nat   // n_entries_max

    const ALLOC := 7    // N_ENTRIES_ALLOC

    constructor ()
      ensures Valid() && Contents() == map[] && entries == null
    {
      entries, count, capacity := null, 0, 0;
    }

    // Exactly the first `count` slots are in use.
    ghost predicate Valid()
      reads this, entries
    {
      && count <= capacity
      && (entries == null <==> capacity == 0)
      && (entries != null ==>
           && entries.Length == capacity
           && forall i :: 0 <= i < capacity ==> (entries[i].value.Some? <==> i < count))
      && Packed(Used())
    }

    ghost function Used(): seq<Slot<V>>
      requires entries != null ==> count <= entries.Length
      reads this, entries
    {
      if entries == null then [] else entries[..count]
    }

    // The finite map that the table stands for.
    ghost function Contents(): map<int, Binding<V>>
      requires Valid()
      reads this, entries
    {
      Bindings(Used())
    }

    // _rpc_map_lookup(): the slot of a key
    method Find(key: int) returns (slot: Option<nat>)
      requires Valid()
      ensures slot.Some? <==> key in Contents()
      ensures slot.Some? ==> entries != null && slot.value < count && entries[slot.value].key == key
    {
      SlotsAreBindings(Used());
      if entries == null { return None; }
      for i := 0 to count
        invariant forall j :: 0 <= j < i ==> entries[j].key != key
      {
        if entries[i].key == key { return Some(i); }
      }
      slot := None;
    }

    method Lookup(key: int) returns (value: Option<V>)
      requires Valid()
      modifies entries
      ensures Valid()
      ensures value == if key in old(Contents()) then Some(old(Contents())[key].value) else None
      ensures var was := old(Contents());
              Contents() == if key in was then was[key := Binding(was[key].value, was[key].useCount + 1)] else was
    {
      var slot := Find(key);
      if slot.None? { return None; }
      var i := slot.value;
      ghost var was := Used();
      entries[i] := entries[i].(useCount := entries[i].useCount + 1);
      assert Used() == was[i := entries[i]];
      SlotsAreBindings(was);
      UpdateSlot(was, i, entries[i]);
      value := entries[i].value;
    }

    // realloc(), which leaves junk in the new slots, and memset() of the slots after those in use
    method Grow(junk: nat -> Slot<V>)
      requires Valid() && count == capacity
      modifies this
      ensures Valid() && fresh(entries) && entries != null
      ensures count == old(count) && capacity == old(capacity) + ALLOC && Used() == old(Used())
    {
      var bigger := new Slot<V>[capacity + ALLOC](junk);
      if entries != null {
        forall i | 0 <= i < capacity { bigger[i] := entries[i]; }
      }
      forall i | count <= i < count + ALLOC { bigger[i] := Slot(0, None, 0); }
      assert bigger[..count] == Used();
      entries := bigger;
      capacity := capacity + ALLOC;
    }

    // The first free slot, or the capacity if there is none.
    method FreeSlot() returns (i: nat)
      requires Valid()
      ensures i == count
    {
      i := capacity;
      if entries != null {
        i := 0;
        while i < capacity && entries[i].value.Some?
          invariant i <= count
        {
          i := i + 1;
        }
      }
    }

    // Overriding an existing entry
    method Override(i: nat, key: int, value: V)
      requires Valid() && entries != null && i < count && entries[i].key == key
      modifies entries
      ensures Valid() && Contents() == old(Contents())[key := Binding(value, 0)]
    {
      ghost var was := Used();
      entries[i] := Slot(key, Some(value), 0);
      assert Used() == was[i := entries[i]];
      UpdateSlot(was, i, entries[i]);
    }

    // Filling the first free slot
    method Fill(i: nat, key: int, value: V)
      requires Valid() && entries != null && i == count < capacity && key !in Contents()
      modifies `count, entries
      ensures Valid() && Contents() == old(Contents())[key := Binding(value, 0)] && count == old(count) + 1
    {
      ghost var was := Used();
      entries[i] := Slot(key, Some(value), 0);
      count := count + 1;
      assert Used() == was + [Slot(key, Some(value), 0)];
      AppendSlot(was, Slot(key, Some(value), 0));
    }

    method Insert(key: int, value: V, junk: nat -> Slot<V>)
      requires Valid()
      modifies this, entries
      ensures Valid() && (entries == old(entries) || fresh(entries))
      ensures Contents() == old(Contents())[key := Binding(value, 0)]
      ensures count == old(count) + if key in old(Contents()) then 0 else 1
      ensures capacity == old(capacity) + if key !in old(Contents()) && old(count) == old(capacity) then 7 else 0
    {
      var slot := Find(key);
      if slot.Some? {
        SlotsAreBindings(Used());
        Override(slot.value, key, value);
      } else {
        var i := FreeSlot();
        if i >= capacity {
          Grow(junk);
          i := count;
        }
        Fill(i, key, value);
      }
    }
  }
}
