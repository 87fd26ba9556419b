/**
 Natives that mutate a map by taking it out of its slot and putting it back
 (`with_map_taken` and its callers in `runtime/src/interp/natives.rs`), and why
 they are what the machine expects of code outside it.

 A slot's `MapObj` records the entries; the `HashMap` passed along is the map
 object itself, with its hashes and index.
 */
module MapNatives {
  import opened Values
  import opened Heaps
  import opened HashMaps
  import opened Equality
  import opened Machine

  predicate EntriesLive(slots: seq<Slot>, es: seq<(Value, Value)>) {
    forall i :: 0 <= i < |es| ==> Live(slots, es[i].0) && Live(slots, es[i].1)
  }

  lemma {:induction false} EntriesAreChildren(slots: seq<Slot>, es: seq<(Value, Value)>)
    ensures EntriesLive(slots, es) <==> AllLive(slots, Children(MapObj(es)))
  {
    if es == [] {
    } else {
      var init, e := Init(es), Last(es);
      EntriesAreChildren(slots, init);
      assert EntriesLive(slots, es) <==> EntriesLive(slots, init) && Live(slots, e.0) && Live(slots, e.1);
      LivePair(slots, Interleaved(init), e.0, e.1);
    }
  }

  lemma LivePair(slots: seq<Slot>, vs: seq<Value>, a: Value, b: Value)
    ensures AllLive(slots, vs + [a, b]) <==> AllLive(slots, vs) && Live(slots, a) && Live(slots, b)
  {
    var all := vs + [a, b];
    if AllLive(slots, all) {
      assert all[|vs|] == a && all[|vs| + 1] == b;
      assert forall i :: 0 <= i < |vs| ==> all[i] == vs[i];
    }
  }

  lemma OpsKeepLive(slots: seq<Slot>, ks: Keys<Value>, es: seq<(Value, Value)>, key: Value, val: Value)
    requires EntriesLive(slots, es) && Live(slots, key) && Live(slots, val)
    ensures EntriesLive(slots, Put(ks, es, key, val)) && EntriesLive(slots, Drop(ks, es, key))
    ensures Lookup(ks, es, key).Some? ==> Live(slots, Lookup(ks, es, key).value)
  {
  }

  /** Putting an object with live children into an occupied slot keeps the heap good. */
  lemma RefillGood(h: HeapState, k: nat, obj: Obj, bytes: nat)
    requires HeapGood(h) && k < |h.slots| && h.slots[k].Used? && AllLive(h.slots, Children(obj))
    ensures HeapMoves(h, h.(slots := h.slots[k := Used(obj, bytes)]), Unit)
  {
    var slots := h.slots[k := Used(obj, bytes)];
    forall j | 0 <= j < |slots| && slots[j].Used? ensures AllLive(slots, Children(slots[j].obj)) {
      KeepsLiveAll(h.slots, slots, Children(if j == k then obj else h.slots[j].obj));
    }
    assert forall j: nat :: j < |slots| ==> (slots[j].Free? <==> h.slots[j].Free?);
  }

  /** The value names a map, which `m` is: same entries, keys compared through the heap without the map itself. */
  ghost predicate Holds(slots: seq<Slot>, v: Value, m: HashMap<Value, Value>, w: Ranking)
    reads m
  {
    && v.Ref? && v.h < |slots| && slots[v.h].Used? && slots[v.h].obj == MapObj(m.entries)
    && Ranked(slots[v.h := Free], w) && m.ks == HeapKeys(slots[v.h := Free], w) && m.Valid()
  }

  predicate IsMap(slots: seq<Slot>, v: Value) {
    v.Ref? && v.h < |slots| && slots[v.h].Used? && slots[v.h].obj.MapObj?
  }

  /** The heap with other entries in the map. */
  function WithEntries(h: HeapState, v: Value, es: seq<(Value, Value)>, bytes: nat): HeapState
    requires IsMap(h.slots, v)
  {
    h.(slots := h.slots[v.h := Used(MapObj(es), bytes)])
  }

  /** `map[key] = v`: an update in place or an appended entry; on anything but a map, nothing happens. */
  method MapSet(heap: Heap, v: Value, key: Value, val: Value, m: HashMap<Value, Value>, bytes: nat, ghost w: Ranking)
    returns (ok: bool)
    requires HeapGood(heap.State()) && AllLive(heap.slots, [v, key, val])
    requires IsMap(heap.slots, v) ==> Holds(heap.slots, v, m, w)
    modifies heap`slots, m
    ensures ok <==> IsMap(old(heap.slots), v)
    ensures ok ==> m.entries == Put(m.ks, old(m.entries), key, val)
                   && heap.State() == WithEntries(old(heap.State()), v, m.entries, bytes)
    ensures ok && |m.entries| <= I32_LIMIT ==> Holds(heap.slots, v, m, w)
    ensures !ok ==> heap.State() == old(heap.State())
    ensures HeapMoves(old(heap.State()), heap.State(), Unit)
  {
    hide FreeListOk, SlabClosed, Ranked, HeapKeys, Put, HeapMoves, HashMap.Valid;
    ghost var h := heap.State();
    assert Live(heap.slots, [v, key, val][0]) && Live(heap.slots, [v, key, val][1]) && Live(heap.slots, [v, key, val][2]);
    if !v.Ref? {
      Unmoved(h);
      return false;
    }
    var hash := m.ks.hash(key);
    var obj, size := heap.TakeObj(v.h);
    ok := obj.MapObj?;
    if ok {
      m.Insert(key, hash, val);
      obj, size := MapObj(m.entries), bytes;
      EntriesAreChildren(h.slots, old(m.entries));
      MapLive(h, v);
      OpsKeepLive(h.slots, m.ks, old(m.entries), key, val);
      EntriesAreChildren(h.slots, m.entries);
      RefillGood(h, v.h, obj, bytes);
      assert h.slots[v.h := Free][v.h := Used(obj, bytes)] == h.slots[v.h := Used(obj, bytes)];
    } else {
      Unmoved(h);
      assert h.slots[v.h := Free][v.h := h.slots[v.h]] == h.slots;
    }
    heap.RestoreObj(v.h, obj, size);
    assert heap.slots[v.h := Free] == h.slots[v.h := Free];
  }

  /** `map.remove`: the entry is gone, the order of the rest kept, and the value removed is a live one. */
  method MapRemove(heap: Heap, v: Value, key: Value, m: HashMap<Value, Value>, bytes: nat, ghost w: Ranking)
    returns (ok: bool, r: Option<Value>)
    requires HeapGood(heap.State()) && AllLive(heap.slots, [v, key])
    requires IsMap(heap.slots, v) ==> Holds(heap.slots, v, m, w)
    modifies heap`slots, m
    ensures ok <==> IsMap(old(heap.slots), v)
    ensures ok ==> m.entries == Drop(m.ks, old(m.entries), key) && r == Lookup(m.ks, old(m.entries), key)
                   && heap.State() == WithEntries(old(heap.State()), v, m.entries, bytes)
    ensures ok ==> Holds(heap.slots, v, m, w)
    ensures !ok ==> heap.State() == old(heap.State()) && r.None?
    ensures HeapMoves(old(heap.State()), heap.State(), if r.Some? then r.value else Unit)
  {
    hide FreeListOk, SlabClosed, Ranked, HeapKeys, Drop, Lookup, HeapMoves, HashMap.Valid;
    ghost var h := heap.State();
    assert Live(heap.slots, [v, key][0]) && Live(heap.slots, [v, key][1]);
    r := None;
    if !v.Ref? {
      Unmoved(h);
      return false, None;
    }
    var hash := m.ks.hash(key);
    var obj, size := heap.TakeObj(v.h);
    ok := obj.MapObj?;
    if ok {
      r := m.Remove(key, hash);
      obj, size := MapObj(m.entries), bytes;
      EntriesAreChildren(h.slots, old(m.entries));
      MapLive(h, v);
      OpsKeepLive(h.slots, m.ks, old(m.entries), key, Unit);
      EntriesAreChildren(h.slots, m.entries);
      RefillGood(h, v.h, obj, bytes);
      ResultLive(h, h.(slots := h.slots[v.h := Used(obj, bytes)]), if r.Some? then r.value else Unit);
      assert h.slots[v.h := Free][v.h := Used(obj, bytes)] == h.slots[v.h := Used(obj, bytes)];
    } else {
      Unmoved(h);
      assert h.slots[v.h := Free][v.h := h.slots[v.h]] == h.slots;
    }
    heap.RestoreObj(v.h, obj, size);
    assert heap.slots[v.h := Free] == h.slots[v.h := Free];
  }

  lemma ResultLive(h: HeapState, h': HeapState, r: Value)
    requires HeapMoves(h, h', Unit) && Live(h.slots, r)
    ensures HeapMoves(h, h', r)
  {
  }

  lemma Unmoved(h: HeapState)
    requires HeapGood(h)
    ensures HeapMoves(h, h, Unit)
  {
  }

  lemma MapLive(h: HeapState, v: Value)
    requires HeapGood(h) && IsMap(h.slots, v)
    ensures AllLive(h.slots, Children(h.slots[v.h].obj))
  {
  }
}
