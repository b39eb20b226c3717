/** The cache wrapper as the program keeps it: a local cache object, a validity map and a beacon-index map. */
module CacheWrapper {
  import opened Types
  import opened LocalCache
  import Lru
  import Spec = Wrapper
  import Snapshot

  class Wrapper {
    const local: BestGuessLocalCache
    var validity: map<Key, bool>
    var beacons: map<Key, Edge>

    ghost function View(): Spec.State
      reads this, local
    {
      Spec.State(local.View(), validity, beacons, local.capacity)
    }

    ghost predicate Valid()
      reads this, local
    {
      local.Valid() && Spec.Inv(View())
    }

    constructor (edge: Edge, capacity: nat)
      ensures Valid() && View() == Spec.Init(capacity)
      ensures fresh(local) && local.edge == edge
    {
      local := new BestGuessLocalCache(edge, capacity);
      validity, beacons := map[], map[];
      new;
      assert Lru.Keys(Lru.EMPTY) == {};
    }

    method IsLocalCached(k: Key) returns (r: bool)
      requires Valid()
      ensures r <==> Lru.Has(View().cache, k)
    {
      r := local.IsLocalCached(k);
    }

    /** A key without an entry counts as invalid. */
    method IsValidKey(k: Key) returns (r: bool)
      requires Valid()
      ensures r <==> Spec.IsValid(View(), k)
    {
      r := k in validity && validity[k];
    }

    method InvalidateKey(k: Key)
      requires Valid()
      modifies this
      ensures Valid() && View() == Spec.Invalidate(old(View()), k)
    {
      validity := validity[k := false];
    }

    method Get(k: Key) returns (hit: bool, v: Value)
      requires Valid()
      modifies local
      ensures Valid() && View() == Spec.Get(old(View()), k)
      ensures hit <==> Spec.Visible(old(View()), k).Some?
      ensures hit ==> Some(v) == Spec.Visible(old(View()), k)
    {
      ghost var w := View();
      Spec.GetInv(w, k);
      var cached;
      cached, v := local.GetLocalCache(k);
      assert View() == Spec.Get(w, k);
      var isValid := IsValidKey(k);
      hit := cached && isValid;
    }

    method Update(k: Key, v: Value) returns (cached: bool)
      requires Valid()
      modifies this, local
      ensures Valid() && View() == Spec.Update(old(View()), k, v)
      ensures cached <==> Lru.Has(old(View()).cache, k)
    {
      ghost var w := View();
      Spec.UpdateInv(w, k, v);
      var successful;
      cached, successful := local.UpdateLocalCache(k, v);
      if cached {
        validity := validity[k := successful];
      }
      assert View() == Spec.Update(w, k, v);
    }

    method UpdateIfInvalidForGetrsp(k: Key, v: Value) returns (wasInvalid: bool)
      requires Valid()
      modifies this, local
      ensures Valid() && View() == Spec.UpdateIfInvalid(old(View()), k, v)
      ensures wasInvalid <==> Spec.CachedAndInvalid(old(View()), k)
    {
      wasInvalid := false;
      var cached := local.IsLocalCached(k);
      if cached {
        var isValid := IsValidKey(k);
        if !isValid {
          var stillCached := Update(k, v);
          assert stillCached;
          wasInvalid := true;
        }
      } else {
        var stillCached := Update(k, v);
        assert !stillCached;
      }
    }

    /** Admission: the local cache first, then the flag, then the beacon edge unless one is on record. */
    method Admit(k: Key, v: Value, isValid: bool, beacon: Option<Edge>)
      requires Valid() && ValidObjsize(local.capacity, k, v)
      modifies this, local
      ensures Valid() && View() == Spec.Admit(old(View()), k, v, isValid, beacon)
    {
      ghost var w := View();
      Spec.AdmitInv(w, k, v, isValid, beacon);
      var successful := local.AdmitLocalCache(k, v);
      if successful {
        validity := validity[k := isValid];
        if beacon.Some? && k !in beacons {
          beacons := beacons[k := beacon.value];
        }
      }
      assert View() == Spec.Admit(w, k, v, isValid, beacon);
    }

    /**
     Evicts the LRU victim. No result stands for the exit on an empty cache; the exits for a victim that is not
     cached or has no validity flag cannot be taken. The reported value is always the deleted value.
     */
    method Evict() returns (victim: Option<(Key, Value)>)
      requires Valid()
      modifies this, local
      ensures Valid()
      ensures victim.None? <==> old(View()).cache.items == []
      ensures victim.None? ==> View() == old(View())
      ensures victim.Some? ==> victim.value == (Lru.Tail(old(View()).cache), DELETED)
      ensures victim.Some? ==> Some(View()) == Spec.Evict(old(View()))
    {
      ghost var w := View();
      Spec.EvictInv(w);
      var has, k := local.GetVictimKey();
      if !has {
        return None;
      }
      assert w.cache.items[|w.cache.items| - 1].key == k;
      var evicted, v := local.EvictWithGivenKey(k);
      assert evicted && k in validity;
      validity := validity - {k};
      beacons := beacons - {k};
      victim := Some((k, v));
      assert View() == Spec.Evict(w).value;
    }

    method GetSizeForCapacity() returns (bytes: nat)
      requires Valid()
      ensures bytes == Spec.SizeForCapacity(View())
    {
      bytes := local.size + Spec.FLAG_BYTES * |validity|;
    }

    /** Reading a value for the dump is a get like any other. */
    method DumpKey(k: Key) returns (entry: Option<Snapshot.Entry>)
      requires Valid()
      modifies local
      ensures Valid() && View() == Spec.Get(old(View()), k)
      ensures entry == if Lru.Has(old(View()).cache, k) then Some(Snapshot.EntryOf(old(View()), k)) else None
    {
      ghost var w := View();
      Spec.GetInv(w, k);
      var cached, v := local.GetLocalCache(k);
      assert View() == Spec.Get(w, k);
      var isValid := IsValidKey(k);
      var beacon := if k in beacons then Some(beacons[k]) else None;
      entry := if cached then Some(Snapshot.Entry(k, v, isValid, beacon)) else None;
    }

    /** `order` is the iteration order of the validity map. */
    method DumpSnapshot(order: seq<Key>) returns (entries: seq<Snapshot.Entry>)
      requires Valid() && NoDup(order) && Elems(order) == validity.Keys
      modifies local
      ensures Valid() && (View(), entries) == Snapshot.Dump(old(View()), order)
    {
      ghost var w := View();
      entries := [];
      for i := 0 to |order|
        invariant Valid() && (View(), entries) == Snapshot.Dump(w, order[..i])
        invariant validity == w.valid
      {
        assert order[..i + 1][..i] == order[..i];
        var entry := DumpKey(order[i]);
        if entry.Some? {
          entries := entries + [entry.value];
        }
        assert (View(), entries) == Snapshot.Dump(w, order[..i + 1]);
      }
      assert order[..|order|] == order;
    }

    method LoadSnapshot(entries: seq<Snapshot.Entry>)
      requires Valid()
      requires forall i :: 0 <= i < |entries| ==> ValidObjsize(local.capacity, entries[i].k, entries[i].v)
      modifies this, local
      ensures Valid() && View() == Snapshot.Load(old(View()), entries)
    {
      ghost var w := View();
      beacons := map[];
      for i := 0 to |entries|
        invariant Valid() && View() == Snapshot.Load(w, entries[..i])
      {
        assert entries[..i + 1][..i] == entries[..i];
        var e := entries[i];
        Admit(e.k, e.v, e.valid, e.beacon);
        assert View() == Snapshot.Load(w, entries[..i + 1]);
      }
      assert entries[..|entries|] == entries;
    }
  }
}
