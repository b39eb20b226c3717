/**
 The BestGuess local cache as the program keeps it: a list with stable iterators, a lookup map from keys to
 iterators, a byte counter and a logical clock, all updated in place.
 */
module LocalCache {
  import opened Types
  import Lru
  import Iterators

  /** Subtraction on unsigned 64-bit counters: an underflow is reported and clamped to zero. */
  function Uint64Minus(a: nat, b: nat): nat {
    if b > a then 0 else a - b
  }

  function KeysOf(list: seq<Lru.Item>): (r: seq<Key>)
    ensures |r| == |list| && forall i :: 0 <= i < |r| ==> r[i] == list[i].key
  {
    seq(|list|, i requires 0 <= i < |list| => list[i].key)
  }

  /** The list and the map from keys to iterators agree. */
  ghost predicate Linked(list: seq<Lru.Item>, nodes: seq<nat>, lookup: map<Key, nat>, next: nat) {
    && Iterators.Linked(KeysOf(list), nodes, lookup, next)
    && (forall k {:trigger Lru.HasKey(list, k)} :: Lru.HasKey(list, k) <==> k in lookup)
  }

  lemma IteratorOnItsItem(list: seq<Lru.Item>, nodes: seq<nat>, lookup: map<Key, nat>, next: nat, k: Key, p: nat)
    requires Linked(list, nodes, lookup, next) && k in lookup
    requires p < |nodes| && nodes[p] == lookup[k]
    ensures list[p].key == k
    ensures Lru.HasKey(list, k) && Lru.Index(list, k) == p
    ensures Iterators.RemoveAt(list, p) == Lru.Without(list, k)
  {
    Iterators.OnItsElement(KeysOf(list), nodes, lookup, next, k, p);
    assert Lru.HasKey(list, k);
    assert KeysOf(list)[Lru.Index(list, k)] == k;
  }

  lemma HasKeyIffListed(list: seq<Lru.Item>, k: Key)
    ensures Lru.HasKey(list, k) <==> Iterators.Listed(KeysOf(list), k)
  {
    assert forall i :: 0 <= i < |list| ==> KeysOf(list)[i] == list[i].key;
  }

  lemma LinkedAgain(list: seq<Lru.Item>, nodes: seq<nat>, lookup: map<Key, nat>, next: nat)
    requires Iterators.Linked(KeysOf(list), nodes, lookup, next)
    ensures Linked(list, nodes, lookup, next)
  {
    forall k
      ensures Lru.HasKey(list, k) <==> k in lookup
    {
      HasKeyIffListed(list, k);
      if Iterators.Listed(KeysOf(list), k) {
        var i :| 0 <= i < |list| && KeysOf(list)[i] == k;
      }
    }
  }

  lemma LinkedErase(list: seq<Lru.Item>, nodes: seq<nat>, lookup: map<Key, nat>, next: nat, k: Key, p: nat)
    requires Linked(list, nodes, lookup, next) && k in lookup
    requires p < |nodes| && nodes[p] == lookup[k]
    ensures Linked(Iterators.RemoveAt(list, p), Iterators.RemoveAt(nodes, p), lookup - {k}, next)
  {
    Iterators.LinkedErase(KeysOf(list), nodes, lookup, next, k, p);
    assert KeysOf(Iterators.RemoveAt(list, p)) == Iterators.RemoveAt(KeysOf(list), p);
    LinkedAgain(Iterators.RemoveAt(list, p), Iterators.RemoveAt(nodes, p), lookup - {k}, next);
  }

  lemma LinkedPush(list: seq<Lru.Item>, nodes: seq<nat>, lookup: map<Key, nat>, next: nat, item: Lru.Item)
    requires Linked(list, nodes, lookup, next) && item.key !in lookup
    ensures Linked([item] + list, [next] + nodes, lookup[item.key := next], next + 1)
  {
    Iterators.LinkedInsert(KeysOf(list), nodes, lookup, next, item.key, 0);
    assert KeysOf([item] + list) == Iterators.InsertAt(KeysOf(list), 0, item.key);
    assert [next] + nodes == Iterators.InsertAt(nodes, 0, next);
    LinkedAgain([item] + list, [next] + nodes, lookup[item.key := next], next + 1);
  }

  /** The byte counter after one value replaces another; no underflow while the old value is counted in it. */
  function Resize(size: nat, original: nat, updated: nat): (r: nat)
    requires original <= size
    ensures r + original == size + updated
  {
    if updated > original then size + (updated - original)
    else if updated < original then Uint64Minus(size, original - updated)
    else size
  }

  /** Follows an iterator to its node and unlinks that node from the list and from the lookup map. */
  method Unlink(list: seq<Lru.Item>, nodes: seq<nat>, lookup: map<Key, nat>, ghost next: nat, k: Key)
    returns (item: Lru.Item, list': seq<Lru.Item>, nodes': seq<nat>, lookup': map<Key, nat>)
    requires Linked(list, nodes, lookup, next) && k in lookup
    ensures Lru.HasKey(list, k) && item == list[Lru.Index(list, k)]
    ensures list' == Lru.Without(list, k) && lookup' == lookup - {k}
    ensures Linked(list', nodes', lookup', next)
  {
    var p := Iterators.Find(nodes, KeysOf(list), lookup, next, k);
    IteratorOnItsItem(list, nodes, lookup, next, k, p);
    LinkedErase(list, nodes, lookup, next, k, p);
    item, list', nodes', lookup' := list[p], Iterators.RemoveAt(list, p), Iterators.RemoveAt(nodes, p), lookup - {k};
  }

  /** Unlinks the node of a cached key and links a fresh node for it at the front. */
  method Relink(list: seq<Lru.Item>, nodes: seq<nat>, lookup: map<Key, nat>, next: nat, item: Lru.Item)
    returns (original: Value, list': seq<Lru.Item>, nodes': seq<nat>, lookup': map<Key, nat>)
    requires Linked(list, nodes, lookup, next) && item.key in lookup
    ensures Lru.HasKey(list, item.key) && original == list[Lru.Index(list, item.key)].value
    ensures list' == [item] + Lru.Without(list, item.key)
    ensures Linked(list', nodes', lookup', next + 1)
  {
    var node, rest, restNodes, restLookup := Unlink(list, nodes, lookup, next, item.key);
    LinkedPush(rest, restNodes, restLookup, next, item);
    original, list', nodes', lookup' := node.value, [item] + rest, [next] + restNodes, restLookup[item.key := next];
  }

  lemma TouchRep(c: Lru.Cache, k: Key, v: Value)
    requires Lru.Wf(c) && Lru.Has(c, k)
    ensures Lru.Wf(Lru.Touch(c, k, v))
    ensures Lru.Bytes(Lru.Touch(c, k, v).items) + Lru.Stored(c, k).size == Lru.Bytes(c.items) + v.size
    ensures Lru.Stored(c, k).size <= Lru.Bytes(c.items)
  {
    Lru.TouchWf(c, k, v);
    Lru.TouchBytes(c, k, v);
  }

  lemma EvictRep(c: Lru.Cache, k: Key)
    requires Lru.Wf(c) && Lru.Has(c, k)
    ensures Lru.Wf(Lru.Evict(c, k))
    ensures Lru.Bytes(c.items) == Lru.Bytes(Lru.Evict(c, k).items) + Lru.ItemBytes(k, Lru.Stored(c, k))
  {
    Lru.EvictWf(c, k);
    Lru.BytesWithout(c.items, k);
  }

  /** Unlinks the node of a cached key and takes its bytes, and those of its lookup entry, off the counter. */
  method UnlinkAndCount(list: seq<Lru.Item>, nodes: seq<nat>, lookup: map<Key, nat>, ghost next: nat, k: Key, size: nat,
                        ghost c: Lru.Cache)
    returns (list': seq<Lru.Item>, nodes': seq<nat>, lookup': map<Key, nat>, size': nat)
    requires Linked(list, nodes, lookup, next) && k in lookup
    requires c.items == list && Lru.Wf(c) && size == Lru.Bytes(list)
    ensures Linked(list', nodes', lookup', next) && list' == Lru.Evict(c, k).items && Lru.Wf(Lru.Evict(c, k))
    ensures size' == Lru.Bytes(list')
  {
    var item;
    item, list', nodes', lookup' := Unlink(list, nodes, lookup, next, k);
    EvictRep(c, k);
    var itemSize := |item.key| + item.value.size + Lru.VTIME_BYTES;
    assert itemSize + |k| + Lru.ITERATOR_BYTES <= size;
    size' := Uint64Minus(Uint64Minus(size, itemSize), |k| + Lru.ITERATOR_BYTES);
  }

  class BestGuessLocalCache {
    const edge: Edge
    const capacity: nat
    var list: seq<Lru.Item>
    var nodes: seq<nat>
    var lookup: map<Key, nat>
    var neighborVtimes: map<Edge, nat>
    var clock: nat
    var size: nat
    var nextNode: nat

    ghost function View(): Lru.Cache
      reads this
    {
      Lru.Cache(list, clock)
    }

    ghost predicate Valid()
      reads this
    {
      && Linked(list, nodes, lookup, nextNode)
      && Lru.Wf(View())
      && size == Lru.Bytes(View().items)
      && edge !in neighborVtimes
    }

    constructor (edge: Edge, capacity: nat)
      ensures Valid() && View() == Lru.EMPTY
      ensures this.edge == edge && this.capacity == capacity && neighborVtimes == map[]
    {
      this.edge := edge;
      this.capacity := capacity;
      list, nodes, lookup, neighborVtimes := [], [], map[], map[];
      clock, size, nextNode := 0, 0, 0;
    }

    method IsLocalCached(k: Key) returns (r: bool)
      requires Valid()
      ensures r <==> Lru.Has(View(), k)
    {
      r := k in lookup;
    }

    /** Replaces the node of a cached key by a fresh one at the front, stamped with the current time. */
    method MoveToFront(k: Key, v: Value)
      requires Valid() && k in lookup
      modifies this
      ensures Valid() && View() == Lru.Touch(old(View()), k, v)
      ensures neighborVtimes == old(neighborVtimes)
    {
      ghost var c := View();
      var original, list', nodes', lookup' := Relink(list, nodes, lookup, nextNode, Lru.Item(k, v, clock));
      TouchRep(c, k, v);
      assert Lru.Cache(list', clock + 1) == Lru.Touch(c, k, v);
      list, nodes, lookup, size := list', nodes', lookup', Resize(size, original.size, v.size);
      nextNode, clock := nextNode + 1, clock + 1;
      assert View() == Lru.Touch(c, k, v);
    }

    method GetLocalCache(k: Key) returns (cached: bool, v: Value)
      requires Valid()
      modifies this
      ensures neighborVtimes == old(neighborVtimes)
      ensures Valid() && View() == Lru.Get(old(View()), k)
      ensures cached <==> Lru.Has(old(View()), k)
      ensures v == if cached then Lru.Stored(old(View()), k) else DELETED
    {
      cached := k in lookup;
      v := DELETED;
      if cached {
        var item, _, _, _ := Unlink(list, nodes, lookup, nextNode, k);
        v := item.value;
        MoveToFront(k, v);
      } else {
        clock := clock + 1;
        assert View() == Lru.Get(old(View()), k);
      }
    }

    method UpdateLocalCache(k: Key, v: Value) returns (cached: bool, successful: bool)
      requires Valid()
      modifies this
      ensures neighborVtimes == old(neighborVtimes)
      ensures Valid() && View() == Lru.Update(old(View()), capacity, k, v)
      ensures cached <==> Lru.Has(old(View()), k)
      ensures successful <==> cached && ValidObjsize(capacity, k, v)
    {
      cached, successful := k in lookup, false;
      if cached {
        if !ValidObjsize(capacity, k, v) {
          return;
        }
        MoveToFront(k, v);
        successful := true;
      } else {
        clock := clock + 1;
      }
    }

    method AdmitLocalCache(k: Key, v: Value) returns (successful: bool)
      requires Valid()
      modifies this
      ensures neighborVtimes == old(neighborVtimes)
      ensures Valid() && View() == Lru.Admit(old(View()), k, v)
      ensures successful
    {
      successful := true;
      if k in lookup {
        return;
      }
      Lru.AdmitWf(View(), k, v);
      ghost var before := View();
      LinkedPush(list, nodes, lookup, nextNode, Lru.Item(k, v, clock));
      list, nodes := [Lru.Item(k, v, clock)] + list, [nextNode] + nodes;
      size := size + (|k| + v.size + Lru.VTIME_BYTES);
      lookup := lookup[k := nextNode];
      size := size + (|k| + Lru.ITERATOR_BYTES);
      nextNode := nextNode + 1;
      clock := clock + 1;
      assert View().items == Lru.Admit(before, k, v).items;
    }

    method GetVictimKey() returns (has: bool, victim: Key)
      requires Valid()
      ensures has <==> View().items != []
      ensures has ==> victim == Lru.Tail(View())
    {
      has, victim := |list| > 0, "";
      if has {
        victim := list[|list| - 1].key;
      }
    }

    /** The evicted value is not handed out: the caller's value stays as it was, the deleted value. */
    method EvictWithGivenKey(k: Key) returns (evicted: bool, v: Value)
      requires Valid()
      modifies this
      ensures Valid() && View() == Lru.Evict(old(View()), k)
      ensures neighborVtimes == old(neighborVtimes)
      ensures evicted <==> Lru.Has(old(View()), k)
      ensures v == DELETED
    {
      ghost var c := View();
      evicted, v := k in lookup, DELETED;
      if !evicted {
        assert View() == Lru.Evict(c, k);
      } else {
        list, nodes, lookup, size := UnlinkAndCount(list, nodes, lookup, nextNode, k, size, c);
        assert View() == Lru.Evict(c, k);
      }
    }

    method GetLocalVictimVtime() returns (vtime: nat)
      requires Valid()
      ensures vtime == Lru.VictimVtime(View())
    {
      vtime := 0;
      if |list| > 0 {
        vtime := list[|list| - 1].vtime;
      }
    }

    /**
     The placement edge has the oldest victim among this edge and every neighbour on record; this edge wins
     ties, and a chosen neighbour leaves the record.
     */
    method GetPlacementEdgeIdx() returns (placement: Edge)
      requires Valid()
      modifies this`neighborVtimes
      ensures Valid()
      ensures placement == edge || placement in old(neighborVtimes)
      ensures var least := if placement == edge then Lru.VictimVtime(View()) else old(neighborVtimes)[placement];
              && (forall n :: n in old(neighborVtimes) ==> least <= old(neighborVtimes)[n])
              && (if placement == edge then least <= Lru.VictimVtime(View()) else least < Lru.VictimVtime(View()))
      ensures neighborVtimes == old(neighborVtimes) - {placement}
    {
      placement := edge;
      var least := GetLocalVictimVtime();
      var rest := neighborVtimes.Keys;
      while rest != {}
        invariant rest <= neighborVtimes.Keys
        invariant placement == edge || placement in neighborVtimes
        invariant least == if placement == edge then Lru.VictimVtime(View()) else neighborVtimes[placement]
        invariant placement != edge ==> least < Lru.VictimVtime(View())
        invariant forall n :: n in neighborVtimes && n !in rest ==> least <= neighborVtimes[n]
      {
        var n :| n in rest;
        rest := rest - {n};
        if neighborVtimes[n] < least {
          least, placement := neighborVtimes[n], n;
        }
      }
      if placement != edge {
        neighborVtimes := neighborVtimes - {placement};
      }
    }
  }
}
