/**
 The specification of the BestGuess local cache: an LRU list, front first, whose items carry the logical
 time of their last access, together with the logical clock.
 */
module Lru {
  import opened Types

  datatype Item = Item(key: Key, value: Value, vtime: nat)
  datatype Cache = Cache(items: seq<Item>, clock: nat)

  const EMPTY := Cache([], 0)

  predicate HasKey(s: seq<Item>, k: Key) {
    exists i :: 0 <= i < |s| && s[i].key == k
  }

  predicate Has(c: Cache, k: Key) {
    HasKey(c.items, k)
  }

  function KeySet(s: seq<Item>): set<Key> {
    if s == [] then {} else KeySet(s[..|s| - 1]) + {s[|s| - 1].key}
  }

  function Keys(c: Cache): set<Key> {
    KeySet(c.items)
  }

  lemma {:induction false} KeySetHas(s: seq<Item>, k: Key)
    ensures k in KeySet(s) <==> HasKey(s, k)
  {
    if s != [] {
      var t := s[..|s| - 1];
      KeySetHas(t, k);
      if HasKey(t, k) {
        var i :| 0 <= i < |t| && t[i].key == k;
        assert s[i].key == k;
      }
    }
  }

  lemma HasIsKey(c: Cache, k: Key)
    ensures k in Keys(c) <==> Has(c, k)
  {
    KeySetHas(c.items, k);
  }

  lemma HasIsKeyAll(c: Cache)
    ensures forall k :: k in Keys(c) <==> Has(c, k)
  {
    forall k
      ensures k in Keys(c) <==> Has(c, k)
    {
      KeySetHas(c.items, k);
    }
  }

  /** A position that holds the key: the only one in an ordered list. */
  ghost function Index(s: seq<Item>, k: Key): (i: nat)
    requires HasKey(s, k)
    ensures i < |s| && s[i].key == k
  {
    var i: nat :| i < |s| && s[i].key == k;
    i
  }

  ghost function Stored(c: Cache, k: Key): Value
    requires Has(c, k)
  {
    c.items[Index(c.items, k)].value
  }

  ghost function Without(s: seq<Item>, k: Key): seq<Item> {
    if HasKey(s, k) then s[..Index(s, k)] + s[Index(s, k) + 1..] else s
  }

  /** One entry per key, and the list is ordered by strictly decreasing access time. */
  predicate Ordered(s: seq<Item>) {
    forall i, j :: 0 <= i < j < |s| ==> s[i].key != s[j].key && s[i].vtime > s[j].vtime
  }

  predicate Wf(c: Cache) {
    && Ordered(c.items)
    && forall i :: 0 <= i < |c.items| ==> c.items[i].vtime < c.clock
  }

  // ---- Operations -----------------------------------------------------------------------------------

  ghost function Touch(c: Cache, k: Key, v: Value): Cache {
    Cache([Item(k, v, c.clock)] + Without(c.items, k), c.clock + 1)
  }

  /** A lookup moves a hit to the front; the clock advances on a miss as well. */
  ghost function Get(c: Cache, k: Key): Cache {
    if Has(c, k) then Touch(c, k, Stored(c, k)) else c.(clock := c.clock + 1)
  }

  /** An oversized update of a cached key changes nothing, not even the clock. */
  ghost function Update(c: Cache, capacity: nat, k: Key, v: Value): Cache {
    if !Has(c, k) then c.(clock := c.clock + 1)
    else if !ValidObjsize(capacity, k, v) then c
    else Touch(c, k, v)
  }

  /** Admitting a key that is already cached changes nothing. */
  function Admit(c: Cache, k: Key, v: Value): Cache {
    if Has(c, k) then c else Cache([Item(k, v, c.clock)] + c.items, c.clock + 1)
  }

  ghost function Evict(c: Cache, k: Key): Cache {
    c.(items := Without(c.items, k))
  }

  function Tail(c: Cache): Key
    requires c.items != []
  {
    c.items[|c.items| - 1].key
  }

  /** Access time of the LRU victim, zero for an empty cache. */
  function VictimVtime(c: Cache): nat {
    if c.items == [] then 0 else c.items[|c.items| - 1].vtime
  }

  // ---- Bytes ----------------------------------------------------------------------------------------

  const VTIME_BYTES := 8
  const ITERATOR_BYTES := 8

  /** An item is charged its key, its value and its time, and its lookup entry the key and an iterator. */
  function ItemBytes(k: Key, v: Value): nat {
    (|k| + v.size + VTIME_BYTES) + (|k| + ITERATOR_BYTES)
  }

  function Bytes(s: seq<Item>): nat {
    if s == [] then 0 else ItemBytes(s[0].key, s[0].value) + Bytes(s[1..])
  }

  lemma {:induction false} BytesConcat(a: seq<Item>, b: seq<Item>)
    ensures Bytes(a + b) == Bytes(a) + Bytes(b)
  {
    if a == [] {
      assert a + b == b;
    } else {
      BytesConcat(a[1..], b);
      assert (a + b)[1..] == a[1..] + b;
    }
  }

  lemma BytesWithout(s: seq<Item>, k: Key)
    ensures Bytes(s) == Bytes(Without(s, k)) + if HasKey(s, k) then ItemBytes(k, s[Index(s, k)].value) else 0
  {
    if HasKey(s, k) {
      var i := Index(s, k);
      assert s == s[..i] + ([s[i]] + s[i + 1..]);
      BytesConcat(s[..i], [s[i]] + s[i + 1..]);
      BytesConcat(s[..i], s[i + 1..]);
    }
  }

  /** Replacing a value changes the bytes by the difference of the two sizes. */
  lemma TouchBytes(c: Cache, k: Key, v: Value)
    requires Has(c, k)
    ensures Bytes(Touch(c, k, v).items) + Stored(c, k).size == Bytes(c.items) + v.size
    ensures Stored(c, k).size <= Bytes(c.items)
  {
    BytesWithout(c.items, k);
    assert Touch(c, k, v).items[1..] == Without(c.items, k);
  }

  // ---- What every operation keeps -------------------------------------------------------------------

  /** In an ordered list every item is what its key maps to. */
  lemma StoredAt(c: Cache, i: nat)
    requires Ordered(c.items) && i < |c.items|
    ensures Has(c, c.items[i].key) && Index(c.items, c.items[i].key) == i
    ensures Stored(c, c.items[i].key) == c.items[i].value
  {
  }

  /** Removing a key keeps the order and every other item. */
  lemma WithoutOrdered(c: Cache, k: Key)
    requires Ordered(c.items)
    ensures Ordered(Without(c.items, k))
    ensures !HasKey(Without(c.items, k), k)
    ensures forall j :: 0 <= j < |Without(c.items, k)| ==> Without(c.items, k)[j] in c.items
  {
  }

  lemma WithoutOthers(c: Cache, k: Key, x: Key)
    requires Ordered(c.items) && x != k
    ensures Has(Evict(c, k), x) <==> Has(c, x)
    ensures Has(c, x) ==> Stored(Evict(c, k), x) == Stored(c, x)
  {
    WithoutOrdered(c, k);
    if Has(c, k) && Has(c, x) {
      var p, i := Index(c.items, k), Index(c.items, x);
      var j := if i < p then i else i - 1;
      assert Evict(c, k).items[j] == c.items[i];
      StoredAt(Evict(c, k), j);
    }
  }

  lemma EvictWf(c: Cache, k: Key)
    requires Wf(c)
    ensures Wf(Evict(c, k))
    ensures Keys(Evict(c, k)) == Keys(c) - {k}
  {
    WithoutOrdered(c, k);
    forall x
      ensures x in Keys(Evict(c, k)) <==> x in Keys(c) && x != k
    {
      if x != k {
        WithoutOthers(c, k, x);
      }
      HasIsKey(c, x);
      HasIsKey(Evict(c, k), x);
    }
  }

  /** Evicting the tail drops the last position and nothing else. */
  lemma EvictTail(c: Cache)
    requires Wf(c) && c.items != []
    ensures Evict(c, Tail(c)).items == c.items[..|c.items| - 1]
  {
    StoredAt(c, |c.items| - 1);
  }

  lemma {:induction false} KeySetCons(x: Item, s: seq<Item>)
    ensures KeySet([x] + s) == {x.key} + KeySet(s)
  {
    if s == [] {
      assert [x] + s == [x] && [x][..0] == [];
    } else {
      KeySetCons(x, s[..|s| - 1]);
      assert ([x] + s)[..|s|] == [x] + s[..|s| - 1];
    }
  }

  lemma PushWf(c: Cache, k: Key, v: Value)
    requires Wf(c) && !Has(c, k)
    ensures var d := Cache([Item(k, v, c.clock)] + c.items, c.clock + 1);
            && Wf(d) && Keys(d) == Keys(c) + {k}
            && Has(d, k) && Stored(d, k) == v
            && forall x :: Has(c, x) ==> Has(d, x) && Stored(d, x) == Stored(c, x)
  {
    var d := Cache([Item(k, v, c.clock)] + c.items, c.clock + 1);
    assert forall j :: 0 <= j < |c.items| ==> d.items[j + 1] == c.items[j];
    assert d.items[0].key == k;
    forall x | Has(c, x)
      ensures Has(d, x) && Stored(d, x) == Stored(c, x)
    {
      StoredAt(d, Index(c.items, x) + 1);
    }
    StoredAt(d, 0);
    KeySetCons(Item(k, v, c.clock), c.items);
  }

  lemma TouchWf(c: Cache, k: Key, v: Value)
    requires Wf(c)
    ensures Wf(Touch(c, k, v))
    ensures Keys(Touch(c, k, v)) == Keys(c) + {k}
    ensures Has(Touch(c, k, v), k) && Stored(Touch(c, k, v), k) == v
  {
    EvictWf(c, k);
    WithoutOrdered(c, k);
    PushWf(Evict(c, k), k, v);
  }

  lemma TouchOthers(c: Cache, k: Key, v: Value, x: Key)
    requires Wf(c) && x != k
    ensures Has(Touch(c, k, v), x) <==> Has(c, x)
    ensures Has(c, x) ==> Stored(Touch(c, k, v), x) == Stored(c, x)
  {
    TouchWf(c, k, v);
    EvictWf(c, k);
    WithoutOrdered(c, k);
    WithoutOthers(c, k, x);
    PushWf(Evict(c, k), k, v);
    HasIsKey(Touch(c, k, v), x);
    HasIsKey(c, x);
  }

  lemma AdmitWf(c: Cache, k: Key, v: Value)
    requires Wf(c)
    ensures Wf(Admit(c, k, v))
    ensures Keys(Admit(c, k, v)) == Keys(c) + {k}
  {
    if !Has(c, k) {
      PushWf(c, k, v);
    } else {
      HasIsKey(c, k);
    }
  }

  lemma {:induction false} KeyCount(c: Cache)
    requires Wf(c)
    ensures |Keys(c)| == |c.items|
    decreases |c.items|
  {
    if c.items == [] {
      assert Keys(c) == {};
    } else {
      EvictTail(c);
      EvictWf(c, Tail(c));
      KeyCount(Evict(c, Tail(c)));
    }
  }
}
