/** Containers whose elements keep their identity for life, with a map from keys to iterators into them. */
module Iterators {
  import opened Types

  function RemoveAt<T>(s: seq<T>, p: nat): seq<T>
    requires p < |s|
  {
    s[..p] + s[p + 1..]
  }

  function InsertAt<T>(s: seq<T>, p: nat, x: T): seq<T>
    requires p <= |s|
  {
    s[..p] + [x] + s[p..]
  }

  ghost predicate Listed<K>(keys: seq<K>, k: K) {
    exists i :: 0 <= i < |keys| && keys[i] == k
  }

  /**
   A node keeps its identity for life and an iterator is that identity; `nodes[i]` is the identity of the node that
   holds the element of key `keys[i]`. The container and the lookup map agree: every key maps to the iterator of its
   node, and every key in the map is in the container, so no iterator in the map is the end iterator.
   */
  ghost predicate Linked<K>(keys: seq<K>, nodes: seq<nat>, lookup: map<K, nat>, next: nat) {
    && |nodes| == |keys|
    && NoDup(nodes)
    && (forall i :: 0 <= i < |nodes| ==> nodes[i] < next)
    && (forall i :: 0 <= i < |keys| ==> keys[i] in lookup && lookup[keys[i]] == nodes[i])
    && (forall k {:trigger Listed(keys, k)} :: k in lookup ==> Listed(keys, k))
  }

  /** An iterator of the map stands on the element of its own key. */
  lemma OnItsElement<K>(keys: seq<K>, nodes: seq<nat>, lookup: map<K, nat>, next: nat, k: K, p: nat)
    requires Linked(keys, nodes, lookup, next) && k in lookup && p < |nodes| && nodes[p] == lookup[k]
    ensures keys[p] == k && forall i :: 0 <= i < |keys| && keys[i] == k ==> i == p
  {
    assert Listed(keys, k);
    var i :| 0 <= i < |keys| && keys[i] == k;
    assert nodes[i] == lookup[k];
  }

  /** Erasing the element an iterator stands on keeps the agreement and every other iterator. */
  lemma LinkedErase<K>(keys: seq<K>, nodes: seq<nat>, lookup: map<K, nat>, next: nat, k: K, p: nat)
    requires Linked(keys, nodes, lookup, next) && k in lookup && p < |nodes| && nodes[p] == lookup[k]
    ensures keys[p] == k
    ensures Linked(RemoveAt(keys, p), RemoveAt(nodes, p), lookup - {k}, next)
  {
    OnItsElement(keys, nodes, lookup, next, k, p);
    var l, m := RemoveAt(keys, p), RemoveAt(nodes, p);
    forall i | 0 <= i < |l|
      ensures m[i] < next && l[i] in lookup && l[i] != k && lookup[l[i]] == m[i]
    {
      var j := if i < p then i else i + 1;
      assert l[i] == keys[j] && m[i] == nodes[j];
    }
    forall i, j | 0 <= i < j < |m|
      ensures m[i] != m[j]
    {
      var i', j' := if i < p then i else i + 1, if j < p then j else j + 1;
      assert m[i] == nodes[i'] && m[j] == nodes[j'];
    }
    forall x | x in lookup && x != k
      ensures Listed(l, x)
    {
      assert Listed(keys, x);
      var i :| 0 <= i < |keys| && keys[i] == x;
      assert l[if i < p then i else i - 1] == x;
    }
  }

  /** Linking a fresh node anywhere, for a key that is not there, keeps the agreement and every iterator. */
  lemma LinkedInsert<K>(keys: seq<K>, nodes: seq<nat>, lookup: map<K, nat>, next: nat, k: K, p: nat)
    requires Linked(keys, nodes, lookup, next) && k !in lookup && p <= |keys|
    ensures Linked(InsertAt(keys, p, k), InsertAt(nodes, p, next), lookup[k := next], next + 1)
  {
    var l, m := InsertAt(keys, p, k), InsertAt(nodes, p, next);
    assert l[p] == k && m[p] == next;
    forall i | 0 <= i < |l| && i != p
      ensures m[i] < next && l[i] in lookup && l[i] != k && lookup[l[i]] == m[i]
    {
      var j := if i < p then i else i - 1;
      assert l[i] == keys[j] && m[i] == nodes[j];
    }
    forall i, j | 0 <= i < j < |m|
      ensures m[i] != m[j]
    {
      var i', j' := if i < p then i else i - 1, if j < p then j else j - 1;
      assert i != p ==> m[i] == nodes[i'];
      assert j != p ==> m[j] == nodes[j'];
    }
    forall x | x in lookup
      ensures Listed(l, x)
    {
      assert Listed(keys, x);
      var i :| 0 <= i < |keys| && keys[i] == x;
      assert l[if i < p then i else i + 1] == x;
    }
  }

  /** Follows an iterator to the position of its node; it is never the end iterator. */
  method Find<K>(nodes: seq<nat>, ghost keys: seq<K>, lookup: map<K, nat>, ghost next: nat, k: K) returns (p: nat)
    requires Linked(keys, nodes, lookup, next) && k in lookup
    ensures p < |nodes| && nodes[p] == lookup[k] && keys[p] == k
  {
    assert Listed(keys, k);
    ghost var i :| 0 <= i < |keys| && keys[i] == k;
    p := 0;
    while p < |nodes| && nodes[p] != lookup[k]
      invariant p <= i
    {
      p := p + 1;
    }
    OnItsElement(keys, nodes, lookup, next, k, p);
  }
}
