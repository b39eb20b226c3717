/** The global directory: for every globally cached key the list of edge nodes that cache it. */
module Directory {
  import opened Types

  type Table = map<Key, seq<Edge>>

  function Holders(d: Table, k: Key): seq<Edge> {
    if k in d then d[k] else []
  }

  predicate Wf(d: Table) {
    forall k :: k in d ==> d[k] != [] && NoDup(d[k])
  }

  /** A list without one of its edges. */
  ghost function Minus(l: seq<Edge>, e: Edge): seq<Edge> {
    if e in l then
      var i :| 0 <= i < |l| && l[i] == e;
      l[..i] + l[i + 1..]
    else l
  }

  function Add(d: Table, k: Key, e: Edge): Table {
    d[k := Holders(d, k) + [e]]
  }

  /** A key whose last edge goes leaves the directory. */
  ghost function Remove(d: Table, k: Key, e: Edge): Table {
    if k !in d then d
    else if Minus(d[k], e) == [] then d - {k}
    else d[k := Minus(d[k], e)]
  }

  ghost function RemoveAll(d: Table, keys: seq<Key>, e: Edge): Table {
    if keys == [] then d else Remove(RemoveAll(d, keys[..|keys| - 1], e), keys[|keys| - 1], e)
  }

  lemma MinusSpec(l: seq<Edge>, e: Edge)
    requires NoDup(l)
    ensures NoDup(Minus(l, e))
    ensures forall x :: x in Minus(l, e) <==> x in l && x != e
    ensures |Minus(l, e)| == if e in l then |l| - 1 else |l|
  {
    if e in l {
      var i :| 0 <= i < |l| && l[i] == e && Minus(l, e) == l[..i] + l[i + 1..];
      MinusAt(l, i);
    }
  }

  lemma MinusAt(l: seq<Edge>, i: nat)
    requires NoDup(l) && i < |l|
    ensures var m := l[..i] + l[i + 1..]; NoDup(m) && forall x :: x in m <==> x in l && x != l[i]
  {
    var m := l[..i] + l[i + 1..];
    assert forall j :: 0 <= j < |m| ==> m[j] == l[if j < i then j else j + 1];
    forall x | x in l && x != l[i]
      ensures x in m
    {
      var j :| 0 <= j < |l| && l[j] == x;
      var j' := if j < i then j else j - 1;
      assert m[j'] == x;
    }
  }

  lemma RemoveHolders(d: Table, k: Key, e: Edge)
    requires Wf(d)
    ensures Wf(Remove(d, k, e))
    ensures Holders(Remove(d, k, e), k) == Minus(Holders(d, k), e)
    ensures forall k' :: k' != k ==> Holders(Remove(d, k, e), k') == Holders(d, k')
  {
    if k in d {
      MinusSpec(d[k], e);
    }
  }

  // ---- Agreement with the caches --------------------------------------------------------------------

  /**
   The directory lists an edge for a key exactly when that edge holds the key; lists are never empty and never
   name an edge twice.
   */
  ghost predicate Coherent(holds: seq<set<Key>>, d: Table) {
    && Wf(d)
    && (forall k: Key, e: Edge {:trigger e in Holders(d, k)} :: e in Holders(d, k) ==> e < |holds| && k in holds[e])
    && (forall k: Key, e: Edge {:trigger k in holds[e]} :: e < |holds| && k in holds[e] ==> e in Holders(d, k))
  }

  lemma AddWf(d: Table, k: Key, e: Edge)
    requires Wf(d) && e !in Holders(d, k)
    ensures Wf(Add(d, k, e))
  {
    var l := Holders(d, k);
    assert forall j :: 0 <= j < |l| ==> l[j] in l;
    assert NoDup(l + [e]);
  }

  lemma AddHolders(d: Table, k: Key, e: Edge, j: Key, a: Edge)
    ensures a in Holders(Add(d, k, e), j) <==> a in Holders(d, j) || (j == k && a == e)
  {
  }

  ghost predicate AgreeAt(holds: seq<set<Key>>, d: Table, k: Key, e: Edge) {
    e in Holders(d, k) <==> e < |holds| && k in holds[e]
  }

  lemma CoherentIf(holds: seq<set<Key>>, d: Table)
    requires Wf(d) && forall k: Key, e: Edge {:trigger AgreeAt(holds, d, k, e)} :: AgreeAt(holds, d, k, e)
    ensures Coherent(holds, d)
  {
    forall k: Key, e: Edge {:trigger e in Holders(d, k)} | e in Holders(d, k)
      ensures e < |holds| && k in holds[e]
    {
      assert AgreeAt(holds, d, k, e);
    }
    forall k: Key, e: Edge {:trigger k in holds[e]} | e < |holds| && k in holds[e]
      ensures e in Holders(d, k)
    {
      assert AgreeAt(holds, d, k, e);
    }
  }

  lemma CoherentAt(holds: seq<set<Key>>, d: Table, k: Key, e: Edge)
    requires Coherent(holds, d)
    ensures AgreeAt(holds, d, k, e)
  {
  }

  lemma CoherentAdd(holds: seq<set<Key>>, d: Table, k: Key, e: Edge)
    requires Coherent(holds, d) && e < |holds| && k !in holds[e]
    ensures Coherent(holds[e := holds[e] + {k}], Add(d, k, e))
  {
    var holds', d' := holds[e := holds[e] + {k}], Add(d, k, e);
    CoherentAt(holds, d, k, e);
    AddWf(d, k, e);
    forall j: Key, a: Edge
      ensures AgreeAt(holds', d', j, a)
    {
      CoherentAt(holds, d, j, a);
      AddHolders(d, k, e, j, a);
    }
    CoherentIf(holds', d');
  }

  lemma CoherentRemove(holds: seq<set<Key>>, d: Table, k: Key, e: Edge)
    requires Coherent(holds, d) && e < |holds|
    ensures Coherent(holds[e := holds[e] - {k}], Remove(d, k, e))
  {
    var holds', d' := holds[e := holds[e] - {k}], Remove(d, k, e);
    RemoveHolders(d, k, e);
    MinusSpec(Holders(d, k), e);
    forall j: Key, a: Edge
      ensures AgreeAt(holds', d', j, a)
    {
      CoherentAt(holds, d, j, a);
    }
    CoherentIf(holds', d');
  }

  lemma {:induction false} CoherentRemoveAll(holds: seq<set<Key>>, d: Table, keys: seq<Key>, e: Edge)
    requires Coherent(holds, d) && e < |holds|
    ensures Coherent(holds[e := holds[e] - Elems(keys)], RemoveAll(d, keys, e))
  {
    if keys == [] {
      assert holds[e] - Elems(keys) == holds[e];
      assert holds[e := holds[e] - Elems(keys)] == holds;
    } else {
      var n := |keys| - 1;
      CoherentRemoveAll(holds, d, keys[..n], e);
      var h := holds[e := holds[e] - Elems(keys[..n])];
      CoherentRemove(h, RemoveAll(d, keys[..n], e), keys[n], e);
      assert Elems(keys) == Elems(keys[..n]) + {keys[n]};
      assert h[e] - {keys[n]} == holds[e] - Elems(keys);
      assert h[e := h[e] - {keys[n]}] == holds[e := holds[e] - Elems(keys)];
    }
  }

  /** Removing an edge from the lists of some keys leaves every other list alone. */
  lemma {:induction false} RemoveAllHolders(d: Table, keys: seq<Key>, e: Edge, k: Key)
    requires Wf(d)
    ensures Wf(RemoveAll(d, keys, e))
    ensures k !in keys ==> Holders(RemoveAll(d, keys, e), k) == Holders(d, k)
    ensures k in keys && NoDup(keys) ==> Holders(RemoveAll(d, keys, e), k) == Minus(Holders(d, k), e)
  {
    if keys != [] {
      var n := |keys| - 1;
      RemoveAllHolders(d, keys[..n], e, k);
      RemoveHolders(RemoveAll(d, keys[..n], e), keys[n], e);
    }
  }

  lemma TableExt(a: Table, b: Table)
    requires Wf(a) && Wf(b) && forall k :: Holders(a, k) == Holders(b, k)
    ensures a == b
  {
    forall k
      ensures k in a <==> k in b
      ensures k in a ==> a[k] == b[k]
    {
      assert Holders(a, k) == Holders(b, k);
    }
  }

  /** The victims of an eviction may be removed in any order. */
  lemma RemoveAllOrder(d: Table, keys: seq<Key>, keys': seq<Key>, e: Edge)
    requires Wf(d) && NoDup(keys) && NoDup(keys') && Elems(keys) == Elems(keys')
    ensures RemoveAll(d, keys, e) == RemoveAll(d, keys', e)
  {
    forall k
      ensures Wf(RemoveAll(d, keys, e)) && Wf(RemoveAll(d, keys', e))
      ensures Holders(RemoveAll(d, keys, e), k) == Holders(RemoveAll(d, keys', e), k)
    {
      RemoveAllHolders(d, keys, e, k);
      RemoveAllHolders(d, keys', e, k);
      assert k in keys <==> k in Elems(keys);
      assert k in keys' <==> k in Elems(keys');
    }
    RemoveAllHolders(d, keys, e, "");
    RemoveAllHolders(d, keys', e, "");
    TableExt(RemoveAll(d, keys, e), RemoveAll(d, keys', e));
  }

  // ---- The table as an object -----------------------------------------------------------------------

  class PerkeyGlobalCachedObjinfo {
    var table: Table

    ghost predicate Valid()
      reads this
    {
      Wf(table)
    }

    constructor ()
      ensures Valid() && table == map[]
    {
      table := map[];
    }

    method IsGlobalCached(k: Key) returns (r: bool)
      ensures r <==> k in table
    {
      r := k in table;
    }

    /** The lookup result is used unchecked, so the key must be in the directory. */
    method IsNeighborCached(k: Key, given: Edge) returns (r: bool)
      requires k in table
      ensures r <==> exists e :: e in table[k] && e != given
    {
      var l := table[k];
      for i := 0 to |l|
        invariant forall j :: 0 <= j < i ==> l[j] == given
      {
        if l[i] != given {
          assert l[i] in table[k];
          return true;
        }
      }
      r := false;
    }

    method GetEdgeNodeIdxes(k: Key) returns (exists_: bool, l: seq<Edge>)
      ensures exists_ <==> k in table
      ensures l == Holders(table, k)
    {
      exists_ := k in table;
      l := if exists_ then table[k] else [];
    }

    method AddEdgeNode(k: Key, e: Edge)
      requires Valid()
      modifies this
      ensures table == Add(old(table), k, e)
      ensures Valid() <==> e !in Holders(old(table), k)
    {
      if k !in table {
        table := table[k := []];
      }
      table := table[k := table[k] + [e]];
      assert e in Holders(old(table), k) ==> !NoDup(table[k]) by {
        var l := Holders(old(table), k);
        if e in l {
          var i :| 0 <= i < |l| && l[i] == e;
          assert table[k][i] == table[k][|l|];
        }
      }
    }

    method RemoveEdgeNode(k: Key, e: Edge)
      requires Valid()
      modifies this
      ensures Valid() && table == Remove(old(table), k, e)
    {
      RemoveHolders(table, k, e);
      if k in table {
        var l := table[k];
        var i := 0;
        while i < |l| && l[i] != e
          invariant i <= |l| && forall j :: 0 <= j < i ==> l[j] != e
        {
          i := i + 1;
        }
        if i < |l| {
          l := l[..i] + l[i + 1..];
        }
        assert l == Minus(table[k], e);
        if |l| == 0 {
          table := table - {k};
        } else {
          table := table[k := l];
        }
      }
    }
  }

  /** Takes the victims of an edge out of its lists. */
  method RemoveVictims(directory: PerkeyGlobalCachedObjinfo, victims: seq<Key>, e: Edge)
    requires directory.Valid()
    modifies directory
    ensures directory.Valid() && directory.table == RemoveAll(old(directory.table), victims, e)
  {
    for i := 0 to |victims|
      invariant directory.Valid() && directory.table == RemoveAll(old(directory.table), victims[..i], e)
    {
      assert victims[..i + 1][..i] == victims[..i];
      directory.RemoveEdgeNode(victims[i], e);
    }
    assert victims[..|victims|] == victims;
  }
}
