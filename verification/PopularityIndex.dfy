/**
 Local uncached popularities of one object: a multimap sorted by descending popularity and a lookup map from
 edges to their entries, two views of one map from edges to popularities.
 */
module PopularityIndex {
  import opened Types
  import Iterators

  datatype Entry = Entry(pop: real, edge: Edge)

  predicate Sorted(s: seq<Entry>) {
    forall i, j :: 0 <= i < j < |s| ==> s[i].pop >= s[j].pop
  }

  predicate UniqueEdges(s: seq<Entry>) {
    forall i, j :: 0 <= i < j < |s| ==> s[i].edge != s[j].edge
  }

  predicate Wf(s: seq<Entry>) {
    Sorted(s) && UniqueEdges(s)
  }

  predicate HasEdge(s: seq<Entry>, e: Edge) {
    exists i :: 0 <= i < |s| && s[i].edge == e
  }

  function EdgesIn(s: seq<Entry>): (r: seq<Edge>)
    ensures |r| == |s| && forall i :: 0 <= i < |s| ==> r[i] == s[i].edge
  {
    seq(|s|, i requires 0 <= i < |s| => s[i].edge)
  }

  /** Everything before the position is at least as popular, everything from it on is strictly less. */
  predicate UpperBound(s: seq<Entry>, pop: real, p: nat) {
    && p <= |s|
    && (forall j :: 0 <= j < p ==> s[j].pop >= pop)
    && (forall j :: p <= j < |s| ==> s[j].pop < pop)
  }

  lemma {:induction false} UpperBoundExists(s: seq<Entry>, pop: real)
    requires Sorted(s)
    ensures exists p: nat :: UpperBound(s, pop, p)
  {
    if s == [] || s[|s| - 1].pop >= pop {
      assert UpperBound(s, pop, |s|);
    } else {
      UpperBoundExists(s[..|s| - 1], pop);
      var p: nat :| UpperBound(s[..|s| - 1], pop, p);
      assert UpperBound(s, pop, p);
    }
  }

  ghost function Insert(s: seq<Entry>, x: Entry): seq<Entry>
    requires Sorted(s)
  {
    UpperBoundExists(s, x.pop);
    var p: nat :| UpperBound(s, x.pop, p);
    s[..p] + [x] + s[p..]
  }

  /** The multimap puts an entry behind all entries of equal popularity. */
  lemma InsertAt(s: seq<Entry>, x: Entry, p: nat)
    requires Sorted(s) && UpperBound(s, x.pop, p)
    ensures Insert(s, x) == s[..p] + [x] + s[p..]
  {
    UpperBoundExists(s, x.pop);
    var q: nat :| UpperBound(s, x.pop, q) && Insert(s, x) == s[..q] + [x] + s[q..];
    var m := if p < q then p else q;
    var pop := if m < |s| then s[m].pop else x.pop;
    assert p == q;
  }

  ghost function Without(s: seq<Entry>, e: Edge): seq<Entry> {
    if HasEdge(s, e) then
      var i :| 0 <= i < |s| && s[i].edge == e;
      s[..i] + s[i + 1..]
    else s
  }

  lemma WithoutAt(s: seq<Entry>, i: nat)
    requires UniqueEdges(s) && i < |s|
    ensures Without(s, s[i].edge) == s[..i] + s[i + 1..]
  {
  }

  /** Replaces the popularity of an edge, or adds it. */
  ghost function Update(s: seq<Entry>, e: Edge, pop: real): seq<Entry>
    requires Wf(s)
  {
    WithoutWf(s, e);
    Insert(Without(s, e), Entry(pop, e))
  }

  lemma WithoutWf(s: seq<Entry>, e: Edge)
    requires Wf(s)
    ensures Wf(Without(s, e)) && !HasEdge(Without(s, e), e)
  {
  }

  /** Where a new entry goes, and what the list is then, position by position. */
  lemma InsertShape(s: seq<Entry>, x: Entry) returns (p: nat, t: seq<Entry>)
    requires Sorted(s)
    ensures UpperBound(s, x.pop, p) && t == Insert(s, x) && |t| == |s| + 1 && t[p] == x
    ensures forall j :: 0 <= j < p ==> t[j] == s[j]
    ensures forall j :: p < j < |t| ==> t[j] == s[j - 1]
  {
    UpperBoundExists(s, x.pop);
    p :| UpperBound(s, x.pop, p);
    InsertAt(s, x, p);
    t := Insert(s, x);
  }

  lemma InsertWf(s: seq<Entry>, x: Entry)
    requires Wf(s) && !HasEdge(s, x.edge)
    ensures Wf(Insert(s, x))
  {
    var p, t := InsertShape(s, x);
    forall i, j | 0 <= i < j < |t|
      ensures t[i].pop >= t[j].pop && t[i].edge != t[j].edge
    {
      var i', j' := if i < p then i else i - 1, if j < p then j else j - 1;
      assert i != p ==> t[i] == s[i'];
      assert j != p ==> t[j] == s[j'];
    }
  }

  // ---- Two views of one map -------------------------------------------------------------------------

  /** The sequence holds one entry per edge of the map, with that edge's popularity. */
  ghost predicate Views(s: seq<Entry>, m: map<Edge, real>) {
    && (forall i :: 0 <= i < |s| ==> s[i].edge in m && m[s[i].edge] == s[i].pop)
    && (forall e {:trigger HasEdge(s, e)} :: e in m ==> HasEdge(s, e))
  }

  /** The list without one entry, position by position. */
  lemma WithoutShape(s: seq<Entry>, e: Edge) returns (i: nat, t: seq<Entry>)
    requires Wf(s) && HasEdge(s, e)
    ensures i < |s| && s[i].edge == e && t == Without(s, e) && |t| == |s| - 1
    ensures forall j :: 0 <= j < i ==> t[j] == s[j]
    ensures forall j :: i < j < |s| ==> t[j - 1] == s[j]
  {
    i :| 0 <= i < |s| && s[i].edge == e;
    WithoutAt(s, i);
    t := Without(s, e);
  }

  lemma WithoutHasOnly(s: seq<Entry>, e: Edge, x: Edge)
    requires Wf(s) && HasEdge(s, e) && HasEdge(Without(s, e), x)
    ensures HasEdge(s, x) && x != e
  {
    var i, t := WithoutShape(s, e);
    var j :| 0 <= j < |t| && t[j].edge == x;
    var j' := if j < i then j else j + 1;
    assert t[j] == s[j'] && j' != i;
  }

  lemma WithoutHasStill(s: seq<Entry>, e: Edge, x: Edge)
    requires Wf(s) && HasEdge(s, e) && HasEdge(s, x) && x != e
    ensures HasEdge(Without(s, e), x)
  {
    var i, t := WithoutShape(s, e);
    var j :| 0 <= j < |s| && s[j].edge == x;
    assert t[if j < i then j else j - 1] == s[j];
  }

  lemma WithoutHas(s: seq<Entry>, e: Edge, x: Edge)
    requires Wf(s)
    ensures HasEdge(Without(s, e), x) <==> HasEdge(s, x) && x != e
  {
    if HasEdge(s, e) {
      if HasEdge(Without(s, e), x) {
        WithoutHasOnly(s, e, x);
      } else if HasEdge(s, x) && x != e {
        WithoutHasStill(s, e, x);
      }
    }
  }

  lemma WithoutSubset(s: seq<Entry>, e: Edge)
    requires Wf(s)
    ensures forall j :: 0 <= j < |Without(s, e)| ==> Without(s, e)[j] in s && Without(s, e)[j].edge != e
  {
    WithoutWf(s, e);
  }

  lemma WithoutViews(s: seq<Entry>, m: map<Edge, real>, e: Edge)
    requires Wf(s) && Views(s, m)
    ensures Views(Without(s, e), m - {e})
  {
    var t := Without(s, e);
    forall x | x in m && x != e
      ensures HasEdge(t, x)
    {
      WithoutHas(s, e, x);
    }
    WithoutSubset(s, e);
  }

  lemma InsertViews(s: seq<Entry>, m: map<Edge, real>, x: Entry)
    requires Wf(s) && Views(s, m) && x.edge !in m
    ensures Views(Insert(s, x), m[x.edge := x.pop])
  {
    var p, t := InsertShape(s, x);
    forall e | e in m
      ensures HasEdge(t, e)
    {
      assert HasEdge(s, e);
      var j :| 0 <= j < |s| && s[j].edge == e;
      assert t[if j < p then j else j + 1] == s[j];
    }
    forall j | 0 <= j < |t|
      ensures t[j].edge in m[x.edge := x.pop] && m[x.edge := x.pop][t[j].edge] == t[j].pop
    {
      var j' := if j < p then j else j - 1;
      assert j != p ==> t[j] == s[j'];
    }
    assert HasEdge(t, x.edge);
  }

  lemma UpdateViews(s: seq<Entry>, m: map<Edge, real>, e: Edge, pop: real)
    requires Wf(s) && Views(s, m)
    ensures Wf(Update(s, e, pop)) && Views(Update(s, e, pop), m[e := pop])
  {
    WithoutWf(s, e);
    WithoutViews(s, m, e);
    InsertWf(Without(s, e), Entry(pop, e));
    InsertViews(Without(s, e), m - {e}, Entry(pop, e));
    assert (m - {e})[e := pop] == m[e := pop];
  }

  lemma UpdateHas(s: seq<Entry>, e: Edge, pop: real, x: Edge)
    requires Wf(s)
    ensures HasEdge(Update(s, e, pop), x) <==> HasEdge(s, x) || x == e
  {
    var m := MapOf(s);
    UpdateViews(s, m, e, pop);
    ViewsHas(s, m, x);
    ViewsHas(Update(s, e, pop), m[e := pop], x);
  }

  lemma MapOf(s: seq<Entry>) returns (m: map<Edge, real>)
    requires Wf(s)
    ensures Views(s, m)
  {
    m := map y | y in (set i | 0 <= i < |s| :: s[i].edge) :: PopOf(s, y);
    forall i | 0 <= i < |s|
      ensures s[i].edge in m && m[s[i].edge] == s[i].pop
    {
      assert PopOf(s, s[i].edge) == s[i].pop;
    }
  }

  lemma ViewsPop(s: seq<Entry>, m: map<Edge, real>, x: Edge)
    requires Views(s, m) && x in m
    ensures HasEdge(s, x) && PopOf(s, x) == m[x]
  {
    ViewsHas(s, m, x);
  }

  /** An update sets one popularity and keeps all others. */
  lemma UpdatePop(s: seq<Entry>, e: Edge, pop: real, x: Edge)
    requires Wf(s)
    ensures HasEdge(Update(s, e, pop), x) <==> HasEdge(s, x) || x == e
    ensures HasEdge(Update(s, e, pop), x) ==> PopOf(Update(s, e, pop), x) == if x == e then pop else PopOf(s, x)
  {
    UpdateHas(s, e, pop, x);
    var m := MapOf(s);
    UpdateViews(s, m, e, pop);
    if HasEdge(Update(s, e, pop), x) {
      ViewsHas(s, m, x);
      ViewsPop(Update(s, e, pop), m[e := pop], x);
      if x != e {
        ViewsPop(s, m, x);
      }
    }
  }

  /** A removal keeps all other popularities. */
  lemma WithoutPop(s: seq<Entry>, e: Edge, x: Edge)
    requires Wf(s)
    ensures HasEdge(Without(s, e), x) <==> HasEdge(s, x) && x != e
    ensures HasEdge(Without(s, e), x) ==> PopOf(Without(s, e), x) == PopOf(s, x)
  {
    WithoutHas(s, e, x);
    var m := MapOf(s);
    WithoutViews(s, m, e);
    if HasEdge(Without(s, e), x) {
      ViewsHas(s, m, x);
      ViewsPop(Without(s, e), m - {e}, x);
      ViewsPop(s, m, x);
    }
  }

  lemma ViewsHas(s: seq<Entry>, m: map<Edge, real>, x: Edge)
    requires Views(s, m)
    ensures HasEdge(s, x) <==> x in m
  {
  }

  ghost function PopOf(s: seq<Entry>, e: Edge): real {
    if HasEdge(s, e) then
      var i :| 0 <= i < |s| && s[i].edge == e;
      s[i].pop
    else 0.0
  }

  // ---- Histories ------------------------------------------------------------------------------------

  datatype Op = OpUpdate(e: Edge, pop: real) | OpRemove(e: Edge)

  ghost function Run(ops: seq<Op>): (s: seq<Entry>)
    ensures Wf(s)
  {
    if ops == [] then []
    else
      var s := Run(ops[..|ops| - 1]);
      match ops[|ops| - 1]
      case OpUpdate(e, pop) => UpdateWf(s, e, pop); Update(s, e, pop)
      case OpRemove(e) => WithoutWf(s, e); Without(s, e)
  }

  lemma UpdateWf(s: seq<Entry>, e: Edge, pop: real)
    requires Wf(s)
    ensures Wf(Update(s, e, pop))
  {
    WithoutWf(s, e);
    InsertWf(Without(s, e), Entry(pop, e));
  }

  function RunMap(ops: seq<Op>): map<Edge, real> {
    if ops == [] then map[]
    else
      var m := RunMap(ops[..|ops| - 1]);
      match ops[|ops| - 1]
      case OpUpdate(e, pop) => m[e := pop]
      case OpRemove(e) => m - {e}
  }

  /** Under any sequence of updates and removals the sorted entries are those of the plain map. */
  lemma {:induction false} RunIsMap(ops: seq<Op>)
    ensures Views(Run(ops), RunMap(ops))
  {
    if ops != [] {
      var shorter := ops[..|ops| - 1];
      RunIsMap(shorter);
      match ops[|ops| - 1]
      case OpUpdate(e, pop) => UpdateViews(Run(shorter), RunMap(shorter), e, pop);
      case OpRemove(e) => WithoutViews(Run(shorter), RunMap(shorter), e);
    }
  }

  // ---- Top-k and copy -------------------------------------------------------------------------------

  /** The loop takes an entry before it counts, so a bound of zero still yields one. */
  function TopK(s: seq<Entry>, k: nat): seq<Entry> {
    var n := if k == 0 then 1 else k;
    if |s| <= n then s else s[..n]
  }

  /** Everything in the top-k list is at least as popular as anything left out, and a short list leaves nothing out. */
  lemma TopKDominates(s: seq<Entry>, k: nat, x: Entry, y: Entry)
    requires Wf(s) && x in TopK(s, k) && y in s && y !in TopK(s, k)
    ensures x in s && x.pop >= y.pop && |TopK(s, k)| >= k
  {
    var i :| 0 <= i < |TopK(s, k)| && TopK(s, k)[i] == x;
    var j :| 0 <= j < |s| && s[j] == y;
    assert j >= |TopK(s, k)|;
  }

  /** The size assertion after the loop holds exactly when the bound is positive or there is nothing to take. */
  lemma TopKSize(s: seq<Entry>, k: nat)
    ensures |TopK(s, k)| <= k <==> k >= 1 || s == []
  {
  }

  /** Copying inserts the entries one by one, in iteration order. */
  ghost function Copy(s: seq<Entry>): (t: seq<Entry>)
    requires Sorted(s)
    ensures t == s
  {
    if s == [] then []
    else
      var n := |s| - 1;
      InsertAt(s[..n], s[n], n);
      assert s[..n][..n] + [s[n]] + s[..n][n..] == s;
      Insert(Copy(s[..n]), s[n])
  }

  // ---- The index as an object -----------------------------------------------------------------------

  /** The position behind all entries of at least this popularity. */
  method FindUpperBound(s: seq<Entry>, pop: real) returns (p: nat)
    requires Sorted(s)
    ensures UpperBound(s, pop, p)
  {
    p := 0;
    while p < |s| && s[p].pop >= pop
      invariant p <= |s| && forall j :: 0 <= j < p ==> s[j].pop >= pop
    {
      p := p + 1;
    }
  }

  lemma HasEdgeIffListed(s: seq<Entry>, e: Edge)
    ensures HasEdge(s, e) <==> Iterators.Listed(EdgesIn(s), e)
  {
    assert forall i :: 0 <= i < |s| ==> EdgesIn(s)[i] == s[i].edge;
  }

  class LocalUncachedObjinfo {
    var objsize: nat
    var sorted: seq<Entry>
    /** Identities of the multimap's nodes, in its order; an iterator of the lookup map is one of them. */
    var nodes: seq<nat>
    var lookup: map<Edge, nat>
    var nextNode: nat

    ghost predicate Valid()
      reads this
    {
      Wf(sorted) && Iterators.Linked(EdgesIn(sorted), nodes, lookup, nextNode)
    }

    constructor ()
      ensures Valid() && sorted == [] && objsize == 0
    {
      objsize, sorted, nodes, lookup, nextNode := 0, [], [], map[], 0;
    }

    /** Erases the entry an iterator stands on: it is not the end iterator and the entry is the edge's own. */
    method Erase(e: Edge)
      requires Valid() && e in lookup
      modifies this`sorted, this`nodes, this`lookup
      ensures Valid() && HasEdge(old(sorted), e)
      ensures sorted == Without(old(sorted), e) && lookup == old(lookup) - {e}
    {
      var p := Iterators.Find(nodes, EdgesIn(sorted), lookup, nextNode, e);
      assert p < |sorted| && sorted[p].edge == e;
      WithoutWf(sorted, e);
      WithoutAt(sorted, p);
      Iterators.LinkedErase(EdgesIn(sorted), nodes, lookup, nextNode, e, p);
      assert EdgesIn(Iterators.RemoveAt(sorted, p)) == Iterators.RemoveAt(EdgesIn(sorted), p);
      sorted, nodes := Iterators.RemoveAt(sorted, p), Iterators.RemoveAt(nodes, p);
      lookup := lookup - {e};
    }

    /** Inserts an entry as a fresh node, behind all entries of equal popularity. */
    method InsertEntry(x: Entry)
      requires Valid() && x.edge !in lookup
      modifies this`sorted, this`nodes, this`lookup, this`nextNode
      ensures Valid() && !HasEdge(old(sorted), x.edge)
      ensures sorted == Insert(old(sorted), x) && lookup == old(lookup)[x.edge := old(nextNode)]
    {
      HasEdgeIffListed(sorted, x.edge);
      InsertWf(sorted, x);
      var p := FindUpperBound(sorted, x.pop);
      InsertAt(sorted, x, p);
      Iterators.LinkedInsert(EdgesIn(sorted), nodes, lookup, nextNode, x.edge, p);
      assert EdgesIn(Iterators.InsertAt(sorted, p, x)) == Iterators.InsertAt(EdgesIn(sorted), p, x.edge);
      sorted, nodes := Iterators.InsertAt(sorted, p, x), Iterators.InsertAt(nodes, p, nextNode);
      lookup, nextNode := lookup[x.edge := nextNode], nextNode + 1;
    }

    /** Both assertions on the iterator hold; the edge gets a fresh node and no other iterator changes. */
    method UpdateEdge(e: Edge, pop: real, size: nat)
      requires Valid()
      modifies this
      ensures Valid() && objsize == size && sorted == Update(old(sorted), e, pop)
      ensures lookup == old(lookup)[e := old(nextNode)] && old(nextNode) !in old(nodes)
    {
      objsize := size;
      HasEdgeIffListed(sorted, e);
      assert nextNode !in nodes;
      if e in lookup {
        Erase(e);
      }
      InsertEntry(Entry(pop, e));
    }

    method RemoveEdge(e: Edge) returns (isEmpty: bool)
      requires Valid()
      modifies this
      ensures Valid() && objsize == old(objsize)
      ensures sorted == Without(old(sorted), e) && lookup == old(lookup) - {e}
      ensures isEmpty <==> sorted == []
    {
      HasEdgeIffListed(sorted, e);
      if e in lookup {
        Erase(e);
      }
      isEmpty := |lookup| == 0;
      assert sorted != [] ==> EdgesIn(sorted)[0] in lookup;
      if x :| x in lookup {
        assert Iterators.Listed(EdgesIn(sorted), x);
      }
    }

    method GetTopk(k: nat) returns (topk: seq<Entry>)
      requires Valid()
      ensures topk == TopK(sorted, k)
    {
      topk := [];
      var i := 0;
      while i < |sorted|
        invariant i <= |sorted| && topk == sorted[..i]
        invariant i == 0 || i < k
      {
        topk := topk + [sorted[i]];
        i := i + 1;
        if i >= k {
          break;
        }
      }
    }

    /**
     Rebuilds both containers from another index: the entries come out in the same order, ties included, and every
     iterator stands on a node of this multimap, not of the other.
     */
    method CopyFrom(other: LocalUncachedObjinfo)
      requires other.Valid()
      modifies this
      ensures Valid() && objsize == old(other.objsize) && sorted == old(other.sorted)
      ensures lookup.Keys == old(other.lookup.Keys)
    {
      if this == other {
        return;
      }
      objsize, sorted, nodes, lookup := other.objsize, [], [], map[];
      for i := 0 to |other.sorted|
        invariant Valid() && sorted == other.sorted[..i] && objsize == other.objsize
      {
        var x := other.sorted[i];
        HasEdgeIffListed(sorted, x.edge);
        assert UpperBound(sorted, x.pop, i);
        InsertAt(sorted, x, i);
        InsertEntry(x);
        assert sorted == other.sorted[..i + 1];
      }
      assert other.sorted[..|other.sorted|] == other.sorted;
      forall e
        ensures e in lookup <==> e in other.lookup
      {
        assert e in lookup <==> Iterators.Listed(EdgesIn(sorted), e);
        assert e in other.lookup <==> Iterators.Listed(EdgesIn(other.sorted), e);
      }
    }
  }
}
