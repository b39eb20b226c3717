/** The cost of the victims a placement would evict. */
module EvictionCost {
  import opened Types
  import opened Directory
  import opened Victims

  /** A victim selected at an edge. */
  datatype Pair = Pair(edge: Edge, info: VictimInfo)

  /** Weight of a local hit and of a cooperative hit. */
  datatype Weights = Weights(local: real, cooperative: real)

  /** What losing the object costs, depending on whether every copy goes. */
  function Reward(w: Weights, info: VictimInfo, lastCopies: bool): real {
    if lastCopies then w.local * info.localPop + w.cooperative * info.redirectedPop
    else NonnegMinus(w.local, w.cooperative) * info.localPop
  }

  ghost predicate SelectedAt(pairs: seq<Pair>, k: Key, e: Edge) {
    exists i :: 0 <= i < |pairs| && pairs[i].edge == e && pairs[i].info.key == k
  }

  ghost function SelectedKeys(pairs: seq<Pair>): set<Key> {
    set i | 0 <= i < |pairs| :: pairs[i].info.key
  }

  /** The selected keys whose every holder in the directory is selected. */
  ghost function LastCopies(pairs: seq<Pair>, dir: Table): set<Key> {
    set k | k in SelectedKeys(pairs) && forall h :: h in Holders(dir, k) ==> SelectedAt(pairs, k, h)
  }

  /** The flat sum over all selected pairs. */
  ghost function FlatCost(pairs: seq<Pair>, last: set<Key>, w: Weights): real {
    if pairs == [] then 0.0
    else
      var x := pairs[|pairs| - 1].info;
      FlatCost(pairs[..|pairs| - 1], last, w) + Reward(w, x, x.key in last)
  }

  /** The pairs of one victim, in the order they were found. */
  ghost function OfKey(pairs: seq<Pair>, k: Key): seq<Pair> {
    if pairs == [] then []
    else
      var rest := OfKey(pairs[..|pairs| - 1], k);
      if pairs[|pairs| - 1].info.key == k then rest + [pairs[|pairs| - 1]] else rest
  }

  /** The sum regrouped per victim, victims in a given order. */
  ghost function GroupedCost(keys: seq<Key>, pairs: seq<Pair>, last: set<Key>, w: Weights): real {
    if keys == [] then 0.0
    else
      GroupedCost(keys[..|keys| - 1], pairs, last, w) + FlatCost(OfKey(pairs, keys[|keys| - 1]), last, w)
  }

  // ---- Regrouping and reordering change nothing -----------------------------------------------------

  lemma {:induction false} GroupedAdd(keys: seq<Key>, pairs: seq<Pair>, x: Pair, last: set<Key>, w: Weights)
    requires NoDup(keys)
    ensures GroupedCost(keys, pairs + [x], last, w) ==
            GroupedCost(keys, pairs, last, w) +
            if x.info.key in keys then Reward(w, x.info, x.info.key in last) else 0.0
  {
    if keys != [] {
      var n := |keys| - 1;
      GroupedAdd(keys[..n], pairs, x, last, w);
      var k := keys[n];
      assert (pairs + [x])[..|pairs|] == pairs;
      if x.info.key == k {
        assert OfKey(pairs + [x], k) == OfKey(pairs, k) + [x];
        assert (OfKey(pairs, k) + [x])[..|OfKey(pairs, k)|] == OfKey(pairs, k);
        assert k !in keys[..n];
      }
    }
  }

  lemma {:induction false} GroupedEmpty(keys: seq<Key>, last: set<Key>, w: Weights)
    ensures GroupedCost(keys, [], last, w) == 0.0
  {
    if keys != [] {
      GroupedEmpty(keys[..|keys| - 1], last, w);
    }
  }

  /** Grouping per victim and summing group by group, in any order of the victims, is the flat sum. */
  lemma {:induction false} GroupedIsFlat(keys: seq<Key>, pairs: seq<Pair>, last: set<Key>, w: Weights)
    requires NoDup(keys) && SelectedKeys(pairs) <= Elems(keys)
    ensures GroupedCost(keys, pairs, last, w) == FlatCost(pairs, last, w)
  {
    if pairs == [] {
      GroupedEmpty(keys, last, w);
    } else {
      var n := |pairs| - 1;
      assert forall i :: 0 <= i < |pairs| ==> pairs[i].info.key in SelectedKeys(pairs);
      assert forall i :: 0 <= i < n ==> pairs[..n][i] == pairs[i];
      GroupedIsFlat(keys, pairs[..n], last, w);
      GroupedAdd(keys, pairs[..n], pairs[n], last, w);
      assert pairs[..n] + [pairs[n]] == pairs;
      assert pairs[n].info.key in Elems(keys);
    }
  }

  lemma {:induction false} FlatRemove(pairs: seq<Pair>, i: nat, last: set<Key>, w: Weights)
    requires i < |pairs|
    ensures FlatCost(pairs, last, w) ==
            FlatCost(pairs[..i] + pairs[i + 1..], last, w) + Reward(w, pairs[i].info, pairs[i].info.key in last)
  {
    var n := |pairs| - 1;
    var rest := pairs[..i] + pairs[i + 1..];
    if i == n {
      assert rest == pairs[..n];
    } else {
      FlatRemove(pairs[..n], i, last, w);
      assert rest[..n - 1] == pairs[..n][..i] + pairs[..n][i + 1..];
      assert rest[n - 1] == pairs[n];
    }
  }

  /** Where the last element of one list sits in a permutation of it, and what is left without it. */
  lemma MatchLast<T>(p: seq<T>, q: seq<T>) returns (i: nat)
    requires p != [] && multiset(p) == multiset(q)
    ensures i < |q| && q[i] == p[|p| - 1]
    ensures multiset(p[..|p| - 1]) == multiset(q[..i] + q[i + 1..])
  {
    var n := |p| - 1;
    assert p[n] in multiset(q);
    i :| 0 <= i < |q| && q[i] == p[n];
    assert p == p[..n] + [p[n]];
    var rest := q[..i] + q[i + 1..];
    assert q == q[..i] + ([q[i]] + q[i + 1..]);
    assert multiset(q) == multiset(rest) + multiset{p[n]};
    assert multiset(p) == multiset(p[..n]) + multiset{p[n]};
    assert multiset(p[..n]) == multiset(p) - multiset{p[n]} == multiset(rest);
  }

  /** The order of the pairs does not matter. */
  lemma {:induction false} FlatPermutation(p: seq<Pair>, q: seq<Pair>, last: set<Key>, w: Weights)
    requires multiset(p) == multiset(q)
    ensures FlatCost(p, last, w) == FlatCost(q, last, w)
    decreases |p|
  {
    if p == [] {
      assert |multiset(q)| == 0;
      assert q == [];
    } else {
      var i := MatchLast(p, q);
      FlatPermutation(p[..|p| - 1], q[..i] + q[i + 1..], last, w);
      FlatRemove(q, i, last, w);
    }
  }

  lemma LastCopiesPermutation(p: seq<Pair>, q: seq<Pair>, dir: Table)
    requires multiset(p) == multiset(q)
    ensures LastCopies(p, dir) == LastCopies(q, dir)
  {
    SubCopies(p, q, dir);
    SubCopies(q, p, dir);
  }

  lemma SameSelection(p: seq<Pair>, q: seq<Pair>, k: Key, e: Edge)
    requires multiset(p) == multiset(q) && SelectedAt(p, k, e)
    ensures SelectedAt(q, k, e) && k in SelectedKeys(q)
  {
    var i :| 0 <= i < |p| && p[i].edge == e && p[i].info.key == k;
    assert p[i] in multiset(q);
    var j :| 0 <= j < |q| && q[j] == p[i];
  }

  lemma SubCopies(p: seq<Pair>, q: seq<Pair>, dir: Table)
    requires multiset(p) == multiset(q)
    ensures LastCopies(p, dir) <= LastCopies(q, dir)
  {
    forall k | k in LastCopies(p, dir)
      ensures k in LastCopies(q, dir)
    {
      var i :| 0 <= i < |p| && p[i].info.key == k;
      SameSelection(p, q, k, p[i].edge);
      forall h | h in Holders(dir, k)
        ensures SelectedAt(q, k, h)
      {
        SameSelection(p, q, k, h);
      }
    }
  }

  // ---- As many victim records as edges --------------------------------------------------------------

  /** No victim is selected twice at the same edge. */
  predicate Distinct(pairs: seq<Pair>) {
    forall i, j :: 0 <= i < j < |pairs| ==> pairs[i].edge != pairs[j].edge || pairs[i].info.key != pairs[j].info.key
  }

  ghost function EdgesOf(pairs: seq<Pair>, k: Key): set<Edge> {
    set i | 0 <= i < |pairs| && pairs[i].info.key == k :: pairs[i].edge
  }

  /** So the fatal size mismatch between the two groupings cannot happen. */
  lemma {:induction false} NoSizeMismatch(pairs: seq<Pair>, k: Key)
    requires Distinct(pairs)
    ensures |OfKey(pairs, k)| == |EdgesOf(pairs, k)|
  {
    if pairs == [] {
      assert EdgesOf(pairs, k) == {};
    } else {
      var n := |pairs| - 1;
      NoSizeMismatch(pairs[..n], k);
      assert pairs == pairs[..n] + [pairs[n]];
      GroupMore(pairs[..n], pairs[n], k);
      if pairs[n].info.key == k {
        NewEdge(pairs, k);
      }
    }
  }

  lemma NewEdge(pairs: seq<Pair>, k: Key)
    requires Distinct(pairs) && pairs != [] && pairs[|pairs| - 1].info.key == k
    ensures pairs[|pairs| - 1].edge !in EdgesOf(pairs[..|pairs| - 1], k)
  {
    var n := |pairs| - 1;
    assert forall i :: 0 <= i < n ==> pairs[..n][i] == pairs[i];
  }

  // ---- The placement's victims ----------------------------------------------------------------------

  /** What the cost calculation reads: the records, each edge's own reward order and the directory. */
  datatype Context = Context(evict: map<Edge, EvictInfo>, all: seq<seq<VictimInfo>>, dir: Table)

  function Recorded(c: Context, e: Edge): Option<EvictInfo> {
    if e in c.evict then Some(c.evict[e]) else None
  }

  function PairUp(e: Edge, s: seq<VictimInfo>): (r: seq<Pair>)
    ensures |r| == |s| && forall i :: 0 <= i < |s| ==> r[i] == Pair(e, s[i])
  {
    seq(|s|, i requires 0 <= i < |s| => Pair(e, s[i]))
  }

  predicate InBounds(c: Context, placement: seq<Edge>) {
    forall i :: 0 <= i < |placement| ==> placement[i] < |c.all|
  }

  /** The victims of every placement edge, edges in a given order. */
  ghost function Pairs(c: Context, placement: seq<Edge>, objsize: nat): Option<seq<Pair>>
    requires InBounds(c, placement)
  {
    if placement == [] then Some([])
    else
      var e := placement[|placement| - 1];
      var before := Pairs(c, placement[..|placement| - 1], objsize);
      var here := Selected(Recorded(c, e), c.all[e], objsize);
      if before.None? || here.None? then None else Some(before.value + PairUp(e, here.value))
  }

  predicate DistinctKeys(s: seq<VictimInfo>) {
    forall i, j :: 0 <= i < j < |s| ==> s[i].key != s[j].key
  }

  /** A record is a prefix of the edge's own order, which names each key once and only keys the directory knows. */
  ghost predicate EdgeUsable(c: Context, e: Edge) {
    && e < |c.all|
    && DistinctKeys(c.all[e])
    && (forall i :: 0 <= i < |c.all[e]| ==> c.all[e][i].key in c.dir)
    && (e in c.evict ==> c.evict[e].victims <= c.all[e])
  }

  ghost predicate Usable(c: Context, placement: seq<Edge>) {
    NoDup(placement) && forall e {:trigger EdgeUsable(c, e)} :: e in placement ==> EdgeUsable(c, e)
  }

  lemma SelectedUsable(c: Context, e: Edge, objsize: nat)
    requires EdgeUsable(c, e) && Selected(Recorded(c, e), c.all[e], objsize).Some?
    ensures Selected(Recorded(c, e), c.all[e], objsize).value <= c.all[e]
  {
    if e in c.evict {
      var n := |c.evict[e].victims|;
      SelectedIsShortest(c.evict[e], c.all[e], objsize, n);
    }
  }

  /** Edges of the pairs come from the placement, keys from the directory, and no pair repeats. */
  ghost predicate PairsOk(c: Context, placement: seq<Edge>, pairs: seq<Pair>) {
    && Distinct(pairs)
    && forall i :: 0 <= i < |pairs| ==> pairs[i].edge in placement && pairs[i].info.key in c.dir
  }

  lemma PairsOkStep(c: Context, placement: seq<Edge>, pairs: seq<Pair>, e: Edge, here: seq<VictimInfo>)
    requires PairsOk(c, placement, pairs) && e !in placement && EdgeUsable(c, e) && here <= c.all[e]
    ensures PairsOk(c, placement + [e], pairs + PairUp(e, here))
  {
    var added := PairUp(e, here);
    assert forall i :: 0 <= i < |added| ==> added[i].info == c.all[e][i];
  }

  lemma {:induction false} PairsAreOk(c: Context, placement: seq<Edge>, objsize: nat)
    requires Usable(c, placement) && InBounds(c, placement)
    ensures Pairs(c, placement, objsize).Some? ==> PairsOk(c, placement, Pairs(c, placement, objsize).value)
  {
    if placement != [] && Pairs(c, placement, objsize).Some? {
      var n := |placement| - 1;
      var e := placement[n];
      assert EdgeUsable(c, e);
      PairsAreOk(c, placement[..n], objsize);
      SelectedUsable(c, e, objsize);
      PairsOkStep(c, placement[..n], Pairs(c, placement[..n], objsize).value, e,
                  Selected(Recorded(c, e), c.all[e], objsize).value);
      assert placement[..n] + [e] == placement;
    }
  }

  /** The cost of a placement; no result stands for the exit of an edge that cannot cover the object. */
  ghost function CostOf(c: Context, placement: seq<Edge>, objsize: nat, w: Weights): Option<real>
    requires InBounds(c, placement)
  {
    var pairs := Pairs(c, placement, objsize);
    if pairs.None? then None else Some(FlatCost(pairs.value, LastCopies(pairs.value, c.dir), w))
  }

  /** The collection exits exactly when some placement edge cannot be covered. */
  lemma {:induction false} PairsExitIff(c: Context, placement: seq<Edge>, objsize: nat)
    requires InBounds(c, placement)
    ensures Pairs(c, placement, objsize).None? <==>
            exists i :: 0 <= i < |placement| && Selected(Recorded(c, placement[i]), c.all[placement[i]], objsize).None?
  {
    if placement != [] {
      var n := |placement| - 1;
      PairsExitIff(c, placement[..n], objsize);
      assert forall i :: 0 <= i < n ==> placement[..n][i] == placement[i];
    }
  }

  // ---- The order of the placement set ---------------------------------------------------------------

  ghost function PairsAt(c: Context, e: Edge, objsize: nat): Option<seq<Pair>>
    requires e < |c.all|
  {
    var here := Selected(Recorded(c, e), c.all[e], objsize);
    if here.None? then None else Some(PairUp(e, here.value))
  }

  /** One collection after another; either may exit. */
  function Join(a: Option<seq<Pair>>, b: Option<seq<Pair>>): Option<seq<Pair>> {
    if a.None? || b.None? then None else Some(a.value + b.value)
  }

  lemma JoinNothing(a: Option<seq<Pair>>)
    ensures Join(a, Some([])) == a
  {
    if a.Some? {
      assert a.value + [] == a.value;
    }
  }

  lemma JoinAssociative(a: Option<seq<Pair>>, b: Option<seq<Pair>>, x: Option<seq<Pair>>)
    ensures Join(Join(a, b), x) == Join(a, Join(b, x))
  {
    if a.Some? && b.Some? && x.Some? {
      assert a.value + b.value + x.value == a.value + (b.value + x.value);
    }
  }

  lemma JoinMultiset(a: Option<seq<Pair>>, x: Option<seq<Pair>>, b: Option<seq<Pair>>)
    requires Join(Join(a, x), b).Some?
    ensures a.Some? && x.Some? && b.Some? && Join(a, b).Some?
    ensures multiset(Join(Join(a, x), b).value) == multiset(Join(a, b).value) + multiset(x.value)
  {
  }

  lemma PairsLast(c: Context, q: seq<Edge>, n: nat, objsize: nat)
    requires |q| == n + 1 && InBounds(c, q)
    ensures Pairs(c, q, objsize) == Join(Pairs(c, q[..n], objsize), PairsAt(c, q[n], objsize))
  {
  }

  /** Two parts of a placement are visited one after the other. */
  lemma {:induction false} PairsConcat(c: Context, p: seq<Edge>, q: seq<Edge>, objsize: nat)
    requires InBounds(c, p) && InBounds(c, q)
    ensures InBounds(c, p + q) && Pairs(c, p + q, objsize) == Join(Pairs(c, p, objsize), Pairs(c, q, objsize))
  {
    if q == [] {
      assert p + q == p;
      JoinNothing(Pairs(c, p, objsize));
    } else {
      var n := |q| - 1;
      PairsConcat(c, p, q[..n], objsize);
      assert (p + q)[..|p| + n] == p + q[..n];
      PairsLast(c, p + q, |p| + n, objsize);
      PairsLast(c, q, n, objsize);
      JoinAssociative(Pairs(c, p, objsize), Pairs(c, q[..n], objsize), PairsAt(c, q[n], objsize));
    }
  }

  /** Taking one edge out of the placement takes exactly its pairs out. */
  lemma PairsRemove(c: Context, q: seq<Edge>, i: nat, objsize: nat)
    requires i < |q| && InBounds(c, q) && Pairs(c, q, objsize).Some?
    ensures InBounds(c, q[..i] + q[i + 1..]) && Pairs(c, q[..i] + q[i + 1..], objsize).Some?
    ensures PairsAt(c, q[i], objsize).Some?
    ensures multiset(Pairs(c, q, objsize).value) ==
            multiset(Pairs(c, q[..i] + q[i + 1..], objsize).value) + multiset(PairsAt(c, q[i], objsize).value)
  {
    var front, back := q[..i + 1], q[i + 1..];
    assert q == front + back && front[..i] == q[..i];
    PairsConcat(c, front, back, objsize);
    PairsLast(c, front, i, objsize);
    PairsConcat(c, q[..i], back, objsize);
    JoinMultiset(Pairs(c, q[..i], objsize), PairsAt(c, q[i], objsize), Pairs(c, back, objsize));
  }

  lemma ExitsAgree(c: Context, p: seq<Edge>, q: seq<Edge>, objsize: nat)
    requires InBounds(c, p) && InBounds(c, q) && multiset(p) == multiset(q) && Pairs(c, p, objsize).None?
    ensures Pairs(c, q, objsize).None?
  {
    PairsExitIff(c, p, objsize);
    PairsExitIff(c, q, objsize);
    var i :| 0 <= i < |p| && Selected(Recorded(c, p[i]), c.all[p[i]], objsize).None?;
    assert p[i] in multiset(q);
    var j :| 0 <= j < |q| && q[j] == p[i];
  }

  /** Whichever way the placement set is walked, the same pairs are selected. */
  lemma {:induction false} PairsPermutation(c: Context, p: seq<Edge>, q: seq<Edge>, objsize: nat)
    requires InBounds(c, p) && InBounds(c, q) && multiset(p) == multiset(q)
    requires Pairs(c, p, objsize).Some? && Pairs(c, q, objsize).Some?
    ensures multiset(Pairs(c, p, objsize).value) == multiset(Pairs(c, q, objsize).value)
    decreases |p|
  {
    if p == [] {
      assert |multiset(q)| == 0;
      assert q == [];
    } else {
      var i := MatchLast(p, q);
      PairsRemove(c, q, i, objsize);
      PairsPermutation(c, p[..|p| - 1], q[..i] + q[i + 1..], objsize);
    }
  }

  /**
   The cost of a placement is the same whichever way the set of its edges is walked, and whichever way the map of its
   victims is walked afterwards; so is whether the calculation exits.
   */
  lemma CostIsOrderFree(c: Context, p: seq<Edge>, q: seq<Edge>, keys: seq<Key>, objsize: nat, w: Weights)
    requires InBounds(c, p) && InBounds(c, q) && multiset(p) == multiset(q)
    ensures CostOf(c, p, objsize, w) == CostOf(c, q, objsize, w)
    ensures var pairs := Pairs(c, q, objsize);
            pairs.Some? && NoDup(keys) && Elems(keys) == SelectedKeys(pairs.value) ==>
              CostOf(c, p, objsize, w) == Some(GroupedCost(keys, pairs.value, LastCopies(pairs.value, c.dir), w))
  {
    var ps, qs := Pairs(c, p, objsize), Pairs(c, q, objsize);
    if ps.None? {
      ExitsAgree(c, p, q, objsize);
    } else if qs.None? {
      ExitsAgree(c, q, p, objsize);
    } else {
      PairsPermutation(c, p, q, objsize);
      LastCopiesPermutation(ps.value, qs.value, c.dir);
      FlatPermutation(ps.value, qs.value, LastCopies(ps.value, c.dir), w);
      if NoDup(keys) && Elems(keys) == SelectedKeys(qs.value) {
        GroupedIsFlat(keys, qs.value, LastCopies(qs.value, c.dir), w);
      }
    }
  }

  // ---- As the program does it: collect per edge, regroup per victim, then sum -----------------------

  ghost predicate GroupAt(pairs: seq<Pair>, edgesets: map<Key, set<Edge>>, infos: map<Key, seq<VictimInfo>>, k: Key)
    requires k in edgesets && k in infos
  {
    && edgesets[k] == EdgesOf(pairs, k)
    && |infos[k]| == |OfKey(pairs, k)|
    && forall i :: 0 <= i < |infos[k]| ==> infos[k][i] == OfKey(pairs, k)[i].info
  }

  /** The two maps the program fills in parallel hold the edges and the records of each victim. */
  ghost predicate Grouping(pairs: seq<Pair>, edgesets: map<Key, set<Edge>>, infos: map<Key, seq<VictimInfo>>) {
    && edgesets.Keys == infos.Keys == SelectedKeys(pairs)
    && forall k {:trigger GroupAt(pairs, edgesets, infos, k)} :: k in infos ==> GroupAt(pairs, edgesets, infos, k)
  }

  lemma KeysMore(pairs: seq<Pair>, x: Pair)
    ensures SelectedKeys(pairs + [x]) == SelectedKeys(pairs) + {x.info.key}
  {
    var all := pairs + [x];
    assert forall i :: 0 <= i < |pairs| ==> all[i] == pairs[i];
    assert all[|pairs|] == x;
    assert forall k :: k in SelectedKeys(pairs) ==> k in SelectedKeys(all);
  }

  lemma GroupMore(pairs: seq<Pair>, x: Pair, k: Key)
    ensures EdgesOf(pairs + [x], k) == EdgesOf(pairs, k) + if x.info.key == k then {x.edge} else {}
    ensures OfKey(pairs + [x], k) == OfKey(pairs, k) + if x.info.key == k then [x] else []
  {
    var all := pairs + [x];
    assert all[..|pairs|] == pairs;
    assert forall i :: 0 <= i < |pairs| ==> all[i] == pairs[i];
    assert all[|pairs|] == x;
    assert forall e :: e in EdgesOf(pairs, k) ==> e in EdgesOf(all, k);
  }

  lemma {:induction false} OfKeyEmpty(pairs: seq<Pair>, k: Key)
    requires k !in SelectedKeys(pairs)
    ensures OfKey(pairs, k) == []
  {
    if pairs != [] {
      var n := |pairs| - 1;
      assert forall i :: 0 <= i < n ==> pairs[..n][i] == pairs[i];
      assert pairs[n].info.key in SelectedKeys(pairs);
      OfKeyEmpty(pairs[..n], k);
    }
  }

  lemma {:induction false} OfKeyKeys(pairs: seq<Pair>, k: Key)
    ensures forall i :: 0 <= i < |OfKey(pairs, k)| ==> OfKey(pairs, k)[i].info.key == k
  {
    if pairs != [] {
      OfKeyKeys(pairs[..|pairs| - 1], k);
    }
  }

  method AddPair(edgesets: map<Key, set<Edge>>, infos: map<Key, seq<VictimInfo>>, x: Pair, ghost pairs: seq<Pair>)
    returns (edgesets': map<Key, set<Edge>>, infos': map<Key, seq<VictimInfo>>)
    requires Grouping(pairs, edgesets, infos)
    ensures Grouping(pairs + [x], edgesets', infos')
  {
    var k := x.info.key;
    var before := if k in edgesets then edgesets[k] else {};
    var list := if k in infos then infos[k] else [];
    edgesets' := edgesets[k := before + {x.edge}];
    infos' := infos[k := list + [x.info]];
    KeysMore(pairs, x);
    forall j | j in infos'
      ensures GroupAt(pairs + [x], edgesets', infos', j)
    {
      AddedGroup(edgesets, infos, x, pairs, j);
    }
  }

  lemma AddedGroup(edgesets: map<Key, set<Edge>>, infos: map<Key, seq<VictimInfo>>, x: Pair, pairs: seq<Pair>, j: Key)
    requires Grouping(pairs, edgesets, infos) && (j in infos || j == x.info.key)
    ensures var k := x.info.key;
            var edges := (if k in edgesets then edgesets[k] else {}) + {x.edge};
            var list := (if k in infos then infos[k] else []) + [x.info];
            GroupAt(pairs + [x], edgesets[k := edges], infos[k := list], j)
  {
    GroupMore(pairs, x, j);
    if j in infos {
      assert GroupAt(pairs, edgesets, infos, j);
    } else {
      OfKeyEmpty(pairs, j);
      NoEdges(pairs, j);
    }
  }

  lemma NoEdges(pairs: seq<Pair>, k: Key)
    requires k !in SelectedKeys(pairs)
    ensures EdgesOf(pairs, k) == {}
  {
    assert forall i :: 0 <= i < |pairs| ==> pairs[i].info.key in SelectedKeys(pairs);
  }

  /** Adds the victims of one edge. */
  method AddVictims(edgesets: map<Key, set<Edge>>, infos: map<Key, seq<VictimInfo>>, e: Edge, here: seq<VictimInfo>,
                    ghost pairs: seq<Pair>)
    returns (edgesets': map<Key, set<Edge>>, infos': map<Key, seq<VictimInfo>>)
    requires Grouping(pairs, edgesets, infos)
    ensures Grouping(pairs + PairUp(e, here), edgesets', infos')
  {
    edgesets', infos' := edgesets, infos;
    ghost var added := PairUp(e, here);
    assert pairs + added[..0] == pairs;
    for j := 0 to |here|
      invariant Grouping(pairs + added[..j], edgesets', infos')
    {
      edgesets', infos' := AddPair(edgesets', infos', Pair(e, here[j]), pairs + added[..j]);
      assert pairs + added[..j + 1] == pairs + added[..j] + [added[j]];
    }
    assert added[..|added|] == added;
  }

  /** Walks the placement set; `order` is the order in which it yields its edges. */
  method CollectVictims(c: Context, placement: set<Edge>, objsize: nat)
    returns (ok: bool, edgesets: map<Key, set<Edge>>, infos: map<Key, seq<VictimInfo>>, ghost order: seq<Edge>)
    requires forall e :: e in placement ==> e < |c.all|
    ensures NoDup(order) && Elems(order) <= placement && InBounds(c, order)
    ensures ok <==> Pairs(c, order, objsize).Some?
    ensures ok ==> Elems(order) == placement && Grouping(Pairs(c, order, objsize).value, edgesets, infos)
  {
    ok, edgesets, infos, order := true, map[], map[], [];
    ghost var pairs: seq<Pair> := [];
    var rest := placement;
    while rest != {}
      invariant rest <= placement && NoDup(order) && Elems(order) == placement - rest
      invariant InBounds(c, order) && Pairs(c, order, objsize) == Some(pairs)
      invariant ok && Grouping(pairs, edgesets, infos)
    {
      var e :| e in rest;
      rest := rest - {e};
      var here := SelectVictims(Recorded(c, e), c.all[e], objsize);
      order := Visited(c, order, e, objsize, pairs, here);
      if here.None? {
        ok := false;
        return;
      }
      edgesets, infos := AddVictims(edgesets, infos, e, here.value, pairs);
      pairs := pairs + PairUp(e, here.value);
    }
  }

  lemma Visited(c: Context, order: seq<Edge>, e: Edge, objsize: nat, pairs: seq<Pair>,
                here: Option<seq<VictimInfo>>) returns (order': seq<Edge>)
    requires NoDup(order) && InBounds(c, order) && e < |c.all| && e !in Elems(order)
    requires Pairs(c, order, objsize) == Some(pairs) && here == Selected(Recorded(c, e), c.all[e], objsize)
    ensures order' == order + [e] && NoDup(order') && InBounds(c, order') && Elems(order') == Elems(order) + {e}
    ensures Pairs(c, order', objsize) == if here.None? then None else Some(pairs + PairUp(e, here.value))
  {
    order' := order + [e];
    assert order'[..|order|] == order;
  }

  lemma {:induction false} NoPairs(c: Context, placement: seq<Edge>, objsize: nat, i: nat)
    requires i <= |placement| && InBounds(c, placement)
    requires Pairs(c, placement[..i], objsize).None?
    ensures Pairs(c, placement, objsize).None?
  {
    if i == |placement| {
      assert placement[..i] == placement;
    } else {
      var n := |placement| - 1;
      assert placement[..n][..i] == placement[..i];
      NoPairs(c, placement[..n], objsize, i);
    }
  }

  /** Whether all holders of a victim are among the edges it is selected at. */
  method IsLastCopies(c: Context, k: Key, edges: set<Edge>) returns (r: bool)
    requires k in c.dir
    ensures r <==> forall h :: h in c.dir[k] ==> h in edges
  {
    var l := c.dir[k];
    for i := 0 to |l|
      invariant forall j :: 0 <= j < i ==> l[j] in edges
    {
      if l[i] !in edges {
        assert l[i] in c.dir[k];
        return false;
      }
    }
    r := true;
  }

  /** The set is walked in an order of its own; the cost is that of any list of its edges. */
  method CalcEvictionCost(c: Context, placement: set<Edge>, objsize: nat, w: Weights, ghost list: seq<Edge>)
    returns (r: Option<real>)
    requires Usable(c, list) && InBounds(c, list) && Elems(list) == placement
    ensures r == CostOf(c, list, objsize, w)
  {
    assert forall e :: e in list ==> EdgeUsable(c, e);
    var ok, edgesets, infos, order := CollectVictims(c, placement, objsize);
    if !ok {
      ExitAmong(c, order, list, objsize);
      return None;
    }
    ghost var pairs := Pairs(c, order, objsize).value;
    PairsAreOk(c, order, objsize);
    NoDupMultiset(list);
    NoDupMultiset(order);
    CostIsOrderFree(c, list, order, [], objsize, w);
    var cost := SumGroups(c, edgesets, infos, w, pairs);
    r := Some(cost);
  }

  /** If walking some of the edges exits, walking all of them does. */
  lemma ExitAmong(c: Context, some: seq<Edge>, all: seq<Edge>, objsize: nat)
    requires InBounds(c, some) && InBounds(c, all) && Elems(some) <= Elems(all) && Pairs(c, some, objsize).None?
    ensures Pairs(c, all, objsize).None?
  {
    PairsExitIff(c, some, objsize);
    PairsExitIff(c, all, objsize);
    var i :| 0 <= i < |some| && Selected(Recorded(c, some[i]), c.all[some[i]], objsize).None?;
    assert some[i] in Elems(all);
    var j :| 0 <= j < |all| && all[j] == some[i];
  }

  method SumGroups(c: Context, edgesets: map<Key, set<Edge>>, infos: map<Key, seq<VictimInfo>>, w: Weights,
                   ghost pairs: seq<Pair>) returns (cost: real)
    requires Grouping(pairs, edgesets, infos) && Distinct(pairs)
    requires forall k :: k in SelectedKeys(pairs) ==> k in c.dir
    ensures cost == FlatCost(pairs, LastCopies(pairs, c.dir), w)
  {
    ghost var last := LastCopies(pairs, c.dir);
    ghost var done: seq<Key> := [];
    var rest := edgesets.Keys;
    cost := 0.0;
    while rest != {}
      invariant rest <= edgesets.Keys && NoDup(done)
      invariant Elems(done) == edgesets.Keys - rest
      invariant cost == GroupedCost(done, pairs, last, w)
    {
      var k :| k in rest;
      rest := rest - {k};
      var isLast := IsLastCopies(c, k, edgesets[k]);
      assert GroupAt(pairs, edgesets, infos, k);
      LastCopiesIs(pairs, c.dir, k);
      NoSizeMismatch(pairs, k);
      assert |infos[k]| == |edgesets[k]|;
      OfKeyKeys(pairs, k);
      var group := SumGroup(infos[k], isLast, w, OfKey(pairs, k), last, k);
      assert k !in Elems(done);
      assert (done + [k])[..|done|] == done;
      done := done + [k];
      cost := cost + group;
      assert Elems(done) == edgesets.Keys - rest;
    }
    GroupedIsFlat(done, pairs, last, w);
  }

  lemma LastCopiesIs(pairs: seq<Pair>, dir: Table, k: Key)
    requires k in SelectedKeys(pairs) && k in dir
    ensures k in LastCopies(pairs, dir) <==> forall h :: h in dir[k] ==> h in EdgesOf(pairs, k)
  {
    forall h
      ensures SelectedAt(pairs, k, h) <==> h in EdgesOf(pairs, k)
    {
    }
    assert Holders(dir, k) == dir[k];
  }

  method SumGroup(infos: seq<VictimInfo>, isLast: bool, w: Weights, ghost group: seq<Pair>, ghost last: set<Key>,
                  ghost k: Key)
    returns (sum: real)
    requires |infos| == |group| && forall i :: 0 <= i < |infos| ==> infos[i] == group[i].info && infos[i].key == k
    requires isLast <==> k in last
    ensures sum == FlatCost(group, last, w)
  {
    sum := 0.0;
    assert group[..0] == [];
    for i := 0 to |infos|
      invariant sum == FlatCost(group[..i], last, w)
    {
      assert group[..i + 1][..i] == group[..i];
      sum := sum + Reward(w, infos[i], isLast);
    }
    assert group[..|group|] == group;
  }
}
