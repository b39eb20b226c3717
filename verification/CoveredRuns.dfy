/** What every run of the COVERED simulator keeps. */
module CoveredRuns {
  import opened Types
  import opened Directory
  import opened Victims
  import opened CoveredNode
  import opened CoveredSim
  import P = PopularityIndex
  import Nearest

  function Holds(edges: seq<Node>): (r: seq<set<Key>>)
    ensures |r| == |edges| && forall i :: 0 <= i < |r| ==> r[i] == edges[i].objs.Keys
  {
    seq(|edges|, i requires 0 <= i < |edges| => edges[i].objs.Keys)
  }

  ghost predicate NodeOk(c: Config, s: State, e: Edge)
    requires e < |s.edges|
  {
    CoveredNode.Wf(s.edges[e], c.limits)
  }

  /** A copy's neighbour flag is set exactly when the directory lists another edge as well. */
  ghost predicate FlagOk(s: State, e: Edge, k: Key)
    requires e < |s.edges|
  {
    k in s.edges[e].objs ==> (s.edges[e].objs[k].neighbor <==> |Holders(s.dir, k)| >= 2)
  }

  /** An edge whose popularity counts for an object has eviction information and does not cache the object. */
  ghost predicate IndexAt(s: State, k: Key, e: Edge) {
    k in s.index && P.HasEdge(s.index[k].pops, e) ==>
      e < |s.edges| && k !in s.edges[e].objs && e in s.evict
  }

  /** Recorded victims are the edge's current least rewarding objects; an edge without a record caches nothing. */
  ghost predicate EvictAt(c: Config, s: State, e: Edge)
    requires e < |s.edges|
  {
    if e in s.evict then s.evict[e].victims == Synced(s.edges[e], c.synced) else s.edges[e].objs == map[]
  }

  ghost predicate Nodes(c: Config, s: State) {
    forall e: Edge {:trigger NodeOk(c, s, e)} :: e < |s.edges| ==> NodeOk(c, s, e)
  }

  ghost predicate Flags(s: State) {
    forall e: Edge, k: Key {:trigger FlagOk(s, e, k)} :: e < |s.edges| ==> FlagOk(s, e, k)
  }

  ghost predicate Indexed(s: State) {
    && (forall k: Key, e: Edge {:trigger IndexAt(s, k, e)} :: IndexAt(s, k, e))
    && (forall k :: k in s.index ==> s.index[k].pops != [] && Placement.Nonneg(s.index[k].pops))
    && (forall e :: e in s.evict ==> e < |s.edges|)
  }

  /** The invariant but for the flags, with the record of one edge possibly out of date. */
  ghost predicate QuietBut(c: Config, s: State, hole: Option<Edge>) {
    && Nodes(c, s)
    && Coherent(Holds(s.edges), s.dir)
    && Indexed(s)
    && forall e: Edge {:trigger EvictAt(c, s, e)} :: e < |s.edges| && Some(e) != hole ==> EvictAt(c, s, e)
  }

  ghost predicate InvBut(c: Config, s: State, hole: Option<Edge>) {
    QuietBut(c, s, hole) && Flags(s)
  }

  ghost predicate Inv(c: Config, s: State) {
    InvBut(c, s, None)
  }

  // ---- Changing one edge ----------------------------------------------------------------------------

  /** Same objects with the same flags; what is tracked, ranked or popular may differ. */
  ghost predicate SameCached(x: Node, y: Node) {
    && x.objs.Keys == y.objs.Keys
    && forall k :: k in x.objs ==> y.objs[k].neighbor == x.objs[k].neighbor
  }

  lemma ReplaceKeeps(c: Config, s: State, e: Edge, y: Node)
    requires Inv(c, s) && e < |s.edges| && SameCached(s.edges[e], y) && CoveredNode.Wf(y, c.limits)
    ensures InvBut(c, Replace(s, e, y), Some(e))
  {
    var s' := Replace(s, e, y);
    assert Holds(s'.edges) == Holds(s.edges);
    forall a: Edge | a < |s'.edges|
      ensures NodeOk(c, s', a)
    {
      assert NodeOk(c, s, a);
    }
    forall a: Edge, k: Key | a < |s'.edges|
      ensures FlagOk(s', a, k)
    {
      assert FlagOk(s, a, k);
    }
    IndexedKeeps(s, s');
    forall a: Edge | a < |s'.edges| && a != e
      ensures EvictAt(c, s', a)
    {
      assert EvictAt(c, s, a);
    }
  }

  lemma IndexedKeeps(s: State, s': State)
    requires Indexed(s) && s'.index == s.index && s'.evict == s.evict && Holds(s'.edges) == Holds(s.edges)
    ensures Indexed(s')
  {
    assert |Holds(s'.edges)| == |Holds(s.edges)|;
    forall k: Key, a: Edge
      ensures IndexAt(s', k, a)
    {
      assert IndexAt(s, k, a);
      assert a < |s.edges| ==> Holds(s'.edges)[a] == Holds(s.edges)[a];
    }
  }

  lemma FillHole(c: Config, s: State, e: Edge)
    requires InvBut(c, s, Some(e)) && e < |s.edges| && EvictAt(c, s, e)
    ensures Inv(c, s)
  {
  }

  lemma OpenHole(c: Config, s: State, e: Edge)
    requires Inv(c, s)
    ensures InvBut(c, s, Some(e))
  {
  }

  /** Recording an edge afresh closes the gap. */
  lemma SyncFullKeeps(c: Config, s: State, e: Edge)
    requires InvBut(c, s, Some(e)) && e < |s.edges|
    ensures Inv(c, SyncFull(c, s, e))
  {
    RecordKeeps(c, s, e, EvictInfo(MarginOf(c, s.edges[e]), Synced(s.edges[e], c.synced)));
  }

  lemma QuietRecord(c: Config, s: State, e: Edge, info: EvictInfo)
    requires QuietBut(c, s, Some(e)) && e < |s.edges| && info.victims == Synced(s.edges[e], c.synced)
    ensures QuietBut(c, s.(evict := s.evict[e := info]), None)
  {
    var s' := s.(evict := s.evict[e := info]);
    forall a: Edge | a < |s'.edges|
      ensures NodeOk(c, s', a) && EvictAt(c, s', a)
    {
      assert NodeOk(c, s, a);
      assert a != e ==> EvictAt(c, s, a);
    }
    forall k: Key, a: Edge
      ensures IndexAt(s', k, a)
    {
      assert IndexAt(s, k, a);
    }
  }

  lemma RecordKeeps(c: Config, s: State, e: Edge, info: EvictInfo)
    requires InvBut(c, s, Some(e)) && e < |s.edges| && info.victims == Synced(s.edges[e], c.synced)
    ensures Inv(c, s.(evict := s.evict[e := info]))
  {
    QuietRecord(c, s, e, info);
    var s' := s.(evict := s.evict[e := info]);
    forall a: Edge, k: Key | a < |s'.edges|
      ensures FlagOk(s', a, k)
    {
      assert FlagOk(s, a, k);
    }
  }

  /** Notifications carry no reward, so records stay right. */
  lemma QuietNotify(c: Config, s: State, edges: seq<Node>)
    requires QuietBut(c, s, None) && |edges| == |s.edges|
    requires forall a: Edge :: a < |edges| ==> SameButFlags(s.edges[a], edges[a])
    ensures QuietBut(c, s.(edges := edges), None)
  {
    var s' := s.(edges := edges);
    assert Holds(s'.edges) == Holds(s.edges);
    forall a: Edge | a < |edges|
      ensures NodeOk(c, s', a) && EvictAt(c, s', a)
    {
      assert NodeOk(c, s, a) && EvictAt(c, s, a);
      SameButFlagsWf(s.edges[a], edges[a], c.limits, c.synced);
      assert s.edges[a].objs == map[] ==> edges[a].objs.Keys == {};
    }
    IndexedKeeps(s, s');
  }

  /** A margin-only update succeeds exactly when the edge has a record, and then keeps everything. */
  lemma SyncKeeps(c: Config, s: State, e: Edge, affect: bool)
    requires InvBut(c, s, Some(e)) && e < |s.edges| && (affect || EvictAt(c, s, e))
    ensures Sync(c, s, e, affect) == Failed(NoEvictInfo) <==> !affect && e !in s.evict
    ensures Sync(c, s, e, affect).Done? <==> affect || e in s.evict
    ensures Sync(c, s, e, affect).Done? ==> Inv(c, Sync(c, s, e, affect).value)
  {
    if affect {
      SyncFullKeeps(c, s, e);
    } else if e in s.evict {
      RecordKeeps(c, s, e, s.evict[e].(margin := MarginOf(c, s.edges[e])));
    }
  }

  // ---- Access ---------------------------------------------------------------------------------------

  lemma TouchAtKeeps(c: Config, pi: Policy, s: State, e: Edge, k: Key)
    requires Inv(c, s) && e < |s.edges| && k in s.edges[e].objs
    ensures Inv(c, TouchAt(c, pi, s, e, k))
  {
    var x := s.edges[e];
    var m := pi.touch(e, x);
    assert NodeOk(c, s, e);
    assert EvictAt(c, s, e);
    TouchWf(x, k, m, c.limits);
    var y := Touch(x, k, m);
    ReplaceKeeps(c, s, e, y);
    var s' := Replace(s, e, y);
    if TouchAffects(x, k, m, c.synced) {
      SyncFullKeeps(c, s', e);
    } else {
      TouchSynced(x, k, m, c.synced, c.limits);
      assert EvictAt(c, s', e);
      FillHole(c, s', e);
    }
  }

  lemma RecallKeeps(c: Config, s: State, e: Edge, m: Memory)
    requires Inv(c, s) && e < |s.edges| && forall k :: k in s.edges[e].objs ==> k !in m.tracked
    ensures Inv(c, Replace(s, e, Recall(s.edges[e], m)))
  {
    var x := s.edges[e];
    var y := Recall(x, m);
    assert NodeOk(c, s, e) && EvictAt(c, s, e);
    RecallWf(x, m, c.limits, c.synced);
    ReplaceKeeps(c, s, e, y);
    assert EvictAt(c, Replace(s, e, y), e);
    FillHole(c, Replace(s, e, y), e);
  }

  lemma AccessFrame(c: Config, pi: Policy, s: State, e: Edge, k: Key)
    requires Inv(c, s) && e < |s.edges|
    ensures Access(c, pi, s, e, k).dir == s.dir && |Access(c, pi, s, e, k).edges| == |s.edges|
    ensures forall a: Edge :: a < |s.edges| && a != e ==> Access(c, pi, s, e, k).edges[a] == s.edges[a]
    ensures e in Access(c, pi, s, e, k).evict <==> e in s.evict
  {
    assert EvictAt(c, s, e);
  }

  lemma AccessKeeps(c: Config, pi: Policy, s: State, e: Edge, k: Key)
    requires Inv(c, s) && e < |s.edges|
    ensures Inv(c, Access(c, pi, s, e, k))
    ensures Access(c, pi, s, e, k).dir == s.dir && |Access(c, pi, s, e, k).edges| == |s.edges|
    ensures forall a: Edge :: a < |s.edges| && a != e ==> Access(c, pi, s, e, k).edges[a] == s.edges[a]
    ensures e in Access(c, pi, s, e, k).evict <==> e in s.evict
  {
    AccessFrame(c, pi, s, e, k);
    if k in s.edges[e].objs {
      TouchAtKeeps(c, pi, s, e, k);
    } else {
      var m := pi.miss(e, s.edges[e]);
      RecallKeeps(c, s, e, m.(tracked := m.tracked - s.edges[e].objs.Keys));
    }
  }

  // ---- Eviction -------------------------------------------------------------------------------------

  /** After the notifications a flag is cleared where the key was evicted and one holder is left; nothing else moves. */
  lemma {:induction false} DisableSpec(edges: seq<Node>, dir: Table, keys: seq<Key>, e: Edge)
    requires e < |edges|
    ensures SameButFlags(edges[e], Disable(edges, dir, keys)[e])
    ensures forall k :: k in edges[e].objs ==>
              Disable(edges, dir, keys)[e].objs[k].neighbor ==
              (edges[e].objs[k].neighbor && !(k in keys && Holders(dir, k) == [e]))
  {
    if keys != [] {
      var n := |keys| - 1;
      DisableSpec(edges, dir, keys[..n], e);
      assert keys == keys[..n] + [keys[n]];
    }
  }

  /** What eviction leaves behind, before it is recorded and announced. */
  ghost function Evicted(pi: Policy, s: State, e: Edge, m: nat): State
    requires e < |s.edges| && m <= |s.edges[e].rank|
  {
    Replace(s, e, Shrunk(s.edges[e], m, pi.left(e))).(dir := RemoveAll(s.dir, s.edges[e].rank[..m], e))
  }

  lemma EvictedCoherent(c: Config, pi: Policy, s: State, e: Edge, m: nat)
    requires InvBut(c, s, Some(e)) && e < |s.edges| && m <= |s.edges[e].rank|
    ensures Coherent(Holds(Evicted(pi, s, e, m).edges), Evicted(pi, s, e, m).dir)
  {
    assert NodeOk(c, s, e);
    ShrunkWf(s.edges[e], m, pi.left(e), c.limits);
    var keys := s.edges[e].rank[..m];
    CoherentRemoveAll(Holds(s.edges), s.dir, keys, e);
    assert Holds(Evicted(pi, s, e, m).edges) == Holds(s.edges)[e := Holds(s.edges)[e] - Elems(keys)];
  }

  lemma EvictedQuiet(c: Config, pi: Policy, s: State, e: Edge, m: nat)
    requires InvBut(c, s, Some(e)) && e < |s.edges| && m <= |s.edges[e].rank|
    ensures QuietBut(c, Evicted(pi, s, e, m), Some(e))
  {
    var s' := Evicted(pi, s, e, m);
    EvictedCoherent(c, pi, s, e, m);
    assert NodeOk(c, s, e);
    ShrunkWf(s.edges[e], m, pi.left(e), c.limits);
    forall a: Edge | a < |s.edges|
      ensures NodeOk(c, s', a)
    {
      assert NodeOk(c, s, a);
    }
    forall k: Key, a: Edge
      ensures IndexAt(s', k, a)
    {
      assert IndexAt(s, k, a);
      assert k in s'.edges[e].objs ==> k in s.edges[e].objs;
    }
    forall a: Edge | a < |s.edges| && a != e
      ensures EvictAt(c, s', a)
    {
      assert EvictAt(c, s, a);
    }
  }

  /** Flags are right once the remaining single holders have been told. */
  lemma FlagAfterEviction(c: Config, pi: Policy, s: State, e: Edge, m: nat, a: Edge, k: Key)
    requires InvBut(c, s, Some(e)) && e < |s.edges| && m <= |s.edges[e].rank| && a < |s.edges|
    requires k in Evicted(pi, s, e, m).edges[a].objs
    ensures var s' := Evicted(pi, s, e, m);
            var keys := s.edges[e].rank[..m];
            s'.edges[a].objs[k].neighbor && !(k in keys && Holders(s'.dir, k) == [a]) <==> |Holders(s'.dir, k)| >= 2
  {
    var s' := Evicted(pi, s, e, m);
    var keys := s.edges[e].rank[..m];
    var l, l' := Holders(s.dir, k), Holders(s'.dir, k);
    assert NodeOk(c, s, e);
    ShrunkWf(s.edges[e], m, pi.left(e), c.limits);
    RemoveAllHolders(s.dir, keys, e, k);
    assert k in s.edges[a].objs;
    assert FlagOk(s, a, k);
    EvictedCoherent(c, pi, s, e, m);
    assert k in Holds(s'.edges)[a] && a in l';
    if k in keys {
      assert k in Holds(s.edges)[e] && e in l;
      assert k in Holds(s.edges)[a] && a in l;
      MinusSpec(l, e);
      assert a != e;
      TwoElements(l, a, e);
      SingleElement(l', a);
    }
  }

  lemma TwoElements(l: seq<Edge>, a: Edge, b: Edge)
    requires a in l && b in l && a != b
    ensures |l| >= 2
  {
  }

  lemma SingleElement(l: seq<Edge>, a: Edge)
    requires a in l
    ensures l == [a] <==> |l| == 1
  {
  }

  lemma SettledKeeps(c: Config, pi: Policy, s: State, e: Edge, m: nat)
    requires InvBut(c, s, Some(e)) && e < |s.edges| && m <= |s.edges[e].rank|
    ensures Inv(c, Settled(c, pi, s, e, m))
    ensures Settled(c, pi, s, e, m).evict.Keys == s.evict.Keys + {e} && Settled(c, pi, s, e, m).index == s.index
    ensures Settled(c, pi, s, e, m).dir == RemoveAll(s.dir, s.edges[e].rank[..m], e)
    ensures forall a: Edge :: a < |s.edges| && a != e ==> SameButFlags(s.edges[a], Settled(c, pi, s, e, m).edges[a])
    ensures SameButFlags(Shrunk(s.edges[e], m, pi.left(e)), Settled(c, pi, s, e, m).edges[e])
  {
    var keys := s.edges[e].rank[..m];
    var s1 := Evicted(pi, s, e, m);
    var s2 := SyncFull(c, s1, e);
    var s3 := Settled(c, pi, s, e, m);
    assert s3 == s2.(edges := Disable(s2.edges, s2.dir, keys));
    EvictedQuiet(c, pi, s, e, m);
    QuietRecord(c, s1, e, s2.evict[e]);
    forall a: Edge | a < |s.edges|
      ensures SameButFlags(s2.edges[a], s3.edges[a])
    {
      DisableSpec(s2.edges, s2.dir, keys, a);
    }
    QuietNotify(c, s2, s3.edges);
    forall a: Edge, k: Key | a < |s.edges|
      ensures FlagOk(s3, a, k)
    {
      DisableSpec(s2.edges, s2.dir, keys, a);
      if k in s3.edges[a].objs {
        FlagAfterEviction(c, pi, s, e, m, a, k);
      }
    }
  }

  lemma SettleKeeps(c: Config, pi: Policy, s: State, e: Edge)
    requires InvBut(c, s, Some(e)) && e < |s.edges|
    ensures !Settle(c, pi, s, e).Failed?
    ensures Settle(c, pi, s, e).Done? ==>
              var s' := Settle(c, pi, s, e).value;
              && Inv(c, s') && |s'.edges| == |s.edges|
              && s'.evict.Keys == s.evict.Keys + {e} && s'.index == s.index
              && s'.edges[e].tracked == s.edges[e].tracked
              && (forall a: Edge :: a < |s.edges| && a != e ==> SameButFlags(s.edges[a], s'.edges[a]))
  {
    var m := EvictCount(s.edges[e], c.limits.capacity);
    if m.Some? {
      SettledKeeps(c, pi, s, e, m.value);
    }
  }

  // ---- Validation -----------------------------------------------------------------------------------

  /** Nothing cached is ever invalid, so validation only learns about uncached objects. */
  lemma RefreshKeeps(c: Config, pi: Policy, s: State, e: Edge, k: Key, v: Value)
    requires Inv(c, s) && e < |s.edges|
    ensures !Refresh(c, pi, s.edges[e], e, k, v).1
    ensures Inv(c, Replace(s, e, Refresh(c, pi, s.edges[e], e, k, v).0))
    ensures k in Refresh(c, pi, s.edges[e], e, k, v).0.tracked ==> ValidObjsize(c.limits.capacity, k, v)
    ensures Refresh(c, pi, s.edges[e], e, k, v).0.objs == s.edges[e].objs
  {
    assert NodeOk(c, s, e);
    if k in s.edges[e].objs {
      assert Replace(s, e, s.edges[e]) == s;
    } else {
      var rejected := if ValidObjsize(c.limits.capacity, k, v) then {} else {k};
      var m := pi.learn(e, s.edges[e]);
      RecallKeeps(c, s, e, m.(tracked := m.tracked - s.edges[e].objs.Keys - rejected));
    }
  }

  /**
   Validation goes wrong only when a deleted value, which skips eviction, reaches an edge that was never recorded.
   Afterwards the edge is recorded and tracks the key only if the value is of admissible size.
   */
  lemma ValidateKeeps(c: Config, pi: Policy, s: State, e: Edge, k: Key, v: Value)
    requires Inv(c, s) && e < |s.edges|
    ensures Validate(c, pi, s, e, k, v).Failed? <==> v.deleted && e !in s.evict
    ensures Validate(c, pi, s, e, k, v).Failed? ==> Validate(c, pi, s, e, k, v).why == NoEvictInfo
    ensures Validate(c, pi, s, e, k, v).Done? ==>
              var s' := Validate(c, pi, s, e, k, v).value;
              && Inv(c, s') && |s'.edges| == |s.edges| && e in s'.evict
              && (k in s'.edges[e].tracked ==> ValidObjsize(c.limits.capacity, k, v))
  {
    var x := Refresh(c, pi, s.edges[e], e, k, v).0;
    var s1 := Replace(s, e, x);
    RefreshKeeps(c, pi, s, e, k, v);
    var s2 := if v.deleted then Done(s1) else Settle(c, pi, s1, e);
    if !v.deleted {
      OpenHole(c, s1, e);
      SettleKeeps(c, pi, s1, e);
    }
    if s2.Done? {
      assert EvictAt(c, s2.value, e);
      OpenHole(c, s2.value, e);
      SyncKeeps(c, s2.value, e, false);
    }
  }

  // ---- Popularity aggregation -----------------------------------------------------------------------

  lemma WithoutNonneg(pops: Entries, e: Edge)
    requires Placement.Nonneg(pops)
    ensures Placement.Nonneg(P.Without(pops, e))
  {
    P.WithoutSubset(pops, e);
    var t := P.Without(pops, e);
    forall j | 0 <= j < |t|
      ensures t[j].pop >= 0.0
    {
      assert t[j] in pops;
    }
  }

  lemma UpdateNonneg(pops: Entries, e: Edge, pop: Popularity)
    requires Placement.Nonneg(pops)
    ensures Placement.Nonneg(P.Update(pops, e, pop))
  {
    WithoutNonneg(pops, e);
    P.WithoutWf(pops, e);
    var s := P.Without(pops, e);
    var p, t := P.InsertShape(s, P.Entry(pop, e));
    forall j | 0 <= j < |t|
      ensures t[j].pop >= 0.0
    {
      var j' := if j < p then j else j - 1;
      assert j != p ==> t[j] == s[j'];
    }
  }

  lemma AddPopIndexed(s: State, k: Key, e: Edge, t: Tracked)
    requires Indexed(s) && e < |s.edges| && e in s.evict && k !in s.edges[e].objs
    ensures Indexed(s.(index := AddPop(s.index, k, e, t))) && k in AddPop(s.index, k, e, t)
  {
    var s' := s.(index := AddPop(s.index, k, e, t));
    var pops: Entries := if k in s.index then s.index[k].pops else [];
    forall k': Key, a: Edge
      ensures IndexAt(s', k', a)
    {
      assert IndexAt(s, k', a);
      if k' == k {
        P.UpdateHas(pops, e, t.pop, a);
      }
    }
    P.UpdateHas(pops, e, t.pop, e);
    UpdateNonneg(pops, e, t.pop);
  }

  lemma AggregateKeeps(c: Config, s: State, e: Edge, k: Key)
    requires Inv(c, s) && e < |s.edges| && e in s.evict
    ensures Inv(c, Aggregate(s, e, k))
    ensures k in s.edges[e].tracked ==> k in Aggregate(s, e, k).index
  {
    var s' := Aggregate(s, e, k);
    assert NodeOk(c, s, e);
    if k in s.edges[e].tracked {
      AddPopIndexed(s, k, e, s.edges[e].tracked[k]);
    } else {
      DropPopIndexed(s, k, e);
    }
    IndexOnly(c, s, s');
  }

  lemma IndexOnly(c: Config, s: State, s': State)
    requires Inv(c, s) && Indexed(s') && s' == s.(index := s'.index)
    ensures Inv(c, s')
  {
    forall a: Edge | a < |s'.edges|
      ensures NodeOk(c, s', a) && EvictAt(c, s', a)
    {
      assert NodeOk(c, s, a) && EvictAt(c, s, a);
    }
    forall a: Edge, k: Key | a < |s'.edges|
      ensures FlagOk(s', a, k)
    {
      assert FlagOk(s, a, k);
    }
  }

  // ---- Placement ------------------------------------------------------------------------------------

  /** Every recorded or fetched victim of an edge is cached there, hence in the directory. */
  lemma EdgeIsUsable(c: Config, s: State, e: Edge)
    requires Inv(c, s) && e < |s.edges|
    ensures EvictionCost.EdgeUsable(ContextOf(s), e)
  {
    var x := s.edges[e];
    assert NodeOk(c, s, e) && EvictAt(c, s, e);
    var all := ContextOf(s).all[e];
    assert all == Infos(x);
    forall i | 0 <= i < |all|
      ensures all[i].key in s.dir
    {
      assert x.rank[i] in Holds(s.edges)[e];
      assert e in Holders(s.dir, x.rank[i]);
    }
  }

  /** Edges that may be chosen for an object. */
  ghost predicate Candidate(s: State, k: Key, p: Edge) {
    p < |s.edges| && p in s.evict && k !in s.edges[p].objs
  }

  ghost predicate Candidates(s: State, k: Key, ps: seq<Edge>) {
    NoDup(ps) && forall i :: 0 <= i < |ps| ==> Candidate(s, k, ps[i])
  }

  lemma TopIsCandidates(c: Config, pi: Policy, s: State, k: Key)
    requires Inv(c, s) && k in s.index
    ensures Candidates(s, k, P.EdgesIn(ProblemOf(c, pi, s, k).top))
  {
    var top := ProblemOf(c, pi, s, k).top;
    var ps := P.EdgesIn(top);
    forall i | 0 <= i < |ps|
      ensures Candidate(s, k, ps[i])
    {
      assert top[i] == s.index[k].pops[i];
      assert P.HasEdge(s.index[k].pops, ps[i]);
      assert IndexAt(s, k, ps[i]);
    }
  }

  /** So the cost calculation never meets an edge without a record or a victim unknown to the directory. */
  lemma ProblemIsSolvable(c: Config, pi: Policy, s: State, k: Key)
    requires Inv(c, s) && k in s.index
    ensures Placement.Solvable(ProblemOf(c, pi, s, k))
    ensures forall p :: p in P.EdgesIn(ProblemOf(c, pi, s, k).top) ==> p in s.evict
  {
    TopIsCandidates(c, pi, s, k);
    var ps := P.EdgesIn(ProblemOf(c, pi, s, k).top);
    forall p | p in ps
      ensures EvictionCost.EdgeUsable(ContextOf(s), p) && p in s.evict
    {
      var i :| 0 <= i < |ps| && ps[i] == p;
      assert Candidate(s, k, p);
      EdgeIsUsable(c, s, p);
    }
  }

  /** Popularities are never negative, so the sums never fail their assertion. */
  lemma NoSumFails(p: Placement.Problem)
    requires Placement.Solvable(p)
    ensures !SumFails(p)
  {
    forall i: nat | i <= |p.top|
      ensures Placement.SumHolds(p.top, i)
    {
      Placement.SplitTotal(p.top, i);
    }
  }

  lemma PlaceKeeps(c: Config, pi: Policy, s: State, k: Key)
    requires Inv(c, s) && k in s.index && c.topk >= 1
    ensures !Place(c, pi, s, k).Failed?
    ensures Place(c, pi, s, k).Done? ==> Candidates(s, k, Place(c, pi, s, k).value)
  {
    TopIsCandidates(c, pi, s, k);
    var p := ProblemOf(c, pi, s, k);
    P.TopKSize(s.index[k].pops, c.topk);
    var ps := P.EdgesIn(p.top);
    ProblemIsSolvable(c, pi, s, k);
    NoSumFails(p);
    match Placement.Choose(p)
    case Place(edges) =>
      assert edges <= ps;
      assert forall i :: 0 <= i < |edges| ==> edges[i] == ps[i];
    case _ =>
  }

  /** A placement edge of a globally cached object always has another edge to be served by. */
  lemma OtherHolder(c: Config, s: State, k: Key, p: Edge, latency: Edge -> nat)
    requires Inv(c, s) && k in s.index && P.HasEdge(s.index[k].pops, p) && k in s.dir
    requires forall h :: h in s.dir[k] ==> latency(h) < Nearest.UINT32_MAX
    ensures exists h :: Nearest.Eligible(s.dir[k], {p}, latency, h)
  {
    assert IndexAt(s, k, p);
    NotAHolder(c, s, k, p);
    assert Nearest.Eligible(s.dir[k], {p}, latency, s.dir[k][0]);
  }

  /** So has the edge of a selected victim, exactly when not all holders give up their copies. */
  lemma Survivor(dir: Table, pairs: seq<EvictionCost.Pair>, i: nat, latency: Edge -> nat)
    requires i < |pairs| && pairs[i].info.key in dir
    requires forall h :: h in dir[pairs[i].info.key] ==> latency(h) < Nearest.UINT32_MAX
    ensures var k := pairs[i].info.key;
            var gone := EvictionCost.EdgesOf(pairs, k) + {pairs[i].edge};
            k !in EvictionCost.LastCopies(pairs, dir) <==> exists h :: Nearest.Eligible(dir[k], gone, latency, h)
  {
    var k := pairs[i].info.key;
    EvictionCost.LastCopiesIs(pairs, dir, k);
    var gone := EvictionCost.EdgesOf(pairs, k);
    assert gone + {pairs[i].edge} == gone;
    if h :| h in dir[k] && h !in gone {
      assert Nearest.Eligible(dir[k], gone, latency, h);
    }
  }

  // ---- Admission ------------------------------------------------------------------------------------

  lemma DropPopIndexed(s: State, k: Key, p: Edge)
    requires Indexed(s)
    ensures Indexed(s.(index := DropPop(s.index, k, p)))
    ensures k in DropPop(s.index, k, p) ==> !P.HasEdge(DropPop(s.index, k, p)[k].pops, p)
  {
    var s' := s.(index := DropPop(s.index, k, p));
    forall k': Key, a: Edge
      ensures IndexAt(s', k', a)
    {
      assert IndexAt(s, k', a);
      if k' == k && k in s.index {
        P.WithoutHas(s.index[k].pops, p, a);
      }
    }
    if k in s.index {
      P.WithoutHas(s.index[k].pops, p, p);
      WithoutNonneg(s.index[k].pops, p);
    }
  }

  lemma AdmittedCoherent(c: Config, pi: Policy, s: State, k: Key, v: Value, p: Edge)
    requires Inv(c, s) && Candidate(s, k, p)
    ensures Coherent(Holds(Admitted(pi, s, k, v, p).edges), Admitted(pi, s, k, v, p).dir)
  {
    var edges' := Admitted(pi, s, k, v, p).edges;
    var holds := Holds(s.edges);
    CoherentAdd(holds, s.dir, k, p);
    assert edges'[p].objs.Keys == s.edges[p].objs.Keys + {k};
    assert Holds(edges') == holds[p := holds[p] + {k}] by {
      forall a: Edge | a < |edges'|
        ensures Holds(edges')[a] == holds[p := holds[p] + {k}][a]
      {
        assert a != p ==> edges'[a] == s.edges[a];
      }
    }
  }

  lemma AdmittedQuiet(c: Config, pi: Policy, s: State, k: Key, v: Value, p: Edge)
    requires Inv(c, s) && Candidate(s, k, p) && Admissible(c.limits, k, v)
    ensures QuietBut(c, Admitted(pi, s, k, v, p), Some(p))
  {
    var s' := Admitted(pi, s, k, v, p);
    var x := s.edges[p];
    assert NodeOk(c, s, p);
    AdmitWf(x, k, v, k in s.dir, pi.admit(p, x), pi.grown(p, x), c.limits);
    AdmittedCoherent(c, pi, s, k, v, p);
    var s0 := s.(index := DropPop(s.index, k, p));
    DropPopIndexed(s, k, p);
    forall a: Edge | a < |s'.edges|
      ensures NodeOk(c, s', a)
    {
      assert NodeOk(c, s, a);
    }
    forall k': Key, a: Edge
      ensures IndexAt(s', k', a)
    {
      assert IndexAt(s0, k', a);
    }
    forall a: Edge | a < |s'.edges| && a != p
      ensures EvictAt(c, s', a)
    {
      assert EvictAt(c, s, a);
    }
  }

  /** Synchronisation after the admission succeeds, whether or not the victims changed. */
  lemma AdmittedSync(c: Config, pi: Policy, s: State, k: Key, v: Value, p: Edge) returns (s1: State)
    requires Inv(c, s) && Candidate(s, k, p) && Admissible(c.limits, k, v)
    ensures Sync(c, Admitted(pi, s, k, v, p), p, AdmitAffects(s.edges[p], k, pi.admit(p, s.edges[p]), c.synced)) ==
            Done(s1)
    ensures QuietBut(c, s1, None)
    ensures s1 == Admitted(pi, s, k, v, p).(evict := s1.evict) && s1.evict.Keys == s.evict.Keys
  {
    var x := s.edges[p];
    var m := pi.admit(p, x);
    var s0 := Admitted(pi, s, k, v, p);
    AdmittedQuiet(c, pi, s, k, v, p);
    assert NodeOk(c, s, p) && EvictAt(c, s, p);
    if AdmitAffects(x, k, m, c.synced) {
      s1 := SyncFull(c, s0, p);
      QuietRecord(c, s0, p, s1.evict[p]);
    } else {
      AdmitSynced(x, k, v, k in s.dir, m, pi.grown(p, x), c.synced, c.limits);
      s1 := s0.(evict := s0.evict[p := s0.evict[p].(margin := MarginOf(c, s0.edges[p]))]);
      QuietRecord(c, s0, p, s1.evict[p]);
    }
  }

  lemma EnableSpec(edges: seq<Node>, orig: seq<Edge>, k: Key, a: Edge)
    requires a < |edges|
    ensures SameButFlags(edges[a], Enable(edges, orig, k)[a])
    ensures forall j :: j in edges[a].objs ==>
              Enable(edges, orig, k)[a].objs[j].neighbor == (edges[a].objs[j].neighbor || (j == k && orig == [a]))
  {
  }

  /** Flags are right once the single previous holder has been told. */
  lemma FlagAfterAdmission(c: Config, pi: Policy, s: State, k: Key, v: Value, p: Edge, a: Edge, j: Key)
    requires Inv(c, s) && Candidate(s, k, p) && a < |s.edges|
    requires j in Admitted(pi, s, k, v, p).edges[a].objs
    ensures var s' := Admitted(pi, s, k, v, p);
            s'.edges[a].objs[j].neighbor || (j == k && Holders(s.dir, k) == [a]) <==> |Holders(s'.dir, j)| >= 2
  {
    var orig := Holders(s.dir, k);
    assert FlagOk(s, a, j);
    if j == k && a != p {
      assert k in Holds(s.edges)[a] && a in orig;
      SingleElement(orig, a);
    }
  }

  lemma NotAHolder(c: Config, s: State, k: Key, p: Edge)
    requires Inv(c, s) && p < |s.edges| && k !in s.edges[p].objs
    ensures p !in Holders(s.dir, k)
  {
    var held := k in Holds(s.edges)[p];
  }

  lemma IntroduceKeeps(c: Config, pi: Policy, s: State, k: Key, v: Value, p: Edge) returns (s': State)
    requires Inv(c, s) && Candidate(s, k, p) && Admissible(c.limits, k, v)
    ensures Introduce(c, pi, s, k, v, p) == Done(s')
    ensures Inv(c, s') && |s'.edges| == |s.edges| && s'.evict.Keys == s.evict.Keys
    ensures forall a: Edge :: a < |s.edges| && a != p ==> s'.edges[a].objs.Keys == s.edges[a].objs.Keys
  {
    var orig := Holders(s.dir, k);
    var s1 := AdmittedSync(c, pi, s, k, v, p);
    s' := s1.(edges := Enable(s1.edges, orig, k));
    forall a: Edge | a < |s1.edges|
      ensures SameButFlags(s1.edges[a], s'.edges[a])
    {
      EnableSpec(s1.edges, orig, k, a);
    }
    QuietNotify(c, s1, s'.edges);
    forall a: Edge, j: Key | a < |s'.edges|
      ensures FlagOk(s', a, j)
    {
      EnableSpec(s1.edges, orig, k, a);
      if j in s'.edges[a].objs {
        FlagAfterAdmission(c, pi, s, k, v, p, a, j);
      }
    }
  }

  lemma AdmitIntoIs(c: Config, pi: Policy, s: State, k: Key, v: Value, p: Edge) returns (s1: State)
    requires Inv(c, s) && Candidate(s, k, p) && Admissible(c.limits, k, v)
    ensures p !in Holders(s.dir, k)
    ensures Introduce(c, pi, s, k, v, p) == Done(s1) && AdmitInto(c, pi, s, k, v, p) == Settle(c, pi, s1, p)
    ensures Inv(c, s1) && |s1.edges| == |s.edges| && s1.evict.Keys == s.evict.Keys
    ensures forall a: Edge :: a < |s.edges| && a != p ==> s1.edges[a].objs.Keys == s.edges[a].objs.Keys
  {
    NotAHolder(c, s, k, p);
    s1 := IntroduceKeeps(c, pi, s, k, v, p);
  }

  /** Admission at a candidate takes effect, never the early return, and keeps the other candidates. */
  lemma AdmitIntoKeeps(c: Config, pi: Policy, s: State, k: Key, v: Value, p: Edge)
    requires Inv(c, s) && Candidate(s, k, p) && Admissible(c.limits, k, v)
    ensures p !in Holders(s.dir, k)
    ensures !AdmitInto(c, pi, s, k, v, p).Failed?
    ensures AdmitInto(c, pi, s, k, v, p).Done? ==>
              var s' := AdmitInto(c, pi, s, k, v, p).value;
              && Inv(c, s') && |s'.edges| == |s.edges|
              && forall a: Edge :: a != p && Candidate(s, k, a) ==> Candidate(s', k, a)
  {
    var s2 := AdmitIntoIs(c, pi, s, k, v, p);
    OpenHole(c, s2, p);
    SettleKeeps(c, pi, s2, p);
    if AdmitInto(c, pi, s, k, v, p).Done? {
      var s' := AdmitInto(c, pi, s, k, v, p).value;
      forall a: Edge | a != p && Candidate(s, k, a)
        ensures Candidate(s', k, a)
      {
        assert SameButFlags(s2.edges[a], s'.edges[a]);
        assert k !in s2.edges[a].objs.Keys;
        assert a in s2.evict.Keys;
      }
    }
  }

  lemma {:induction false} DeployKeeps(c: Config, pi: Policy, s: State, k: Key, v: Value, ps: seq<Edge>, n: nat)
    requires Inv(c, s) && Candidates(s, k, ps) && Admissible(c.limits, k, v) && n <= |ps|
    ensures !Deploy(c, pi, s, k, v, ps[..n]).Failed?
    ensures Deploy(c, pi, s, k, v, ps[..n]).Done? ==>
              var s' := Deploy(c, pi, s, k, v, ps[..n]).value;
              && Inv(c, s') && |s'.edges| == |s.edges|
              && forall i :: n <= i < |ps| ==> Candidate(s', k, ps[i])
  {
    if n > 0 {
      DeployKeeps(c, pi, s, k, v, ps, n - 1);
      assert ps[..n][..n - 1] == ps[..n - 1];
      var r := Deploy(c, pi, s, k, v, ps[..n - 1]);
      if r.Done? {
        AdmitIntoKeeps(c, pi, r.value, k, v, ps[n - 1]);
      }
    }
  }

  lemma DeployStep(c: Config, pi: Policy, s: State, k: Key, v: Value, ps: seq<Edge>, n: nat, s1: State)
    requires n < |ps| && Deploy(c, pi, s, k, v, ps[..n]) == Done(s1)
    ensures Deploy(c, pi, s, k, v, ps[..n + 1]) == AdmitInto(c, pi, s1, k, v, ps[n])
  {
    assert ps[..n + 1][..n] == ps[..n];
  }

  lemma DeployBefore(c: Config, pi: Policy, s: State, k: Key, v: Value, ps: seq<Edge>, n: nat) returns (s1: State)
    requires n < |ps| && Deploy(c, pi, s, k, v, ps[..n + 1]).Done?
    ensures Deploy(c, pi, s, k, v, ps[..n]) == Done(s1)
    ensures Deploy(c, pi, s, k, v, ps[..n + 1]) == AdmitInto(c, pi, s1, k, v, ps[n])
  {
    assert ps[..n + 1][..n] == ps[..n];
    s1 := Deploy(c, pi, s, k, v, ps[..n]).value;
  }

  lemma DeployFails(c: Config, pi: Policy, s: State, k: Key, v: Value, ps: seq<Edge>, e: Edge)
    requires !Deploy(c, pi, s, k, v, ps).Done?
    ensures Deploy(c, pi, s, k, v, ps + [e]) == Deploy(c, pi, s, k, v, ps)
  {
    assert (ps + [e])[..|ps|] == ps;
  }

  lemma {:induction false} DeployStops(c: Config, pi: Policy, s: State, k: Key, v: Value, ps: seq<Edge>, i: nat,
                                       r: Outcome<State>)
    requires i <= |ps| && Deploy(c, pi, s, k, v, ps[..i]) == r && !r.Done?
    ensures Deploy(c, pi, s, k, v, ps) == r
    decreases |ps| - i
  {
    if i == |ps| {
      assert ps[..i] == ps;
    } else {
      assert ps[..i + 1] == ps[..i] + [ps[i]];
      DeployFails(c, pi, s, k, v, ps[..i], ps[i]);
      DeployStops(c, pi, s, k, v, ps, i + 1, r);
    }
  }

  /** A deployment that goes through has gone through all the way. */
  lemma DeployedSoFar(c: Config, pi: Policy, s: State, k: Key, v: Value, ps: seq<Edge>, i: nat)
    requires i <= |ps| && Deploy(c, pi, s, k, v, ps).Done?
    ensures Deploy(c, pi, s, k, v, ps[..i]).Done?
  {
    if !Deploy(c, pi, s, k, v, ps[..i]).Done? {
      DeployStops(c, pi, s, k, v, ps, i, Deploy(c, pi, s, k, v, ps[..i]));
    }
  }

  lemma ArrangeCandidates(s: State, k: Key, ps: seq<Edge>, qs: seq<Edge>)
    requires Candidates(s, k, ps) && multiset(ps) == multiset(qs)
    ensures Candidates(s, k, qs)
  {
    forall i | 0 <= i < |qs|
      ensures Candidate(s, k, qs[i])
    {
      assert qs[i] in multiset(ps);
    }
    forall i, j | 0 <= i < j < |qs|
      ensures qs[i] != qs[j]
    {
      if qs[i] == qs[j] {
        CountTwo(qs, i, j);
        NoDupMultiset(ps);
      }
    }
  }

  lemma CountTwo(s: seq<Edge>, i: nat, j: nat)
    requires i < j < |s| && s[i] == s[j]
    ensures multiset(s)[s[i]] >= 2
  {
    assert s == s[..j] + s[j..];
    assert s[i] == s[..j][i] && s[j] == s[j..][0];
  }

  lemma ManageKeeps(c: Config, pi: Policy, s: State, e: Edge, k: Key, v: Value)
    requires Inv(c, s) && e < |s.edges| && e in s.evict && c.topk >= 1
    requires k in s.edges[e].tracked ==> Admissible(c.limits, k, v)
    ensures !Manage(c, pi, s, e, k, v).Failed?
    ensures Manage(c, pi, s, e, k, v).Done? ==>
              Inv(c, Manage(c, pi, s, e, k, v).value) && |Manage(c, pi, s, e, k, v).value.edges| == |s.edges|
  {
    var s1 := Aggregate(s, e, k);
    AggregateKeeps(c, s, e, k);
    if k in s.edges[e].tracked {
      PlaceKeeps(c, pi, s1, k);
      var r := Place(c, pi, s1, k);
      if r.Done? {
        var qs := Arrange(pi, r.value);
        ArrangeCandidates(s1, k, r.value, qs);
        DeployKeeps(c, pi, s1, k, v, qs, |qs|);
        assert qs[..|qs|] == qs;
      }
    }
  }

  // ---- Requests -------------------------------------------------------------------------------------

  lemma FinishKeeps(c: Config, pi: Policy, s: State, e: Edge, k: Key, v: Value)
    requires Inv(c, s) && e < |s.edges| && c.topk >= 1 && (v.deleted ==> c.limits.deletes)
    ensures Finish(c, pi, s, e, k, v, false).Failed? <==> v.deleted && e !in s.evict
    ensures Finish(c, pi, s, e, k, v, false).Done? ==>
              var s' := Finish(c, pi, s, e, k, v, false).value; Inv(c, s') && |s'.edges| == |s.edges|
  {
    ValidateKeeps(c, pi, s, e, k, v);
    var s1 := Validate(c, pi, s, e, k, v);
    if s1.Done? {
      ManageKeeps(c, pi, s1.value, e, k, v);
    }
  }

  /** The redirection target, if there is one, has a valid copy. */
  lemma TargetHolds(c: Config, pi: Policy, s: State, e: Edge, k: Key) returns (t: Edge)
    requires Inv(c, s) && e < |s.edges| && k !in s.edges[e].objs
    ensures Minus(Holders(s.dir, k), e) == [] <==> k !in s.dir
    ensures k in s.dir ==>
              var others := Minus(Holders(s.dir, k), e);
              && t == others[pi.pick % |others|] && t < |s.edges| && t != e
              && NodeOk(c, s, t) && Hit(s, t, k) && t in s.evict
  {
    var others := Minus(Holders(s.dir, k), e);
    MinusSpec(Holders(s.dir, k), e);
    NotAHolder(c, s, k, e);
    t := e;
    if k in s.dir {
      t := others[pi.pick % |others|];
      assert t in others && t in Holders(s.dir, k);
      assert k in Holds(s.edges)[t];
      assert NodeOk(c, s, t) && EvictAt(c, s, t);
    }
  }

  lemma RemoteKeeps(c: Config, pi: Policy, s: State, e: Edge, k: Key, cloud: Value) returns (r: Reply, at: Edge)
    requires Inv(c, s) && e < |s.edges| && k !in s.edges[e].objs
    ensures Remote(c, pi, s, e, k, cloud) == Done(r)
    ensures Inv(c, r.state) && |r.state.edges| == |s.edges| && (e in r.state.evict <==> e in s.evict)
    ensures r.hit == if k in s.dir then CooperativeHit else GlobalMiss
    ensures r.hit == GlobalMiss ==> r.value == cloud
    ensures r.hit == CooperativeHit ==>
              at < |s.edges| && at != e && k in s.edges[at].objs && r.value == s.edges[at].objs[k].value
    ensures r.hit == CooperativeHit ==> Admissible(c.limits, k, r.value)
  {
    at := TargetHolds(c, pi, s, e, k);
    if k in s.dir {
      assert NodeOk(c, s, at);
      TouchAtKeeps(c, pi, s, at, k);
      r := Reply(TouchAt(c, pi, s, at, k), CooperativeHit, ValueOf(s.edges[at], k));
    } else {
      r := Reply(s, GlobalMiss, cloud);
    }
  }

  /** The lookup hands out a copy exactly when some edge has one. */
  lemma LookupKeeps(c: Config, pi: Policy, s: State, e: Edge, k: Key, cloud: Value) returns (r: Reply, at: Edge)
    requires Inv(c, s) && e < |s.edges|
    ensures Lookup(c, pi, s, e, k, cloud) == Done(r)
    ensures Inv(c, r.state) && |r.state.edges| == |s.edges| && (e in r.state.evict <==> e in s.evict)
    ensures r.hit == LocalHit <==> k in s.edges[e].objs
    ensures r.hit == GlobalMiss <==> k !in s.dir
    ensures r.hit == GlobalMiss ==> r.value == cloud
    ensures r.hit != GlobalMiss ==> at < |s.edges| && k in s.edges[at].objs && r.value == s.edges[at].objs[k].value
    ensures r.value == cloud || Admissible(c.limits, k, r.value)
  {
    assert NodeOk(c, s, e);
    AccessKeeps(c, pi, s, e, k);
    var s1 := Access(c, pi, s, e, k);
    if k in s.edges[e].objs {
      at := e;
      r := Reply(s1, LocalHit, ValueOf(s.edges[e], k));
      assert k in Holds(s.edges)[e] && e in Holders(s.dir, k);
    } else {
      r, at := RemoteKeeps(c, pi, s1, e, k, cloud);
    }
  }

  /**
   A GET never fails an assertion, but for the margin update when a deleted value is fetched at an edge without a
   record; it is a global miss exactly when no edge caches the object, and it keeps the invariant.
   */
  lemma GetTheorem(c: Config, pi: Policy, s: State, e: Edge, k: Key, cloud: Value)
    requires Inv(c, s) && e < |s.edges| && c.topk >= 1 && (cloud.deleted ==> c.limits.deletes)
    ensures Lookup(c, pi, s, e, k, cloud).Done?
    ensures Get(c, pi, s, e, k, cloud).Failed? <==>
            Lookup(c, pi, s, e, k, cloud).value.value.deleted && e !in s.evict
    ensures Get(c, pi, s, e, k, cloud).Done? ==>
              var r := Get(c, pi, s, e, k, cloud).value;
              && Inv(c, r.state) && |r.state.edges| == |s.edges|
              && (r.hit == LocalHit <==> k in s.edges[e].objs)
              && (r.hit == GlobalMiss <==> k !in s.dir)
              && (r.hit == GlobalMiss ==> r.value == cloud)
              && (r.hit != GlobalMiss ==>
                   exists a: Edge :: a < |s.edges| && k in s.edges[a].objs && r.value == s.edges[a].objs[k].value)
  {
    var r, at := LookupKeeps(c, pi, s, e, k, cloud);
    FinishKeeps(c, pi, r.state, e, k, r.value);
  }

  /** The directory knows a key exactly when some edge caches it. */
  lemma DirectoryIsCaches(c: Config, s: State, k: Key)
    requires Inv(c, s)
    ensures k in s.dir <==> exists a: Edge :: a < |s.edges| && k in s.edges[a].objs
  {
    if k in s.dir {
      var a := s.dir[k][0];
      assert a in Holders(s.dir, k);
      assert k in Holds(s.edges)[a];
    }
    forall a: Edge | a < |s.edges|
      ensures k in s.edges[a].objs ==> a in Holders(s.dir, k)
    {
      assert k in Holds(s.edges)[a] <==> k in s.edges[a].objs;
    }
  }

  // ---- Writes ---------------------------------------------------------------------------------------

  /** A key leaves the directory when the only edge that holds it evicts it. */
  lemma EvictedDirectory(c: Config, pi: Policy, s: State, e: Edge, m: nat, k: Key)
    requires InvBut(c, s, Some(e)) && e < |s.edges| && m <= |s.edges[e].rank| && k in s.dir
    ensures k !in Evicted(pi, s, e, m).dir <==> Holders(s.dir, k) == [e] && k in s.edges[e].rank[..m]
  {
    var keys := s.edges[e].rank[..m];
    var l := Holders(s.dir, k);
    assert NodeOk(c, s, e);
    ShrunkWf(s.edges[e], m, pi.left(e), c.limits);
    RemoveAllHolders(s.dir, keys, e, k);
    MinusSpec(l, e);
    assert k in Evicted(pi, s, e, m).dir <==> Holders(Evicted(pi, s, e, m).dir, k) != [];
    if k in keys {
      assert k in Holds(s.edges)[e] && e in l;
      SingleElement(l, e);
    }
  }

  /** The edge is the only holder and what is ranked before the key does not cover the edge's excess. */
  ghost predicate LosesLastCopy(c: Config, s: State, e: Edge, k: Key)
    requires e < |s.edges|
  {
    var x := s.edges[e];
    && Holders(s.dir, k) == [e] && k in x.rank && x.meta <= c.limits.capacity
    && Bytes(Infos(x)[..Pos(x.rank, k)]) + c.limits.capacity < Used(x)
  }

  lemma InPrefix(s: seq<Key>, k: Key, m: nat)
    requires NoDup(s) && k in s && m <= |s|
    ensures k in s[..m] <==> Pos(s, k) < m
  {
    var i := Pos(s, k);
    if i < m {
      assert s[..m][i] == k;
    }
  }

  lemma AmongVictims(x: Node, k: Key, capacity: nat)
    requires NoDup(x.rank) && x.meta <= capacity
    ensures EvictCount(x, capacity).Some?
    ensures k in x.rank[..EvictCount(x, capacity).value] <==>
            k in x.rank && Bytes(Infos(x)[..Pos(x.rank, k)]) + capacity < Used(x)
  {
    EvictCountExists(x, capacity);
    var m := EvictCount(x, capacity).value;
    if k in x.rank {
      InPrefix(x.rank, k, m);
      EvictedIff(x, capacity, Pos(x.rank, k));
    }
  }

  lemma SettleDirectory(c: Config, pi: Policy, s: State, e: Edge, k: Key)
    requires InvBut(c, s, Some(e)) && e < |s.edges| && k in s.dir && Settle(c, pi, s, e).Done?
    ensures k !in Settle(c, pi, s, e).value.dir <==> LosesLastCopy(c, s, e, k)
  {
    var x := s.edges[e];
    assert NodeOk(c, s, e);
    EvictCountExists(x, c.limits.capacity);
    AmongVictims(x, k, c.limits.capacity);
    var m := EvictCount(x, c.limits.capacity).value;
    EvictedDirectory(c, pi, s, e, m, k);
  }

  lemma ValidateDirectory(c: Config, pi: Policy, s: State, e: Edge, k: Key, v: Value)
    requires Inv(c, s) && e < |s.edges| && Validate(c, pi, s, e, k, v).Done? && k in s.dir
    ensures k !in Validate(c, pi, s, e, k, v).value.dir <==> !v.deleted && LosesLastCopy(c, s, e, k)
  {
    var x := Refresh(c, pi, s.edges[e], e, k, v).0;
    var s1 := Replace(s, e, x);
    RefreshKeeps(c, pi, s, e, k, v);
    if !v.deleted {
      OpenHole(c, s1, e);
      SettleDirectory(c, pi, s1, e, k);
      LosesRefreshed(c, pi, s, e, k, v);
    }
    var s2 := if v.deleted then Done(s1) else Settle(c, pi, s1, e);
    assert Validate(c, pi, s, e, k, v).value.dir == s2.value.dir;
  }

  lemma LosesRefreshed(c: Config, pi: Policy, s: State, e: Edge, k: Key, v: Value)
    requires Inv(c, s) && e < |s.edges|
    ensures var s1 := Replace(s, e, Refresh(c, pi, s.edges[e], e, k, v).0);
            && (LosesLastCopy(c, s1, e, k) <==> LosesLastCopy(c, s, e, k))
            && (LosesLastCopy(c, s, e, k) ==> s1 == s)
  {
    assert NodeOk(c, s, e);
    if k !in s.edges[e].objs {
      NotAHolder(c, s, k, e);
    } else {
      assert Replace(s, e, s.edges[e]) == s;
    }
  }

  /**
   A write fails exactly when the directory does not know the key, when validation evicts the last copy of it, or when
   a deleted value meets an edge without a record; otherwise it keeps the invariant.
   */
  lemma WriteTheorem(c: Config, pi: Policy, s: State, e: Edge, k: Key, v: Value)
    requires Inv(c, s) && e < |s.edges| && c.topk >= 1 && (v.deleted ==> c.limits.deletes)
    ensures Write(c, pi, s, e, k, v) == Failed(NoDirectoryEntry) <==>
            k !in s.dir || (!v.deleted && LosesLastCopy(c, s, e, k))
    ensures Write(c, pi, s, e, k, v) == Failed(NoEvictInfo) <==> k in s.dir && v.deleted && e !in s.evict
    ensures Write(c, pi, s, e, k, v).Failed? ==>
              Write(c, pi, s, e, k, v).why == NoEvictInfo || Write(c, pi, s, e, k, v).why == NoDirectoryEntry
    ensures Write(c, pi, s, e, k, v).Done? ==>
              Inv(c, Write(c, pi, s, e, k, v).value) && |Write(c, pi, s, e, k, v).value.edges| == |s.edges|
  {
    ValidateKeeps(c, pi, s, e, k, v);
    LosesRefreshed(c, pi, s, e, k, v);
    EvictCountExists(s.edges[e], c.limits.capacity);
    var s1 := Validate(c, pi, s, e, k, v);
    if s1.Done? {
      ManageKeeps(c, pi, s1.value, e, k, v);
      if k in s.dir {
        ValidateDirectory(c, pi, s, e, k, v);
      }
    }
  }

  lemma WriteIsFinish(c: Config, pi: Policy, s: State, e: Edge, k: Key, v: Value)
    requires Inv(c, s) && e < |s.edges| && k in s.dir && (v.deleted || !LosesLastCopy(c, s, e, k))
    ensures Write(c, pi, s, e, k, v) == Finish(c, pi, s, e, k, v, false)
  {
    if Validate(c, pi, s, e, k, v).Done? {
      ValidateDirectory(c, pi, s, e, k, v);
    }
  }
}
