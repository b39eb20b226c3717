/** The simulator as the program keeps it: edge cache objects, the directory object and the victim-time index. */
module BestGuessSimulator {
  import opened Types
  import opened Directory
  import opened BestGuessSim
  import opened BestGuessRuns
  import Lru
  import Spec = Wrapper
  import CacheWrapper
  import LocalCache

  ghost predicate Matches(w: CacheWrapper.Wrapper, state: Spec.State)
    reads w, w.local
  {
    w.Valid() && w.View() == state
  }

  /** The loop that started at `w` has reached `now` after taking these victims. */
  ghost predicate LoopFrom(w: Spec.State, now: Spec.State, overhead: nat, victims: seq<Key>) {
    && EvictLoop(w, overhead).Some? && EvictLoop(now, overhead).Some?
    && EvictLoop(w, overhead).value.0 == EvictLoop(now, overhead).value.0
    && EvictLoop(w, overhead).value.1 == victims + EvictLoop(now, overhead).value.1
  }

  lemma LoopStart(w: Spec.State, overhead: nat)
    requires EdgeOk(w, overhead)
    ensures LoopFrom(w, w, overhead, [])
  {
    EvictLoopOk(w, overhead);
    assert [] + EvictLoop(w, overhead).value.1 == EvictLoop(w, overhead).value.1;
  }

  lemma LoopEnd(w: Spec.State, now: Spec.State, overhead: nat, victims: seq<Key>)
    requires LoopFrom(w, now, overhead, victims) && Fits(now, overhead)
    ensures EvictLoop(w, overhead) == Some((now, victims))
  {
    assert EvictLoop(now, overhead) == Some((now, []));
    assert victims + [] == victims;
    var r := EvictLoop(w, overhead).value;
    assert r.0 == now && r.1 == victims;
  }

  lemma LoopStep(w: Spec.State, now: Spec.State, overhead: nat, victims: seq<Key>)
    requires LoopFrom(w, now, overhead, victims) && EdgeOk(now, overhead) && !Fits(now, overhead)
    ensures now.cache.items != [] && Spec.Evict(now).Some? && EdgeOk(Spec.Evict(now).value, overhead)
    ensures LoopFrom(w, Spec.Evict(now).value, overhead, victims + [Lru.Tail(now.cache)])
    ensures |Spec.Evict(now).value.cache.items| < |now.cache.items|
  {
    EvictOnce(now, overhead);
    var next := Spec.Evict(now).value;
    assert EvictLoop(next, overhead).Some?;
    var rest := EvictLoop(next, overhead).value.1;
    assert victims + ([Lru.Tail(now.cache)] + rest) == (victims + [Lru.Tail(now.cache)]) + rest;
  }

  /** One iteration: either the edge fits, or its victim goes. */
  method EvictIfOver(edge: CacheWrapper.Wrapper, overhead: nat) returns (victim: Option<Key>)
    requires edge.Valid() && EdgeOk(edge.View(), overhead)
    modifies edge, edge.local
    ensures edge.Valid() && EdgeOk(edge.View(), overhead)
    ensures victim.None? <==> Fits(old(edge.View()), overhead)
    ensures victim.None? ==> edge.View() == old(edge.View())
    ensures victim.Some? ==> old(edge.View()).cache.items != [] && victim.value == Lru.Tail(old(edge.View()).cache)
    ensures victim.Some? ==> Spec.Evict(old(edge.View())) == Some(edge.View())
  {
    var used := edge.GetSizeForCapacity();
    if used + overhead <= edge.local.capacity {
      return None;
    }
    EvictOnce(edge.View(), overhead);
    var evicted := edge.Evict();
    assert evicted.Some?;
    victim := Some(evicted.value.0);
  }

  /** Evicts until the edge is within capacity; the loop never meets the exit on an empty cache. */
  method EvictToFit(edge: CacheWrapper.Wrapper, overhead: nat) returns (victims: seq<Key>)
    requires edge.Valid() && EdgeOk(edge.View(), overhead)
    modifies edge, edge.local
    ensures edge.Valid() && EvictLoop(old(edge.View()), overhead) == Some((edge.View(), victims))
  {
    ghost var w := edge.View();
    ghost var now := w;
    LoopStart(w, overhead);
    victims := [];
    while true
      invariant Matches(edge, now) && EdgeOk(now, overhead)
      invariant LoopFrom(w, now, overhead, victims)
      decreases |now.cache.items|
    {
      var victim := EvictIfOver(edge, overhead);
      if victim.None? {
        break;
      }
      LoopStep(w, now, overhead, victims);
      now := Spec.Evict(now).value;
      victims := victims + [victim.value];
    }
    LoopEnd(w, now, overhead, victims);
  }

  class Simulator {
    const edges: seq<CacheWrapper.Wrapper>
    const directory: PerkeyGlobalCachedObjinfo
    const overhead: seq<nat>
    var vtimes: map<Edge, nat>
    ghost var sim: Sim

    ghost function Locals(): set<LocalCache.BestGuessLocalCache> {
      set w | w in edges :: w.local
    }

    /** Edge caches are separate objects, and the abstract state is what the objects hold. */
    ghost predicate Valid()
      reads this, directory, edges, Locals()
    {
      && |sim.edges| == |edges| == |overhead|
      && (forall i, j :: 0 <= i < j < |edges| ==> edges[i] != edges[j] && edges[i].local != edges[j].local)
      && (forall i {:trigger Matches(edges[i], sim.edges[i])} :: 0 <= i < |edges| ==> Matches(edges[i], sim.edges[i]))
      && directory.Valid()
      && sim.dir == directory.table && sim.vtimes == vtimes && sim.overhead == overhead
    }

    constructor (edges: seq<CacheWrapper.Wrapper>, capacity: nat, overhead: seq<nat>)
      requires |edges| == |overhead| && forall e :: 0 <= e < |overhead| ==> overhead[e] <= capacity
      requires forall i, j :: 0 <= i < j < |edges| ==> edges[i] != edges[j] && edges[i].local != edges[j].local
      requires forall i :: 0 <= i < |edges| ==> edges[i].Valid() && edges[i].View() == Spec.Init(capacity)
      ensures Valid() && SimInv(sim) && sim == BestGuessSim.Init(capacity, overhead)
      ensures this.edges == edges && this.overhead == overhead && fresh(directory)
    {
      this.edges := edges;
      this.overhead := overhead;
      directory := new PerkeyGlobalCachedObjinfo();
      vtimes := map[];
      sim := BestGuessSim.Init(capacity, overhead);
      new;
      InitInv(capacity, overhead);
    }

    method SyncVtime(e: Edge)
      requires Valid() && e < |edges|
      modifies this
      ensures Valid() && sim == Sync(old(sim), e)
    {
      assert Matches(edges[e], sim.edges[e]);
      var t := edges[e].local.GetLocalVictimVtime();
      vtimes := vtimes[e := t];
      sim := Sync(sim, e);
    }

    /** The abstract state follows one edge object; the other objects did not change. */
    ghost method SetAbstract(e: Edge, w: Spec.State)
      requires |sim.edges| == |edges| == |overhead| && e < |edges|
      requires forall i, j :: 0 <= i < j < |edges| ==> edges[i] != edges[j] && edges[i].local != edges[j].local
      requires forall i {:trigger Matches(edges[i], sim.edges[i])} ::
                 0 <= i < |edges| && i != e ==> Matches(edges[i], sim.edges[i])
      requires Matches(edges[e], w) && directory.Valid()
      requires sim.dir == directory.table && sim.vtimes == vtimes && sim.overhead == overhead
      modifies this`sim
      ensures Valid() && sim == SetEdge(old(sim), e, w)
    {
      ghost var before := sim;
      sim := SetEdge(sim, e, w);
      forall i | 0 <= i < |edges|
        ensures Matches(edges[i], sim.edges[i])
      {
        if i != e {
          assert Matches(edges[i], before.edges[i]);
        }
      }
    }

    /** Accesses an edge cache and records its victim time. */
    method AccessEdge(e: Edge, k: Key) returns (hit: bool, v: Value)
      requires Valid() && e < |edges|
      modifies this, edges[e].local
      ensures Valid() && sim == Access(old(sim), e, k)
      ensures hit <==> Spec.Visible(old(sim).edges[e], k).Some?
      ensures hit ==> Some(v) == Spec.Visible(old(sim).edges[e], k)
    {
      assert Matches(edges[e], sim.edges[e]);
      hit, v := edges[e].Get(k);
      SetAbstract(e, Spec.Get(sim.edges[e], k));
      SyncVtime(e);
    }

    /** Evicts from an edge until it is within capacity. */
    method EvictEdge(e: Edge) returns (victims: seq<Key>)
      requires Valid() && e < |edges| && EdgeOk(sim.edges[e], overhead[e])
      modifies this, edges[e], edges[e].local
      ensures Valid() && EvictLoop(old(sim).edges[e], overhead[e]).Some?
      ensures EvictLoop(old(sim).edges[e], overhead[e]).value.1 == victims
      ensures sim == SetEdge(old(sim), e, EvictLoop(old(sim).edges[e], overhead[e]).value.0)
    {
      ghost var s := sim;
      assert Matches(edges[e], s.edges[e]);
      victims := EvictToFit(edges[e], overhead[e]);
      SetAbstract(e, edges[e].View());
    }

    /** Then takes the victims off the directory. */
    method Evict(e: Edge) returns (victimCnt: nat)
      requires Valid() && e < |edges| && EdgeOk(sim.edges[e], overhead[e])
      modifies this, directory, edges[e], edges[e].local
      ensures Valid() && EvictForCapacity(old(sim), e) == Some(sim)
      ensures victimCnt == |EvictLoop(old(sim).edges[e], overhead[e]).value.1|
    {
      var victims := EvictEdge(e);
      RemoveVictims(directory, victims, e);
      sim := sim.(dir := directory.table);
      victimCnt := |victims|;
      SyncVtime(e);
    }

    /** Writes a fetched value where the closest edge holds the key invalid, then evicts if it was not a removal. */
    method ValidateEdge(e: Edge, k: Key, v: Value, deleted: bool)
      requires Valid() && e < |edges| && EdgeOk(sim.edges[e], overhead[e])
      modifies this, directory, edges[e], edges[e].local
      ensures Valid() && Validate(old(sim), e, k, v, deleted) == Some(sim)
    {
      ghost var w := sim.edges[e];
      var written := if deleted then DELETED else v;
      UpdateEdge(w, overhead[e], k, written);
      assert Matches(edges[e], w);
      var _ := edges[e].UpdateIfInvalidForGetrsp(k, written);
      SetAbstract(e, Spec.UpdateIfInvalid(w, k, written));
      if !deleted {
        var _ := Evict(e);
      }
      SyncVtime(e);
    }

    /** Admits an object into its placement edge unless the directory already lists that edge for the key. */
    method AdmitIntoEdge(p: Edge, k: Key, v: Value, beacon: Edge)
      requires Valid() && p < |edges| && EdgeOk(sim.edges[p], overhead[p])
      requires ValidObjsize(sim.edges[p].capacity, k, v)
      requires p !in Holders(sim.dir, k) ==> k !in Lru.Keys(sim.edges[p].cache)
      modifies this, directory, edges[p], edges[p].local
      ensures Valid() && AdmitInto(old(sim), p, k, v, beacon) == Some(sim)
    {
      var _, original := directory.GetEdgeNodeIdxes(k);
      for i := 0 to |original|
        invariant forall j :: 0 <= j < i ==> original[j] != p
      {
        if original[i] == p {
          return;
        }
      }
      AdmitFresh(p, k, v, beacon);
      var _ := Evict(p);
    }

    method AdmitFresh(p: Edge, k: Key, v: Value, beacon: Edge)
      requires Valid() && p < |edges| && EdgeOk(sim.edges[p], overhead[p])
      requires ValidObjsize(sim.edges[p].capacity, k, v)
      requires p !in Holders(sim.dir, k) && k !in Lru.Keys(sim.edges[p].cache)
      modifies this, directory, edges[p], edges[p].local
      ensures Valid() && EdgeOk(sim.edges[p], overhead[p])
      ensures var s := old(sim);
              sim == Sync(SetEdge(s, p, Spec.Admit(s.edges[p], k, v, true, Some(beacon))).(dir := Add(s.dir, k, p)), p)
    {
      ghost var w := sim.edges[p];
      AdmitEdge(w, overhead[p], k, v, beacon);
      assert Matches(edges[p], w);
      edges[p].Admit(k, v, true, Some(beacon));
      SetAbstract(p, Spec.Admit(w, k, v, true, Some(beacon)));
      directory.AddEdgeNode(k, p);
      sim := sim.(dir := directory.table);
      SyncVtime(p);
    }

    /** A random other edge among those the directory lists. */
    method ContentDiscovery(e: Edge, k: Key, pick: nat) returns (target: Option<Edge>)
      requires Valid()
      ensures target == Discover(sim, e, k, pick)
    {
      var exists_, l := directory.GetEdgeNodeIdxes(k);
      var i := 0;
      while i < |l| && l[i] != e
        invariant i <= |l| && forall j :: 0 <= j < i ==> l[j] != e
      {
        i := i + 1;
      }
      if i < |l| {
        l := l[..i] + l[i + 1..];
      }
      assert l == Minus(Holders(sim.dir, k), e) by {
        assert exists_ ==> NoDup(directory.table[k]);
      }
      target := if |l| == 0 then None else Some(l[pick % |l|]);
    }

    /** The first smallest entry of the victim-time index in iteration order. */
    method GetEdgeidxWithSmallestVtime(order: seq<Edge>) returns (placement: Edge)
      requires Valid() && order != [] && forall x :: x in order ==> x in vtimes
      ensures placement == Smallest(vtimes, order)
    {
      placement := order[0];
      assert order[..1] == [order[0]];
      for i := 1 to |order|
        invariant placement == Smallest(vtimes, order[..i])
      {
        assert order[..i + 1][..i] == order[..i];
        if vtimes[placement] > vtimes[order[i]] {
          placement := order[i];
        }
      }
      assert order[..|order|] == order;
    }

    /** Local access, content discovery and redirection; the redirected access always hits. */
    method LookupValue(r: Request) returns (hit: Hitflag, v: Value)
      requires Valid() && r.closest < |edges| && Lookup(sim, r).Some?
      modifies this, Locals()
      ensures Valid() && Lookup(old(sim), r) == Some(Outcome(sim, hit, v))
    {
      ghost var s := sim;
      assert edges[r.closest].local in Locals();
      var localHit;
      localHit, v := AccessEdge(r.closest, r.k);
      if localHit {
        hit := LocalHit;
      } else {
        var target := ContentDiscovery(r.closest, r.k, r.pick);
        if target.Some? {
          assert target.value < |edges|;
          assert edges[target.value].local in Locals();
          var cooperativeHit;
          cooperativeHit, v := AccessEdge(target.value, r.k);
          assert cooperativeHit;
          hit := CooperativeHit;
        } else {
          hit, v := GlobalMiss, r.v;
        }
      }
    }

    /** A globally missed object is admitted into the edge with the oldest victim. */
    method TriggerCacheManagement(r: Request, hit: Hitflag, v: Value)
      requires Valid() && SimInv(sim)
      requires hit == GlobalMiss ==> Placeable(sim, r) && v == r.v
      modifies this, directory, edges, Locals()
      ensures Valid() && Manage(old(sim), r, hit, v) == Some(Outcome(sim, hit, v))
    {
      if hit == GlobalMiss {
        assert r.closest in Elems(r.order);
        assert forall x :: x in r.order ==> x in Elems(r.order);
        var p := GetEdgeidxWithSmallestVtime(r.order);
        ghost var q := InRange(sim, r.order, r.closest);
        assert edges[p] in edges && edges[p].local in Locals();
        assert EdgeOk(sim.edges[p], sim.overhead[p]);
        assert p !in Holders(sim.dir, r.k) && r.k !in Lru.Keys(sim.edges[p].cache) by {
          OnlyHolder(sim, r.k, p);
        }
        AdmitIntoEdge(p, r.k, v, r.beacon);
      }
    }

    method ProcessGetRequest(r: Request) returns (hit: Hitflag, v: Value)
      requires Valid() && SimInv(sim) && LegalRequest(sim, r) && r.kind == GetRequest
      modifies this, directory, edges, Locals()
      ensures Valid() && SimInv(sim) && Process(old(sim), r) == Some(Outcome(sim, hit, v))
    {
      ghost var s := sim;
      if r.k in s.dir {
        ghost var found, s' := HitPlan(s, r);
      } else {
        ghost var found, s', o := MissPlan(s, r);
      }
      ghost var found := Lookup(s, r).value;
      assert edges[r.closest] in edges && edges[r.closest].local in Locals();
      hit, v := LookupValue(r);
      assert EdgeOk(found.sim.edges[r.closest], found.sim.overhead[r.closest]);
      ValidateEdge(r.closest, r.k, v, v.deleted);
      TriggerCacheManagement(r, hit, v);
    }

    /** The local write of a put or a removal; the directory still knows the key afterwards. */
    method WriteClosestCache(r: Request, v: Value)
      requires Valid() && SimInv(sim) && r.closest < |edges|
      modifies this, directory, edges[r.closest], edges[r.closest].local
      ensures Valid() && SimInv(sim) && Validate(old(sim), r.closest, r.k, v, r.kind == DelRequest) == Some(sim)
      ensures sim.dir == old(sim).dir
    {
      ghost var s' := Validated(sim, r.closest, r.k, v, r.kind == DelRequest);
      assert EdgeOk(sim.edges[r.closest], sim.overhead[r.closest]);
      ValidateEdge(r.closest, r.k, v, r.kind == DelRequest);
    }

    /** Both directory lookups of a write find the key; nothing that is cached changes. */
    method ProcessWriteRequest(r: Request) returns (hit: Hitflag, v: Value)
      requires Valid() && SimInv(sim) && LegalRequest(sim, r) && r.kind != GetRequest
      modifies this, directory, edges, Locals()
      ensures Valid() && SimInv(sim) && Process(old(sim), r) == Some(Outcome(sim, hit, v))
    {
      ghost var s := sim;
      hit, v := CooperativeHit, if r.kind == DelRequest then DELETED else r.v;
      var _ := directory.IsNeighborCached(r.k, r.closest);
      assert edges[r.closest] in edges && edges[r.closest].local in Locals();
      WriteClosestCache(r, v);
      WritePhases(s, r, v, sim);
      var _ := directory.IsNeighborCached(r.k, r.closest);
      TriggerCacheManagement(r, hit, v);
    }
  }
}
