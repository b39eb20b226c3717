/** What every request of a BestGuess run keeps, and what follows for whole runs. */
module BestGuessRuns {
  import opened Types
  import opened Directory
  import opened Wrapper
  import opened BestGuessSim
  import Lru

  ghost function Holds(edges: seq<State>): (h: seq<set<Key>>)
    ensures |h| == |edges|
    ensures forall e :: 0 <= e < |edges| ==> h[e] == Lru.Keys(edges[e].cache)
  {
    seq(|edges|, e requires 0 <= e < |edges| => Lru.Keys(edges[e].cache))
  }

  /** A recorded victim time is the true one, and an edge without a record has an empty cache. */
  ghost predicate VtimeAt(s: Sim, e: Edge)
    requires e < |s.edges|
  {
    if e in s.vtimes then s.vtimes[e] == Lru.VictimVtime(s.edges[e].cache) else s.edges[e].cache.items == []
  }

  /** The directory agrees with the caches and no key is cached twice. */
  ghost predicate Core(s: Sim) {
    && |s.overhead| == |s.edges|
    && (forall e: Edge {:trigger EdgeOk(s.edges[e], s.overhead[e])} ::
          e < |s.edges| ==> EdgeOk(s.edges[e], s.overhead[e]))
    && Coherent(Holds(s.edges), s.dir)
    && (forall k :: k in s.dir ==> |s.dir[k]| == 1)
    && (forall e :: e in s.vtimes ==> e < |s.edges|)
  }

  ghost predicate Settled(s: Sim, e: Edge)
    requires e < |s.edges| == |s.overhead|
  {
    Fits(s.edges[e], s.overhead[e]) && VtimeAt(s, e)
  }

  ghost predicate SettledExcept(s: Sim, skip: Edge)
    requires |s.edges| == |s.overhead|
  {
    forall e: Edge :: e < |s.edges| && e != skip ==> Settled(s, e)
  }

  ghost predicate SimInv(s: Sim) {
    && Core(s)
    && forall e: Edge :: e < |s.edges| ==> Settled(s, e)
  }

  // ---- One edge -------------------------------------------------------------------------------------

  lemma GetEdge(w: State, overhead: nat, k: Key)
    requires EdgeOk(w, overhead)
    ensures EdgeOk(Get(w, k), overhead) && Lru.Keys(Get(w, k).cache) == Lru.Keys(w.cache)
    ensures SizeForCapacity(Get(w, k)) == SizeForCapacity(w)
  {
    GetInv(w, k);
    if Lru.Has(w.cache, k) {
      Lru.TouchBytes(w.cache, k, Lru.Stored(w.cache, k));
    }
  }

  lemma GetEdgeVisible(w: State, overhead: nat, k: Key, x: Key)
    requires EdgeOk(w, overhead)
    ensures Visible(Get(w, k), x) == Visible(w, x)
  {
    StepVisible(w, OpGet(k), x);
  }

  /** On an edge all of whose objects are valid a write only moves the clock. */
  lemma UpdateEdge(w: State, overhead: nat, k: Key, v: Value)
    requires EdgeOk(w, overhead)
    ensures EdgeOk(UpdateIfInvalid(w, k, v), overhead)
    ensures var w' := UpdateIfInvalid(w, k, v); w' == w || w' == w.(cache := w.cache.(clock := w.cache.clock + 1))
  {
    UpdateInv(w, k, v);
    Lru.HasIsKey(w.cache, k);
  }

  lemma AdmitEdge(w: State, overhead: nat, k: Key, v: Value, beacon: Edge)
    requires EdgeOk(w, overhead) && k !in Lru.Keys(w.cache) && ValidObjsize(w.capacity, k, v)
    ensures EdgeOk(Admit(w, k, v, true, Some(beacon)), overhead)
    ensures Lru.Keys(Admit(w, k, v, true, Some(beacon)).cache) == Lru.Keys(w.cache) + {k}
  {
    AdmitInv(w, k, v, true, Some(beacon));
    Lru.AdmitWf(w.cache, k, v);
  }

  /** On such an edge a key is visible exactly when it is cached. */
  lemma VisibleIsCached(w: State, overhead: nat, k: Key)
    requires EdgeOk(w, overhead)
    ensures Visible(w, k).Some? <==> k in Lru.Keys(w.cache)
  {
    Lru.HasIsKey(w.cache, k);
  }

  // ---- One edge changes -----------------------------------------------------------------------------

  lemma HoldsSet(edges: seq<State>, e: Edge, w: State)
    requires e < |edges|
    ensures Holds(edges[e := w]) == Holds(edges)[e := Lru.Keys(w.cache)]
  {
  }

  lemma SetEdgeCore(s: Sim, e: Edge, w: State)
    requires Core(s) && e < |s.edges| && EdgeOk(w, s.overhead[e]) && Lru.Keys(w.cache) == Lru.Keys(s.edges[e].cache)
    ensures Core(Sync(SetEdge(s, e, w), e)) && Core(SetEdge(s, e, w))
  {
    HoldsSet(s.edges, e, w);
    assert Holds(s.edges)[e := Lru.Keys(w.cache)] == Holds(s.edges);
  }

  /** An edge and the directory change together. */
  lemma SetEdgeDirCore(s: Sim, e: Edge, w: State, dir: Table)
    requires Core(s) && e < |s.edges| && EdgeOk(w, s.overhead[e])
    requires Coherent(Holds(s.edges)[e := Lru.Keys(w.cache)], dir)
    requires forall k :: k in dir ==> |dir[k]| == 1
    ensures Core(Sync(SetEdge(s, e, w).(dir := dir), e))
  {
    HoldsSet(s.edges, e, w);
  }

  lemma SetEdgeSettled(s: Sim, e: Edge, w: State)
    requires Core(s) && e < |s.edges| && SettledExcept(s, e)
    ensures SettledExcept(SetEdge(s, e, w), e) && SettledExcept(Sync(SetEdge(s, e, w), e), e)
    ensures Fits(w, s.overhead[e]) ==> Settled(Sync(SetEdge(s, e, w), e), e)
  {
    forall e': Edge | e' < |s.edges| && e' != e
      ensures Settled(SetEdge(s, e, w), e') && Settled(Sync(SetEdge(s, e, w), e), e')
    {
      assert Settled(s, e');
    }
  }

  lemma SetEdgeKeeps(s: Sim, e: Edge, w: State)
    requires SimInv(s) && e < |s.edges| && EdgeOk(w, s.overhead[e]) && Fits(w, s.overhead[e])
    requires Lru.Keys(w.cache) == Lru.Keys(s.edges[e].cache)
    ensures SimInv(Sync(SetEdge(s, e, w), e)) && Holds(SetEdge(s, e, w).edges) == Holds(s.edges)
  {
    SetEdgeCore(s, e, w);
    SetEdgeSettled(s, e, w);
  }

  lemma AccessKeeps(s: Sim, e: Edge, k: Key)
    requires SimInv(s) && e < |s.edges|
    ensures SimInv(Access(s, e, k))
    ensures Holds(Access(s, e, k).edges) == Holds(s.edges) && Access(s, e, k).dir == s.dir
  {
    GetEdge(s.edges[e], s.overhead[e], k);
    assert Settled(s, e);
    SetEdgeKeeps(s, e, Get(s.edges[e], k));
  }

  lemma AccessVisible(s: Sim, e: Edge, k: Key, e': Edge, x: Key)
    requires SimInv(s) && e < |s.edges| && e' < |s.edges|
    ensures Visible(Access(s, e, k).edges[e'], x) == Visible(s.edges[e'], x)
  {
    GetEdgeVisible(s.edges[e], s.overhead[e], k, x);
  }

  // ---- Eviction restores the invariant --------------------------------------------------------------

  lemma SettledEverywhere(s: Sim, e: Edge, w: State, dir: Table)
    requires Core(s) && e < |s.edges| && SettledExcept(s, e) && Fits(w, s.overhead[e])
    ensures var s' := Sync(SetEdge(s, e, w).(dir := dir), e);
            forall e': Edge :: e' < |s'.edges| ==> Settled(s', e')
  {
    var s' := Sync(SetEdge(s, e, w).(dir := dir), e);
    forall e': Edge | e' < |s'.edges|
      ensures Settled(s', e')
    {
      if e' != e {
        assert Settled(s, e');
      }
    }
  }

  lemma SettledOthers(s: Sim, e: Edge, w: State, dir: Table)
    requires Core(s) && e < |s.edges| && SettledExcept(s, e)
    ensures SettledExcept(Sync(SetEdge(s, e, w).(dir := dir), e), e)
  {
    var s' := Sync(SetEdge(s, e, w).(dir := dir), e);
    forall e': Edge | e' < |s'.edges| && e' != e
      ensures Settled(s', e')
    {
      assert Settled(s, e');
    }
  }

  lemma EvictKeeps(s: Sim, e: Edge)
    requires Core(s) && e < |s.edges| && SettledExcept(s, e)
    ensures var r := EvictForCapacity(s, e); r.Some? && SimInv(r.value)
  {
    EvictLoopSpec(s.edges[e], s.overhead[e]);
    var (w', victims) := EvictLoop(s.edges[e], s.overhead[e]).value;
    var h := Holds(s.edges);
    CoherentRemoveAll(h, s.dir, victims, e);
    RemoveAllSingle(s.dir, victims, e);
    assert h[e] - Elems(victims) == Lru.Keys(w'.cache);
    SetEdgeDirCore(s, e, w', RemoveAll(s.dir, victims, e));
    SettledEverywhere(s, e, w', RemoveAll(s.dir, victims, e));
  }

  /** An edge that fits loses nothing. */
  lemma EvictNothing(s: Sim, e: Edge)
    requires e < |s.edges| == |s.overhead| && Fits(s.edges[e], s.overhead[e])
    ensures EvictForCapacity(s, e) == Some(Sync(s, e))
  {
    assert s.edges[e := s.edges[e]] == s.edges;
  }

  lemma {:induction false} RemoveAllSingle(d: Table, keys: seq<Key>, e: Edge)
    requires Wf(d) && forall k :: k in d ==> |d[k]| == 1
    ensures Wf(RemoveAll(d, keys, e)) && forall k :: k in RemoveAll(d, keys, e) ==> |RemoveAll(d, keys, e)[k]| == 1
  {
    if keys != [] {
      var n := |keys| - 1;
      RemoveAllSingle(d, keys[..n], e);
      var d1 := RemoveAll(d, keys[..n], e);
      RemoveHolders(d1, keys[n], e);
      if keys[n] in d1 {
        MinusSpec(d1[keys[n]], e);
      }
    }
  }

  // ---- Validation and admission ---------------------------------------------------------------------

  /** On a settled edge validation moves the clock at most: it evicts nothing and leaves the directory alone. */
  lemma ValidateResult(s: Sim, e: Edge, k: Key, v: Value, deleted: bool) returns (w': State)
    requires SimInv(s) && e < |s.edges|
    ensures w' == UpdateIfInvalid(s.edges[e], k, if deleted then DELETED else v)
    ensures w' == s.edges[e] || w' == s.edges[e].(cache := s.edges[e].cache.(clock := s.edges[e].cache.clock + 1))
    ensures EdgeOk(w', s.overhead[e]) && Fits(w', s.overhead[e])
    ensures Validate(s, e, k, v, deleted) == Some(Sync(SetEdge(s, e, w'), e))
  {
    w' := UpdateIfInvalid(s.edges[e], k, if deleted then DELETED else v);
    UpdateEdge(s.edges[e], s.overhead[e], k, if deleted then DELETED else v);
    assert Settled(s, e);
    var s1 := SetEdge(s, e, w');
    if !deleted {
      EvictNothing(s1, e);
    }
    assert Sync(Sync(s1, e), e) == Sync(s1, e);
  }

  lemma ValidateKeeps(s: Sim, e: Edge, k: Key, v: Value, deleted: bool)
    requires SimInv(s) && e < |s.edges|
    ensures var r := Validate(s, e, k, v, deleted); r.Some? && SimInv(r.value)
  {
    var w' := ValidateResult(s, e, k, v, deleted);
    SetEdgeKeeps(s, e, w');
  }

  lemma ValidateFrame(s: Sim, e: Edge, k: Key, v: Value, deleted: bool)
    requires SimInv(s) && e < |s.edges|
    ensures var r := Validate(s, e, k, v, deleted);
            && r.Some? && |r.value.edges| == |s.edges| && r.value.overhead == s.overhead
            && r.value.dir == s.dir && r.value.vtimes.Keys == s.vtimes.Keys + {e}
  {
    var w' := ValidateResult(s, e, k, v, deleted);
  }

  lemma ClockVisible(w: State, clock: nat, x: Key)
    ensures Visible(w.(cache := w.cache.(clock := clock)), x) == Visible(w, x)
  {
  }

  /** Validation does not change what an edge holds and returns. */
  lemma ValidateVisible(s: Sim, e: Edge, k: Key, v: Value, deleted: bool, e': Edge, x: Key)
    requires SimInv(s) && e < |s.edges| && e' < |s.edges|
    ensures var r := Validate(s, e, k, v, deleted);
            && r.Some? && |r.value.edges| == |s.edges|
            && r.value.edges[e'].capacity == s.edges[e'].capacity
            && Visible(r.value.edges[e'], x) == Visible(s.edges[e'], x)
  {
    var w' := ValidateResult(s, e, k, v, deleted);
    ClockVisible(s.edges[e], w'.cache.clock, x);
  }

  lemma Validated(s: Sim, e: Edge, k: Key, v: Value, deleted: bool) returns (s': Sim)
    requires SimInv(s) && e < |s.edges|
    ensures Validate(s, e, k, v, deleted) == Some(s') && SimInv(s')
    ensures |s'.edges| == |s.edges| && s'.dir == s.dir && s'.vtimes.Keys == s.vtimes.Keys + {e}
    ensures forall x: Edge :: x < |s.edges| ==> s'.edges[x].capacity == s.edges[x].capacity
  {
    ValidateKeeps(s, e, k, v, deleted);
    ValidateFrame(s, e, k, v, deleted);
    s' := Validate(s, e, k, v, deleted).value;
    forall x: Edge | x < |s.edges|
      ensures s'.edges[x].capacity == s.edges[x].capacity
    {
      ValidateVisible(s, e, k, v, deleted, x, k);
    }
  }

  lemma AdmitKeeps(s: Sim, p: Edge, k: Key, v: Value, beacon: Edge)
    requires SimInv(s) && p < |s.edges| && ValidObjsize(s.edges[p].capacity, k, v)
    requires k !in s.dir
    ensures var r := AdmitInto(s, p, k, v, beacon); r.Some? && SimInv(r.value)
  {
    assert Holders(s.dir, k) == [];
    assert k !in Holds(s.edges)[p];
    var w := Admit(s.edges[p], k, v, true, Some(beacon));
    AdmitEdge(s.edges[p], s.overhead[p], k, v, beacon);
    CoherentAdd(Holds(s.edges), s.dir, k, p);
    SetEdgeDirCore(s, p, w, Add(s.dir, k, p));
    SettledOthers(s, p, w, Add(s.dir, k, p));
    EvictKeeps(Sync(SetEdge(s, p, w).(dir := Add(s.dir, k, p)), p), p);
  }

  // ---- One request ----------------------------------------------------------------------------------

  /**
   What the simulator demands of a request: an existing closest edge, a value of valid object size, and for a
   write a key the directory knows, because the directory lookup of a write is used unchecked. `order` is an
   iteration order of the victim-time index as it stands when the placement is chosen.
   */
  ghost predicate LegalRequest(s: Sim, r: Request) {
    && r.closest < |s.edges|
    && (forall e: Edge :: e < |s.edges| ==> ValidObjsize(s.edges[e].capacity, r.k, r.v))
    && NoDup(r.order) && Elems(r.order) == s.vtimes.Keys + {r.closest}
    && (r.kind != GetRequest ==> r.k in s.dir)
  }

  /** The single edge that caches a globally cached key. */
  ghost function Holder(s: Sim, k: Key): (h: Edge)
    requires Core(s) && k in s.dir
    ensures h < |s.edges| && s.dir[k] == [h] && k in Lru.Keys(s.edges[h].cache)
  {
    assert s.dir[k][0] in Holders(s.dir, k);
    s.dir[k][0]
  }

  lemma OnlyHolder(s: Sim, k: Key, e: Edge)
    requires Core(s) && e < |s.edges|
    ensures k in Lru.Keys(s.edges[e].cache) <==> k in s.dir && e == Holder(s, k)
  {
    if k in s.dir {
      assert Holders(s.dir, k) == [Holder(s, k)];
    }
    assert k in Holds(s.edges)[e] <==> e in Holders(s.dir, k);
  }

  lemma LocalLookup(s: Sim, r: Request)
    requires SimInv(s) && LegalRequest(s, r)
    requires r.k in s.dir && Holder(s, r.k) == r.closest
    ensures var o := Lookup(s, r);
            && o.Some? && SimInv(o.value.sim) && o.value.sim.dir == s.dir
            && o.value.hit == LocalHit && Some(o.value.v) == Visible(s.edges[r.closest], r.k)
  {
    AccessKeeps(s, r.closest, r.k);
    VisibleIsCached(s.edges[r.closest], s.overhead[r.closest], r.k);
  }

  /** Redirection goes to the one other holder and finds the object there, so its assertion never fails. */
  lemma RemoteLookup(s: Sim, r: Request)
    requires SimInv(s) && LegalRequest(s, r)
    requires r.k in s.dir && Holder(s, r.k) != r.closest
    ensures var o := Lookup(s, r);
            && o.Some? && SimInv(o.value.sim) && o.value.sim.dir == s.dir
            && o.value.hit == CooperativeHit && Some(o.value.v) == Visible(s.edges[Holder(s, r.k)], r.k)
  {
    var h := Holder(s, r.k);
    OnlyHolder(s, r.k, r.closest);
    AccessKeeps(s, r.closest, r.k);
    VisibleIsCached(s.edges[r.closest], s.overhead[r.closest], r.k);
    VisibleIsCached(s.edges[h], s.overhead[h], r.k);
    var s1 := Access(s, r.closest, r.k);
    assert Discover(s1, r.closest, r.k, r.pick) == Some(h);
    AccessVisible(s, r.closest, r.k, h, r.k);
    AccessKeeps(s1, h, r.k);
  }

  lemma MissLookup(s: Sim, r: Request)
    requires SimInv(s) && LegalRequest(s, r) && r.k !in s.dir
    ensures Lookup(s, r) == Some(Outcome(Access(s, r.closest, r.k), GlobalMiss, r.v))
    ensures SimInv(Access(s, r.closest, r.k))
  {
    OnlyHolder(s, r.k, r.closest);
    AccessKeeps(s, r.closest, r.k);
    VisibleIsCached(s.edges[r.closest], s.overhead[r.closest], r.k);
  }

  lemma InRange(s: Sim, order: seq<Edge>, e: Edge) returns (p: Edge)
    requires Core(s) && Elems(order) == s.vtimes.Keys && e in s.vtimes
    ensures order != [] && p == Smallest(s.vtimes, order) && p < |s.edges|
  {
    assert e in Elems(order);
    p := Smallest(s.vtimes, order);
    assert p in Elems(order);
  }

  lemma ManageMiss(s2: Sim, r: Request) returns (o: Outcome)
    requires SimInv(s2) && Placeable(s2, r)
    ensures Manage(s2, r, GlobalMiss, r.v) == Some(o) && SimInv(o.sim) && o.hit == GlobalMiss && o.v == r.v
  {
    var p := InRange(s2, r.order, r.closest);
    assert forall x :: x in r.order ==> x in Elems(r.order);
    AdmitKeeps(s2, p, r.k, r.v, r.beacon);
    o := Outcome(AdmitInto(s2, p, r.k, r.v, r.beacon).value, GlobalMiss, r.v);
  }

  /** The placement edge has the oldest victim of all edges on record, by their true victim times. */
  lemma PlacementIsOldest(s2: Sim, order: seq<Edge>, e: Edge)
    requires SimInv(s2) && order != [] && Elems(order) == s2.vtimes.Keys && e in s2.vtimes
    ensures var p := Smallest(s2.vtimes, order);
            && p < |s2.edges| && e < |s2.edges|
            && Lru.VictimVtime(s2.edges[p].cache) <= Lru.VictimVtime(s2.edges[e].cache)
  {
    SmallestIsMinimal(s2.vtimes, order);
    var p := Smallest(s2.vtimes, order);
    assert p in Elems(order) && e in Elems(order);
    assert Settled(s2, p) && Settled(s2, e);
  }

  lemma HitLookup(s: Sim, r: Request) returns (o: Outcome)
    requires SimInv(s) && LegalRequest(s, r) && r.k in s.dir
    ensures Lookup(s, r) == Some(o) && SimInv(o.sim) && |o.sim.edges| == |s.edges|
    ensures o.hit == (if Holder(s, r.k) == r.closest then LocalHit else CooperativeHit)
    ensures Some(o.v) == Visible(s.edges[Holder(s, r.k)], r.k)
  {
    if Holder(s, r.k) == r.closest {
      LocalLookup(s, r);
    } else {
      RemoteLookup(s, r);
    }
    o := Lookup(s, r).value;
  }

  /** A get is its three phases in sequence. */
  lemma GetPhases(s: Sim, r: Request, found: Outcome, s': Sim, o: Outcome)
    requires r.closest < |s.edges| == |s.overhead| && r.kind == GetRequest
    requires Lookup(s, r) == Some(found)
    requires |found.sim.edges| == |s.edges| && found.sim.overhead == s.overhead
    requires Validate(found.sim, r.closest, r.k, found.v, found.v.deleted) == Some(s')
    requires |s'.edges| == |s'.overhead| && Manage(s', r, found.hit, found.v) == Some(o)
    ensures Process(s, r) == Some(o)
  {
  }

  /** What a get that reaches the placement phase with a global miss may rely on. */
  ghost predicate Placeable(s: Sim, r: Request) {
    && r.k !in s.dir && r.closest in s.vtimes && Elems(r.order) == s.vtimes.Keys
    && forall e: Edge :: e < |s.edges| ==> ValidObjsize(s.edges[e].capacity, r.k, r.v)
  }

  lemma HitPlan(s: Sim, r: Request) returns (found: Outcome, s': Sim)
    requires SimInv(s) && LegalRequest(s, r) && r.kind == GetRequest && r.k in s.dir
    ensures Lookup(s, r) == Some(found) && SimInv(found.sim) && |found.sim.edges| == |s.edges|
    ensures Validate(found.sim, r.closest, r.k, found.v, found.v.deleted) == Some(s') && SimInv(s')
    ensures found.hit == (if Holder(s, r.k) == r.closest then LocalHit else CooperativeHit)
    ensures Some(found.v) == Visible(s.edges[Holder(s, r.k)], r.k)
    ensures Process(s, r) == Some(Outcome(s', found.hit, found.v))
  {
    found := HitLookup(s, r);
    s' := Validated(found.sim, r.closest, r.k, found.v, found.v.deleted);
    GetPhases(s, r, found, s', Outcome(s', found.hit, found.v));
  }

  lemma MissValidated(s: Sim, r: Request) returns (s': Sim)
    requires SimInv(s) && r.closest < |s.edges| && r.k !in s.dir
    requires forall e: Edge :: e < |s.edges| ==> ValidObjsize(s.edges[e].capacity, r.k, r.v)
    requires Elems(r.order) == s.vtimes.Keys + {r.closest}
    ensures Validate(s, r.closest, r.k, r.v, r.v.deleted) == Some(s') && SimInv(s') && Placeable(s', r)
    ensures |s'.edges| == |s.edges|
  {
    s' := Validated(s, r.closest, r.k, r.v, r.v.deleted);
  }

  lemma MissPlan(s: Sim, r: Request) returns (found: Outcome, s': Sim, o: Outcome)
    requires SimInv(s) && LegalRequest(s, r) && r.kind == GetRequest && r.k !in s.dir
    ensures found == Outcome(Access(s, r.closest, r.k), GlobalMiss, r.v) && Lookup(s, r) == Some(found)
    ensures SimInv(found.sim)
    ensures Validate(found.sim, r.closest, r.k, found.v, found.v.deleted) == Some(s') && SimInv(s') && Placeable(s', r)
    ensures SimInv(o.sim) && o.hit == GlobalMiss && o.v == r.v && Process(s, r) == Some(o)
  {
    MissLookup(s, r);
    found := Outcome(Access(s, r.closest, r.k), GlobalMiss, r.v);
    s' := MissValidated(found.sim, r);
    o := ManageMiss(s', r);
    GetPhases(s, r, found, s', o);
  }

  /**
   A get never fails an assertion and keeps the invariant. It is a global miss exactly when no edge caches the key,
   a local hit exactly when the closest edge does, and a hit returns what the one holder stores.
   */
  lemma GetTheorem(s: Sim, r: Request)
    requires SimInv(s) && LegalRequest(s, r) && r.kind == GetRequest
    ensures var o := Process(s, r);
            && o.Some? && SimInv(o.value.sim)
            && (o.value.hit == GlobalMiss <==> forall e: Edge :: e < |s.edges| ==> r.k !in Lru.Keys(s.edges[e].cache))
            && (o.value.hit == LocalHit <==> r.k in Lru.Keys(s.edges[r.closest].cache))
            && (o.value.hit != GlobalMiss ==> r.k in s.dir && Some(o.value.v) == Visible(s.edges[Holder(s, r.k)], r.k))
  {
    forall e: Edge | e < |s.edges|
      ensures r.k in Lru.Keys(s.edges[e].cache) <==> r.k in s.dir && e == Holder(s, r.k)
    {
      OnlyHolder(s, r.k, e);
    }
    if r.k in s.dir {
      var _, _ := HitPlan(s, r);
    } else {
      var _, _, _ := MissPlan(s, r);
    }
  }

  lemma WritePhases(s: Sim, r: Request, v: Value, s': Sim)
    requires r.closest < |s.edges| == |s.overhead| && r.kind != GetRequest && r.k in s.dir
    requires v == if r.kind == DelRequest then DELETED else r.v
    requires Validate(s, r.closest, r.k, v, r.kind == DelRequest) == Some(s') && s'.dir == s.dir
    ensures Process(s, r) == Some(Outcome(s', CooperativeHit, v))
  {
  }

  /**
   A write never changes what any edge caches or returns, nor the directory: the value is written only where the
   closest edge holds the key invalid, and the simulator never holds an invalid object.
   */
  lemma WriteTheorem(s: Sim, r: Request, e: Edge, x: Key)
    requires SimInv(s) && LegalRequest(s, r) && r.kind != GetRequest && e < |s.edges|
    ensures var o := Process(s, r);
            && o.Some? && SimInv(o.value.sim) && o.value.hit == CooperativeHit
            && o.value.sim.dir == s.dir && |o.value.sim.edges| == |s.edges|
            && Visible(o.value.sim.edges[e], x) == Visible(s.edges[e], x)
  {
    var v := if r.kind == DelRequest then DELETED else r.v;
    var s' := Validated(s, r.closest, r.k, v, r.kind == DelRequest);
    WritePhases(s, r, v, s');
    ValidateVisible(s, r.closest, r.k, v, r.kind == DelRequest, e, x);
  }

  /** So a get after a write still returns the value from before the write, whatever was written. */
  lemma WriteIsInvisible(s: Sim, write: Request, get: Request)
    requires SimInv(s) && LegalRequest(s, write) && write.kind != GetRequest && get.k == write.k
    requires Process(s, write).Some? && LegalRequest(Process(s, write).value.sim, get) && get.kind == GetRequest
    ensures Process(Process(s, write).value.sim, get).Some?
    ensures var o := Process(Process(s, write).value.sim, get).value;
            o.hit != GlobalMiss && Some(o.v) == Visible(s.edges[Holder(s, get.k)], get.k)
  {
    var h := Holder(s, get.k);
    WriteTheorem(s, write, h, get.k);
    var s' := Process(s, write).value.sim;
    GetTheorem(s', get);
    VisibleIsCached(s.edges[h], s.overhead[h], get.k);
    OnlyHolder(s', get.k, h);
    VisibleIsCached(s'.edges[h], s'.overhead[h], get.k);
  }

  // ---- Whole runs -----------------------------------------------------------------------------------

  ghost function Run(s: Sim, rs: seq<Request>): Option<Sim>
    decreases |rs|
  {
    if rs == [] then Some(s)
    else if rs[0].closest >= |s.edges| || |s.edges| != |s.overhead| || Process(s, rs[0]).None? then None
    else Run(Process(s, rs[0]).value.sim, rs[1..])
  }

  ghost predicate LegalRun(s: Sim, rs: seq<Request>)
    decreases |rs|
  {
    rs == [] ||
    (LegalRequest(s, rs[0]) &&
     (|s.edges| == |s.overhead| && Process(s, rs[0]).Some? ==> LegalRun(Process(s, rs[0]).value.sim, rs[1..])))
  }

  lemma InitInv(capacity: nat, overhead: seq<nat>)
    requires forall e :: 0 <= e < |overhead| ==> overhead[e] <= capacity
    ensures SimInv(BestGuessSim.Init(capacity, overhead))
  {
    var s := BestGuessSim.Init(capacity, overhead);
    assert Lru.Keys(Lru.EMPTY) == {};
    forall e: Edge | e < |s.edges|
      ensures Settled(s, e)
    {
      assert s.edges[e] == Wrapper.Init(capacity);
    }
  }

  lemma ProcessKeeps(s: Sim, r: Request)
    requires SimInv(s) && LegalRequest(s, r)
    ensures r.closest < |s.edges| == |s.overhead|
    ensures Process(s, r).Some? && SimInv(Process(s, r).value.sim)
  {
    if r.kind == GetRequest {
      GetTheorem(s, r);
    } else {
      WriteTheorem(s, r, r.closest, r.k);
    }
  }

  /**
   Over every run of legal requests no assertion fails and no exit is taken, and after every request the directory
   lists exactly the caching edges, no key is cached twice, every edge is within capacity and the victim-time
   index is true.
   */
  lemma {:induction false} RunTheorem(s: Sim, rs: seq<Request>)
    requires SimInv(s) && LegalRun(s, rs)
    ensures Run(s, rs).Some? && SimInv(Run(s, rs).value)
    decreases |rs|
  {
    if rs != [] {
      ProcessKeeps(s, rs[0]);
      RunTheorem(Process(s, rs[0]).value.sim, rs[1..]);
    }
  }

  ghost function CachedObjects(edges: seq<State>): nat {
    if edges == [] then 0 else CachedObjects(edges[..|edges| - 1]) + |edges[|edges| - 1].cache.items|
  }

  ghost function CachedKeys(edges: seq<State>): set<Key> {
    if edges == [] then {} else CachedKeys(edges[..|edges| - 1]) + Lru.Keys(edges[|edges| - 1].cache)
  }

  lemma {:induction false} CachedKeysHas(edges: seq<State>, k: Key)
    ensures k in CachedKeys(edges) <==> exists e :: 0 <= e < |edges| && k in Lru.Keys(edges[e].cache)
  {
    if edges != [] {
      CachedKeysHas(edges[..|edges| - 1], k);
    }
  }

  lemma DisjointStep(s: Sim, m: nat)
    requires Core(s) && m < |s.edges|
    ensures CachedKeys(s.edges[..m]) !! Lru.Keys(s.edges[m].cache)
  {
    forall k | k in CachedKeys(s.edges[..m])
      ensures k !in Lru.Keys(s.edges[m].cache)
    {
      CachedKeysHas(s.edges[..m], k);
      var e :| 0 <= e < m && k in Lru.Keys(s.edges[..m][e].cache);
      OnlyHolder(s, k, e);
      OnlyHolder(s, k, m);
    }
  }

  lemma {:induction false} DisjointCount(s: Sim, n: nat)
    requires Core(s) && n <= |s.edges|
    ensures |CachedKeys(s.edges[..n])| == CachedObjects(s.edges[..n])
  {
    if n > 0 {
      var m := n - 1;
      DisjointCount(s, m);
      DisjointStep(s, m);
      assert s.edges[..n][..m] == s.edges[..m];
      assert EdgeOk(s.edges[m], s.overhead[m]);
      Lru.KeyCount(s.edges[m].cache);
    }
  }

  /** Conservation: the number of objects over all edges is the number of keys in the directory. */
  lemma ObjectsAreDirectoryKeys(s: Sim)
    requires SimInv(s)
    ensures CachedObjects(s.edges) == |s.dir|
  {
    DisjointCount(s, |s.edges|);
    assert s.edges[..|s.edges|] == s.edges;
    forall k
      ensures k in CachedKeys(s.edges) <==> k in s.dir.Keys
    {
      CachedKeysHas(s.edges, k);
      if k in s.dir {
        assert k in Lru.Keys(s.edges[Holder(s, k)].cache);
      } else if k in CachedKeys(s.edges) {
        var e :| 0 <= e < |s.edges| && k in Lru.Keys(s.edges[e].cache);
        OnlyHolder(s, k, e);
      }
    }
    assert CachedKeys(s.edges) == s.dir.Keys;
  }
}
