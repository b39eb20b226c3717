/**
 One request of the single-node simulator under BestGuess: local access, content discovery, redirection, value
 validation, placement on the edge with the oldest victim, admission and eviction. The state is every edge cache
 plus the directory and the victim-time index that must agree with them.
 */
module BestGuessSim {
  import opened Types
  import opened Directory
  import opened Wrapper
  import Lru

  /** `overhead[e]` is the fixed cooperation metadata of edge e. */
  datatype Sim = Sim(edges: seq<State>, dir: Table, vtimes: map<Edge, nat>, overhead: seq<nat>)

  datatype Kind = GetRequest | PutRequest | DelRequest

  /**
   A request reaches its client's closest edge. `pick` is the random draw of content discovery, `order` the
   iteration order of the victim-time index, `beacon` the beacon edge of the key.
   */
  datatype Request = Request(kind: Kind, closest: Edge, k: Key, v: Value, pick: nat, order: seq<Edge>, beacon: Edge)

  datatype Outcome = Outcome(sim: Sim, hit: Hitflag, v: Value)

  function Init(capacity: nat, overhead: seq<nat>): Sim {
    Sim(seq(|overhead|, i => Wrapper.Init(capacity)), map[], map[], overhead)
  }

  // ---- Eviction -------------------------------------------------------------------------------------

  predicate Fits(w: State, overhead: nat) {
    SizeForCapacity(w) + overhead <= w.capacity
  }

  /** Evicts until the edge fits; no result stands for the exit on an empty cache. */
  ghost function EvictLoop(w: State, overhead: nat): Option<(State, seq<Key>)>
    decreases |w.cache.items|
  {
    if Fits(w, overhead) then Some((w, []))
    else if Evict(w).None? then None
    else
      assert w.cache.items[|w.cache.items| - 1].key == Lru.Tail(w.cache);
      var rest := EvictLoop(Evict(w).value, overhead);
      if rest.None? then None else Some((rest.value.0, [Lru.Tail(w.cache)] + rest.value.1))
  }

  /** Admitted objects are valid and the fixed metadata alone fits, so an empty edge always fits. */
  ghost predicate EdgeOk(w: State, overhead: nat) {
    && Inv(w)
    && w.valid.Keys == Lru.Keys(w.cache)
    && (forall k :: k in w.valid ==> w.valid[k])
    && overhead <= w.capacity
  }

  /** Whether the `m` most recently used items would fit. */
  predicate PrefixFits(w: State, overhead: nat, m: nat)
    requires m <= |w.cache.items|
  {
    Lru.Bytes(w.cache.items[..m]) + FLAG_BYTES * m + overhead <= w.capacity
  }

  lemma FitsIsPrefixFits(w: State, overhead: nat)
    requires EdgeOk(w, overhead)
    ensures Fits(w, overhead) <==> PrefixFits(w, overhead, |w.cache.items|)
  {
    Lru.KeyCount(w.cache);
    assert w.cache.items[..|w.cache.items|] == w.cache.items;
    assert |w.valid| == |w.valid.Keys|;
  }

  lemma EvictOnce(w: State, overhead: nat)
    requires EdgeOk(w, overhead) && !Fits(w, overhead)
    ensures Evict(w).Some? && EdgeOk(Evict(w).value, overhead)
    ensures Evict(w).value.cache == w.cache.(items := w.cache.items[..|w.cache.items| - 1])
    ensures Evict(w).value.capacity == w.capacity
    ensures Lru.Keys(Evict(w).value.cache) == Lru.Keys(w.cache) - {Lru.Tail(w.cache)}
  {
    EvictInv(w);
    if w.cache.items == [] {
      FitsIsPrefixFits(w, overhead);
    } else {
      Lru.EvictTail(w.cache);
      Lru.EvictWf(w.cache, Lru.Tail(w.cache));
      assert w.cache.items[|w.cache.items| - 1].key in Lru.Keys(w.cache);
    }
  }

  ghost predicate TailKeys(items: seq<Lru.Item>, victims: seq<Key>) {
    && |victims| <= |items|
    && forall j :: 0 <= j < |victims| ==> victims[j] == items[|items| - 1 - j].key
  }

  lemma TailKeysStep(items: seq<Lru.Item>, rest: seq<Key>)
    requires items != [] && TailKeys(items[..|items| - 1], rest)
    ensures TailKeys(items, [items[|items| - 1].key] + rest)
    ensures items[..|items| - 1][..|items| - 1 - |rest|] == items[..|items| - 1 - |rest|]
    ensures Elems([items[|items| - 1].key] + rest) == {items[|items| - 1].key} + Elems(rest)
  {
  }

  lemma {:induction false} EvictLoopOk(w: State, overhead: nat)
    requires EdgeOk(w, overhead)
    ensures var r := EvictLoop(w, overhead); r.Some? && EdgeOk(r.value.0, overhead) && Fits(r.value.0, overhead)
    decreases |w.cache.items|
  {
    if !Fits(w, overhead) {
      EvictOnce(w, overhead);
      EvictLoopOk(Evict(w).value, overhead);
    }
  }

  lemma MinusCons(all: set<Key>, one: Key, rest: seq<Key>)
    ensures all - {one} - Elems(rest) == all - Elems([one] + rest)
  {
    assert Elems([one] + rest) == {one} + Elems(rest);
  }

  lemma {:induction false} EvictLoopKeys(w: State, overhead: nat)
    requires EdgeOk(w, overhead) && EvictLoop(w, overhead).Some?
    ensures var (w', victims) := EvictLoop(w, overhead).value;
            Lru.Keys(w'.cache) == Lru.Keys(w.cache) - Elems(victims)
    decreases |w.cache.items|
  {
    if !Fits(w, overhead) {
      EvictOnce(w, overhead);
      var w1 := Evict(w).value;
      EvictLoopKeys(w1, overhead);
      var (w', rest) := EvictLoop(w1, overhead).value;
      MinusCons(Lru.Keys(w.cache), Lru.Tail(w.cache), rest);
    } else {
      assert Elems<Key>([]) == {};
    }
  }

  /** What the loop leaves of the list, relative to where it started. */
  ghost predicate Shrunk(w: State, w': State, victims: seq<Key>) {
    && w'.capacity == w.capacity
    && TailKeys(w.cache.items, victims)
    && w'.cache == w.cache.(items := w.cache.items[..|w.cache.items| - |victims|])
  }

  lemma ShrunkStep(w: State, w1: State, w': State, rest: seq<Key>)
    requires w.cache.items != [] && w1.cache == w.cache.(items := w.cache.items[..|w.cache.items| - 1])
    requires w1.capacity == w.capacity && Shrunk(w1, w', rest)
    ensures Shrunk(w, w', [Lru.Tail(w.cache)] + rest)
  {
    TailKeysStep(w.cache.items, rest);
    assert w'.cache.items == w.cache.items[..|w.cache.items| - 1 - |rest|];
  }

  lemma {:induction false} EvictLoopShape(w: State, overhead: nat)
    requires EdgeOk(w, overhead) && EvictLoop(w, overhead).Some?
    ensures var (w', victims) := EvictLoop(w, overhead).value; Shrunk(w, w', victims)
    decreases |w.cache.items|
  {
    if Fits(w, overhead) {
      assert w.cache.items[..|w.cache.items|] == w.cache.items;
    } else {
      EvictOnce(w, overhead);
      var w1 := Evict(w).value;
      EvictLoopShape(w1, overhead);
      var (w', rest) := EvictLoop(w1, overhead).value;
      ShrunkStep(w, w1, w', rest);
    }
  }

  lemma {:induction false} EvictLoopMinimal(w: State, overhead: nat, m: nat)
    requires EdgeOk(w, overhead) && EvictLoop(w, overhead).Some?
    requires m <= |w.cache.items| < m + |EvictLoop(w, overhead).value.1|
    ensures !PrefixFits(w, overhead, m)
    decreases |w.cache.items|
  {
    FitsIsPrefixFits(w, overhead);
    if m < |w.cache.items| {
      EvictOnce(w, overhead);
      var w1 := Evict(w).value;
      EvictLoopMinimal(w1, overhead, m);
      assert w1.cache.items[..m] == w.cache.items[..m];
    }
  }

  /**
   The loop never runs out of victims and evicts exactly the shortest LRU suffix that brings the edge within
   capacity: the victims are the tail keys in order, and keeping any more items would not have fit.
   */
  lemma EvictLoopSpec(w: State, overhead: nat)
    requires EdgeOk(w, overhead)
    ensures EvictLoop(w, overhead).Some?
    ensures var (w', victims) := EvictLoop(w, overhead).value;
            && EdgeOk(w', overhead) && Fits(w', overhead) && Shrunk(w, w', victims)
            && (forall m :: |w'.cache.items| < m <= |w.cache.items| ==> !PrefixFits(w, overhead, m))
            && Lru.Keys(w'.cache) == Lru.Keys(w.cache) - Elems(victims)
  {
    EvictLoopOk(w, overhead);
    EvictLoopShape(w, overhead);
    EvictLoopKeys(w, overhead);
    var n, v := |w.cache.items|, |EvictLoop(w, overhead).value.1|;
    forall m: nat | n - v < m <= n
      ensures !PrefixFits(w, overhead, m)
    {
      EvictLoopMinimal(w, overhead, m);
    }
  }

  lemma TailKeysDistinct(c: Lru.Cache, victims: seq<Key>)
    requires Lru.Ordered(c.items) && TailKeys(c.items, victims)
    ensures NoDup(victims) && Elems(victims) <= Lru.Keys(c)
  {
    forall k | k in victims
      ensures k in Lru.Keys(c)
    {
      var j :| 0 <= j < |victims| && victims[j] == k;
      assert c.items[|c.items| - 1 - j].key == k;
      Lru.HasIsKey(c, k);
    }
  }

  // ---- The steps of a request -----------------------------------------------------------------------

  ghost function SetEdge(s: Sim, e: Edge, w: State): Sim
    requires e < |s.edges|
  {
    s.(edges := s.edges[e := w])
  }

  /** Vtime synchronization: records the current victim time of an edge. */
  ghost function Sync(s: Sim, e: Edge): Sim
    requires e < |s.edges|
  {
    s.(vtimes := s.vtimes[e := Lru.VictimVtime(s.edges[e].cache)])
  }

  ghost function Access(s: Sim, e: Edge, k: Key): Sim
    requires e < |s.edges|
  {
    Sync(SetEdge(s, e, Get(s.edges[e], k)), e)
  }

  ghost function EvictForCapacity(s: Sim, e: Edge): (r: Option<Sim>)
    requires e < |s.edges| == |s.overhead|
    ensures r.Some? ==> |r.value.edges| == |s.edges| && r.value.overhead == s.overhead
  {
    var loop := EvictLoop(s.edges[e], s.overhead[e]);
    if loop.None? then None
    else Some(Sync(SetEdge(s, e, loop.value.0).(dir := RemoveAll(s.dir, loop.value.1, e)), e))
  }

  /** The value a caller got is written where the closest edge caches the key and holds it invalid. */
  ghost function Validate(s: Sim, e: Edge, k: Key, v: Value, deleted: bool): (r: Option<Sim>)
    requires e < |s.edges| == |s.overhead|
    ensures r.Some? ==> |r.value.edges| == |s.edges| && r.value.overhead == s.overhead
  {
    var s1 := SetEdge(s, e, UpdateIfInvalid(s.edges[e], k, if deleted then DELETED else v));
    if deleted then Some(Sync(s1, e))
    else
      var s2 := EvictForCapacity(s1, e);
      if s2.None? then None else Some(Sync(s2.value, e))
  }

  /** A random other edge that the directory lists, if any. */
  ghost function Discover(s: Sim, e: Edge, k: Key, pick: nat): Option<Edge> {
    var others := Minus(Holders(s.dir, k), e);
    if others == [] then None else Some(others[pick % |others|])
  }

  /** The first smallest entry of the index in iteration order. */
  ghost function Smallest(vtimes: map<Edge, nat>, order: seq<Edge>): (e: Edge)
    requires order != [] && forall x :: x in order ==> x in vtimes
    ensures e in order
  {
    if |order| == 1 then order[0]
    else
      var last := order[|order| - 1];
      var best := Smallest(vtimes, order[..|order| - 1]);
      if vtimes[best] > vtimes[last] then last else best
  }

  lemma {:induction false} SmallestIsMinimal(vtimes: map<Edge, nat>, order: seq<Edge>)
    requires order != [] && forall x :: x in order ==> x in vtimes
    ensures forall x :: x in order ==> vtimes[Smallest(vtimes, order)] <= vtimes[x]
  {
    if |order| > 1 {
      SmallestIsMinimal(vtimes, order[..|order| - 1]);
    }
  }

  /** Admission into a placement edge. No result stands for a failed assertion or an exit. */
  ghost function AdmitInto(s: Sim, p: Edge, k: Key, v: Value, beacon: Edge): Option<Sim>
    requires |s.edges| == |s.overhead|
  {
    if p >= |s.edges| then None
    else if p in Holders(s.dir, k) then Some(s)
    else if !ValidObjsize(s.edges[p].capacity, k, v) then None
    else
      var s1 := SetEdge(s, p, Admit(s.edges[p], k, v, true, Some(beacon))).(dir := Add(s.dir, k, p));
      EvictForCapacity(Sync(s1, p), p)
  }

  ghost function Manage(s: Sim, r: Request, hit: Hitflag, v: Value): Option<Outcome>
    requires |s.edges| == |s.overhead|
  {
    if hit != GlobalMiss then Some(Outcome(s, hit, v))
    else if r.order == [] || !(forall x :: x in r.order ==> x in s.vtimes) then None
    else
      var s' := AdmitInto(s, Smallest(s.vtimes, r.order), r.k, v, r.beacon);
      if s'.None? then None else Some(Outcome(s'.value, hit, v))
  }

  /** Where a get finds the value; a redirection that misses is the failed assertion. */
  ghost function Lookup(s: Sim, r: Request): (o: Option<Outcome>)
    requires r.closest < |s.edges| == |s.overhead|
    ensures o.Some? ==> |o.value.sim.edges| == |s.edges| && o.value.sim.overhead == s.overhead
  {
    var s1 := Access(s, r.closest, r.k);
    var local := Visible(s.edges[r.closest], r.k);
    if local.Some? then Some(Outcome(s1, LocalHit, local.value))
    else
      var target := Discover(s1, r.closest, r.k, r.pick);
      if target.None? then Some(Outcome(s1, GlobalMiss, r.v))
      else if target.value >= |s1.edges| then None
      else
        var remote := Visible(s1.edges[target.value], r.k);
        if remote.None? then None else Some(Outcome(Access(s1, target.value, r.k), CooperativeHit, remote.value))
  }

  ghost function ProcessGet(s: Sim, r: Request): Option<Outcome>
    requires r.closest < |s.edges| == |s.overhead|
  {
    var found := Lookup(s, r);
    if found.None? then None
    else
      var s' := Validate(found.value.sim, r.closest, r.k, found.value.v, found.value.v.deleted);
      if s'.None? then None else Manage(s'.value, r, found.value.hit, found.value.v)
  }

  /** A write looks the key up in the directory twice without checking the lookup: before and after the local write. */
  ghost function ProcessWrite(s: Sim, r: Request): Option<Outcome>
    requires r.closest < |s.edges| == |s.overhead|
  {
    if r.k !in s.dir then None
    else
      var v := if r.kind == DelRequest then DELETED else r.v;
      var s' := Validate(s, r.closest, r.k, v, r.kind == DelRequest);
      if s'.None? || r.k !in s'.value.dir then None
      else Manage(s'.value, r, if r.k in s'.value.dir then CooperativeHit else GlobalMiss, v)
  }

  ghost function Process(s: Sim, r: Request): Option<Outcome>
    requires r.closest < |s.edges| == |s.overhead|
  {
    if r.kind == GetRequest then ProcessGet(s, r) else ProcessWrite(s, r)
  }
}
