/** What a BestGuess request does to every edge, as lists of items in order of use. */
module BestGuessEffects {
  import opened Types
  import opened Directory
  import opened Wrapper
  import opened BestGuessSim
  import opened BestGuessRuns
  import Lru

  // ---- One edge -------------------------------------------------------------------------------------

  /** The items of all other keys, in their order. */
  function Others(items: seq<Lru.Item>, k: Key): seq<Lru.Item> {
    if items == [] then []
    else
      var rest := Others(items[..|items| - 1], k);
      if items[|items| - 1].key == k then rest else rest + [items[|items| - 1]]
  }

  lemma {:induction false} OthersAll(items: seq<Lru.Item>, k: Key)
    requires forall i :: 0 <= i < |items| ==> items[i].key != k
    ensures Others(items, k) == items
  {
    if items != [] {
      OthersAll(items[..|items| - 1], k);
    }
  }

  lemma {:induction false} OthersConcat(a: seq<Lru.Item>, b: seq<Lru.Item>, k: Key)
    ensures Others(a + b, k) == Others(a, k) + Others(b, k)
  {
    if b == [] {
      assert a + b == a;
    } else {
      var n := |b| - 1;
      OthersConcat(a, b[..n], k);
      assert (a + b)[..|a| + n] == a + b[..n];
    }
  }

  lemma OthersAround(a: seq<Lru.Item>, x: Lru.Item, b: seq<Lru.Item>, k: Key)
    requires x.key == k && Others(a, k) == a && Others(b, k) == b
    ensures Others(a + [x] + b, k) == a + b
  {
    OthersConcat(a + [x], b, k);
    OthersConcat(a, [x], k);
    assert Others([x], k) == [] by {
      assert [x][..0] == [];
    }
    assert a + [] == a;
  }

  lemma WithoutIsOthers(c: Lru.Cache, k: Key)
    requires Lru.Ordered(c.items)
    ensures Lru.Without(c.items, k) == Others(c.items, k)
  {
    if Lru.Has(c, k) {
      var i := Lru.Index(c.items, k);
      OthersAll(c.items[..i], k);
      OthersAll(c.items[i + 1..], k);
      OthersAround(c.items[..i], c.items[i], c.items[i + 1..], k);
      assert c.items == c.items[..i] + [c.items[i]] + c.items[i + 1..];
    } else {
      OthersAll(c.items, k);
    }
  }

  /** The clock moves on and nothing else changes. */
  function Ticked(w: State, n: nat): State {
    w.(cache := w.cache.(clock := w.cache.clock + n))
  }

  /** One key is used: its item comes first, stamped with the time. */
  function Used(w: State, k: Key, v: Value): State {
    w.(cache := Lru.Cache([Lru.Item(k, v, w.cache.clock)] + Others(w.cache.items, k), w.cache.clock + 1))
  }

  lemma GetMissIs(w: State, overhead: nat, k: Key)
    requires EdgeOk(w, overhead) && k !in Lru.Keys(w.cache)
    ensures Get(w, k) == Ticked(w, 1) && UpdateIfInvalid(w, k, DELETED) == Ticked(w, 1)
    ensures forall v :: UpdateIfInvalid(w, k, v) == Ticked(w, 1)
  {
    Lru.HasIsKey(w.cache, k);
  }

  lemma GetHitIs(w: State, overhead: nat, k: Key)
    requires EdgeOk(w, overhead) && k in Lru.Keys(w.cache)
    ensures Visible(w, k).Some? && Get(w, k) == Used(w, k, Visible(w, k).value)
    ensures forall v :: UpdateIfInvalid(w, k, v) == w
  {
    Lru.HasIsKey(w.cache, k);
    WithoutIsOthers(w.cache, k);
  }

  /** How many of the most recently used items fit. */
  predicate Kept(items: seq<Lru.Item>, n: nat, overhead: nat, capacity: nat) {
    && n <= |items|
    && Lru.Bytes(items[..n]) + FLAG_BYTES * n + overhead <= capacity
    && forall m :: n < m <= |items| ==> Lru.Bytes(items[..m]) + FLAG_BYTES * m + overhead > capacity
  }

  function KeysIn(items: seq<Lru.Item>): set<Key> {
    set i | 0 <= i < |items| :: items[i].key
  }

  lemma KeysInIs(c: Lru.Cache)
    ensures KeysIn(c.items) == Lru.Keys(c)
  {
    forall k
      ensures k in KeysIn(c.items) <==> k in Lru.Keys(c)
    {
      Lru.HasIsKey(c, k);
    }
  }

  /** The edge with a new object in front and without the least recently used items that no longer fit. */
  ghost predicate Placed(w: State, w': State, k: Key, v: Value, beacon: Edge, overhead: nat, n: nat) {
    var full := [Lru.Item(k, v, w.cache.clock)] + w.cache.items;
    && Kept(full, n, overhead, w.capacity)
    && w'.cache == Lru.Cache(full[..n], w.cache.clock + 1) && w'.capacity == w.capacity
    && w'.valid == (map j | j in KeysIn(full[..n]) :: true)
    && w'.beacon == (map j | j in w.beacon[k := beacon] && j in KeysIn(full[..n]) :: w.beacon[k := beacon][j])
  }

  lemma {:induction false} EvictLoopBeacons(w: State, overhead: nat)
    requires EdgeOk(w, overhead) && EvictLoop(w, overhead).Some?
    ensures var (w', victims) := EvictLoop(w, overhead).value; w'.beacon == w.beacon - Elems(victims)
    decreases |w.cache.items|
  {
    if Fits(w, overhead) {
      assert Elems<Key>([]) == {};
    } else {
      EvictOnce(w, overhead);
      var w1 := Evict(w).value;
      EvictLoopBeacons(w1, overhead);
      var rest := EvictLoop(w1, overhead).value.1;
      BeaconsMinus(w.beacon, Lru.Tail(w.cache), rest);
    }
  }

  lemma BeaconsMinus(beacons: map<Key, Edge>, one: Key, rest: seq<Key>)
    ensures beacons - {one} - Elems(rest) == beacons - Elems([one] + rest)
  {
    assert Elems([one] + rest) == {one} + Elems(rest);
  }

  lemma LoopIsPlaced(w: State, overhead: nat, k: Key, v: Value, beacon: Edge) returns (n: nat)
    requires EdgeOk(w, overhead) && k !in Lru.Keys(w.cache) && ValidObjsize(w.capacity, k, v)
    ensures var r := EvictLoop(Admit(w, k, v, true, Some(beacon)), overhead);
            r.Some? && Placed(w, r.value.0, k, v, beacon, overhead, n)
  {
    var w1 := Admit(w, k, v, true, Some(beacon));
    AdmitEdge(w, overhead, k, v, beacon);
    Lru.HasIsKey(w.cache, k);
    EvictLoopSpec(w1, overhead);
    EvictLoopBeacons(w1, overhead);
    var (w', victims) := EvictLoop(w1, overhead).value;
    n := |w'.cache.items|;
    FitsIsPrefixFits(w', overhead);
    assert w'.cache.items[..n] == w1.cache.items[..n];
    LoopKept(w1, w', victims, overhead, n);
    LoopMaps(w, w1, w', victims, k, beacon);
  }

  lemma LoopKept(w1: State, w': State, victims: seq<Key>, overhead: nat, n: nat)
    requires Shrunk(w1, w', victims) && n == |w'.cache.items| && PrefixFits(w', overhead, n)
    requires forall m :: n < m <= |w1.cache.items| ==> !PrefixFits(w1, overhead, m)
    ensures Kept(w1.cache.items, n, overhead, w1.capacity) && w'.cache.items == w1.cache.items[..n]
  {
    assert w'.cache.items[..n] == w1.cache.items[..n];
    forall m | n < m <= |w1.cache.items|
      ensures Lru.Bytes(w1.cache.items[..m]) + FLAG_BYTES * m + overhead > w1.capacity
    {
      assert !PrefixFits(w1, overhead, m);
    }
  }

  lemma LoopMaps(w: State, w1: State, w': State, victims: seq<Key>, k: Key, beacon: Edge)
    requires w'.valid.Keys == Lru.Keys(w'.cache) && (forall j :: j in w'.valid ==> w'.valid[j])
    requires w'.beacon == w1.beacon - Elems(victims) && Lru.Keys(w'.cache) == Lru.Keys(w1.cache) - Elems(victims)
    requires w1.beacon == w.beacon[k := beacon] && w1.beacon.Keys <= Lru.Keys(w1.cache)
    ensures w'.valid == (map j | j in KeysIn(w'.cache.items) :: true)
    ensures w'.beacon ==
            (map j | j in w.beacon[k := beacon] && j in KeysIn(w'.cache.items) :: w.beacon[k := beacon][j])
  {
    KeysInIs(w'.cache);
  }

  // ---- One request ----------------------------------------------------------------------------------

  lemma AccessMiss(s: Sim, e: Edge, k: Key)
    requires SimInv(s) && e < |s.edges| && k !in Lru.Keys(s.edges[e].cache)
    ensures Access(s, e, k) == Sync(SetEdge(s, e, Ticked(s.edges[e], 1)), e)
  {
    GetMissIs(s.edges[e], s.overhead[e], k);
  }

  lemma AccessHit(s: Sim, e: Edge, k: Key)
    requires SimInv(s) && e < |s.edges| && k in Lru.Keys(s.edges[e].cache)
    ensures Visible(s.edges[e], k).Some?
    ensures Access(s, e, k) == Sync(SetEdge(s, e, Used(s.edges[e], k, Visible(s.edges[e], k).value)), e)
  {
    GetHitIs(s.edges[e], s.overhead[e], k);
  }

  /** Validation at an edge without the key moves its clock; at one with it, it changes nothing. */
  lemma ValidateIs(s: Sim, e: Edge, k: Key, v: Value, deleted: bool) returns (s': Sim)
    requires SimInv(s) && e < |s.edges|
    ensures Validate(s, e, k, v, deleted) == Some(s') && SimInv(s')
    ensures s' == Sync(SetEdge(s, e, Ticked(s.edges[e], if k in Lru.Keys(s.edges[e].cache) then 0 else 1)), e)
  {
    ValidateKeeps(s, e, k, v, deleted);
    var w' := ValidateResult(s, e, k, v, deleted);
    s' := Sync(SetEdge(s, e, w'), e);
    var w := s.edges[e];
    if k in Lru.Keys(w.cache) {
      GetHitIs(w, s.overhead[e], k);
      assert Ticked(w, 0) == w;
    } else {
      GetMissIs(w, s.overhead[e], k);
    }
  }

  /** The edges after a hit of a client of edge `e` at edge `h`. */
  function HitEdges(s: Sim, e: Edge, h: Edge, k: Key, v: Value): (r: seq<State>)
    requires e < |s.edges| && h < |s.edges|
    ensures |r| == |s.edges|
  {
    if h == e then s.edges[h := Used(s.edges[h], k, v)]
    else s.edges[e := Ticked(s.edges[e], 2)][h := Used(s.edges[h], k, v)]
  }

  /**
   A GET that hits: the one holder's item comes first, stamped with its clock; the closest edge, if it is another one,
   only moves its clock; no other edge and no directory entry changes.
   */
  lemma HitEffect(s: Sim, r: Request)
    requires SimInv(s) && LegalRequest(s, r) && r.kind == GetRequest && r.k in s.dir
    ensures Process(s, r).Some?
    ensures var o := Process(s, r).value;
            var h := Holder(s, r.k);
            && Some(o.v) == Visible(s.edges[h], r.k) && o.sim.dir == s.dir && o.sim.overhead == s.overhead
            && o.sim.vtimes.Keys == s.vtimes.Keys + {r.closest}
            && o.sim.edges == HitEdges(s, r.closest, h, r.k, o.v)
  {
    var h, e := Holder(s, r.k), r.closest;
    var found, s' := HitPlan(s, r);
    OnlyHolder(s, r.k, e);
    if h == e {
      AccessHit(s, e, r.k);
      var s1 := ValidateIs(found.sim, e, r.k, found.v, found.v.deleted);
      HitLocal(s, r, found, s1);
    } else {
      HitRemote(s, r, found, s');
    }
  }

  lemma HitLocal(s: Sim, r: Request, found: Outcome, s': Sim)
    requires SimInv(s) && LegalRequest(s, r) && r.k in s.dir && Holder(s, r.k) == r.closest
    requires Lookup(s, r) == Some(found) && SimInv(found.sim)
    requires Validate(found.sim, r.closest, r.k, found.v, found.v.deleted) == Some(s')
    ensures s'.edges == s.edges[r.closest := Used(s.edges[r.closest], r.k, found.v)]
    ensures s'.dir == s.dir && s'.overhead == s.overhead && s'.vtimes.Keys == s.vtimes.Keys + {r.closest}
  {
    var e := r.closest;
    AccessHit(s, e, r.k);
    AccessKeeps(s, e, r.k);
    var s1 := ValidateIs(found.sim, e, r.k, found.v, found.v.deleted);
    assert r.k in Holds(found.sim.edges)[e];
    LocalShape(s, found.sim, s', e, Used(s.edges[e], r.k, found.v));
  }

  lemma LocalShape(s: Sim, s1: Sim, s': Sim, e: Edge, used: State)
    requires e < |s.edges| && s1 == Sync(SetEdge(s, e, used), e)
    requires s' == Sync(SetEdge(s1, e, Ticked(s1.edges[e], 0)), e)
    ensures s'.edges == s.edges[e := used]
    ensures s'.dir == s.dir && s'.overhead == s.overhead && s'.vtimes.Keys == s.vtimes.Keys + {e}
  {
    assert Ticked(used, 0) == used;
  }

  lemma RemoteFound(s: Sim, r: Request)
    requires SimInv(s) && LegalRequest(s, r) && r.k in s.dir && Holder(s, r.k) != r.closest
    ensures var h, e := Holder(s, r.k), r.closest;
            && Visible(s.edges[h], r.k).Some?
            && Lookup(s, r) ==
               Some(Outcome(Access(Access(s, e, r.k), h, r.k), CooperativeHit, Visible(s.edges[h], r.k).value))
  {
    var h, e := Holder(s, r.k), r.closest;
    OnlyHolder(s, r.k, e);
    RemoteLookup(s, r);
    VisibleIsCached(s.edges[e], s.overhead[e], r.k);
    VisibleIsCached(s.edges[h], s.overhead[h], r.k);
    var s1 := Access(s, e, r.k);
    assert Discover(s1, e, r.k, r.pick) == Some(h);
    AccessVisible(s, e, r.k, h, r.k);
  }

  lemma RemoteAccess(s: Sim, e: Edge, h: Edge, k: Key)
    requires SimInv(s) && e < |s.edges| && h < |s.edges| && e != h
    requires k !in Lru.Keys(s.edges[e].cache) && k in Lru.Keys(s.edges[h].cache)
    ensures Visible(s.edges[h], k).Some?
    ensures var s2 := Access(Access(s, e, k), h, k);
            && SimInv(s2) && Holds(s2.edges) == Holds(s.edges) && s2.dir == s.dir && s2.overhead == s.overhead
            && s2.edges == s.edges[e := Ticked(s.edges[e], 1)][h := Used(s.edges[h], k, Visible(s.edges[h], k).value)]
            && s2.vtimes.Keys == s.vtimes.Keys + {e, h}
  {
    AccessMiss(s, e, k);
    AccessKeeps(s, e, k);
    var s1 := Access(s, e, k);
    assert s1.edges[h] == s.edges[h];
    AccessHit(s1, h, k);
    AccessKeeps(s1, h, k);
  }

  lemma HitRemote(s: Sim, r: Request, found: Outcome, s': Sim)
    requires SimInv(s) && LegalRequest(s, r) && r.k in s.dir && Holder(s, r.k) != r.closest
    requires Lookup(s, r) == Some(found) && SimInv(found.sim)
    requires Validate(found.sim, r.closest, r.k, found.v, found.v.deleted) == Some(s')
    ensures var h, e := Holder(s, r.k), r.closest;
            s'.edges == s.edges[e := Ticked(s.edges[e], 2)][h := Used(s.edges[h], r.k, found.v)]
    ensures s'.dir == s.dir && s'.overhead == s.overhead && s'.vtimes.Keys == s.vtimes.Keys + {r.closest}
  {
    var h, e := Holder(s, r.k), r.closest;
    OnlyHolder(s, r.k, e);
    RemoteFound(s, r);
    RemoteAccess(s, e, h, r.k);
    var s2 := ValidateIs(found.sim, e, r.k, found.v, found.v.deleted);
    assert r.k !in Holds(found.sim.edges)[e];
    HolderRecorded(s, r.k);
    RemoteShape(s, found.sim, s', e, h, Used(s.edges[h], r.k, found.v));
  }

  lemma RemoteShape(s: Sim, s2: Sim, s': Sim, e: Edge, h: Edge, used: State)
    requires e < |s.edges| && h < |s.edges| && e != h && h in s.vtimes
    requires s2.edges == s.edges[e := Ticked(s.edges[e], 1)][h := used] && s2.vtimes.Keys == s.vtimes.Keys + {e, h}
    requires s' == Sync(SetEdge(s2, e, Ticked(s2.edges[e], 1)), e)
    ensures s'.edges == s.edges[e := Ticked(s.edges[e], 2)][h := used]
    ensures s'.vtimes.Keys == s.vtimes.Keys + {e} && s'.dir == s2.dir && s'.overhead == s2.overhead
  {
    assert Ticked(Ticked(s.edges[e], 1), 1) == Ticked(s.edges[e], 2);
  }

  lemma HolderRecorded(s: Sim, k: Key)
    requires SimInv(s) && k in s.dir
    ensures Holder(s, k) in s.vtimes
  {
    var h := Holder(s, k);
    assert Settled(s, h);
    Lru.HasIsKey(s.edges[h].cache, k);
  }

  // ---- A GET that misses ----------------------------------------------------------------------------

  lemma {:induction false} SmallestIsFirst(vtimes: map<Edge, nat>, order: seq<Edge>) returns (i: nat)
    requires order != [] && forall x :: x in order ==> x in vtimes
    ensures i < |order| && order[i] == Smallest(vtimes, order)
    ensures forall j :: 0 <= j < i ==> vtimes[order[j]] > vtimes[order[i]]
    ensures forall j :: i <= j < |order| ==> vtimes[order[j]] >= vtimes[order[i]]
  {
    var n := |order| - 1;
    if n == 0 {
      i := 0;
    } else {
      i := SmallestIsFirst(vtimes, order[..n]);
      if vtimes[order[i]] > vtimes[order[n]] {
        i := n;
      }
    }
  }

  function VictimTime(s: Sim, e: Edge): nat {
    if e < |s.edges| then Lru.VictimVtime(s.edges[e].cache) else 0
  }

  /** The first recorded edge with the oldest victim, by the true victim times. */
  predicate OldestAt(s: Sim, order: seq<Edge>, i: nat) {
    && i < |order| && order[i] < |s.edges|
    && (forall j :: 0 <= j < i ==> VictimTime(s, order[j]) > VictimTime(s, order[i]))
    && (forall j :: i <= j < |order| ==> VictimTime(s, order[j]) >= VictimTime(s, order[i]))
  }

  lemma TrueTime(s: Sim, e: Edge)
    requires SimInv(s) && e in s.vtimes
    ensures s.vtimes[e] == VictimTime(s, e) && e < |s.edges|
  {
    assert Settled(s, e);
  }

  lemma ChosenIsOldest(s: Sim, order: seq<Edge>) returns (i: nat)
    requires SimInv(s) && order != [] && forall x :: x in order ==> x in s.vtimes
    ensures OldestAt(s, order, i) && order[i] == Smallest(s.vtimes, order)
  {
    i := SmallestIsFirst(s.vtimes, order);
    forall j | 0 <= j < |order|
      ensures s.vtimes[order[j]] == VictimTime(s, order[j]) && order[j] < |s.edges|
    {
      assert order[j] in order;
      TrueTime(s, order[j]);
    }
  }

  /** Clocks do not matter for victim times. */
  lemma OldestSame(s: Sim, s2: Sim, order: seq<Edge>, i: nat, e: Edge)
    requires e < |s.edges| && s2.edges == s.edges[e := Ticked(s.edges[e], 2)] && OldestAt(s2, order, i)
    ensures OldestAt(s, order, i)
  {
    forall a: Edge
      ensures VictimTime(s2, a) == VictimTime(s, a)
    {
    }
  }

  /** Lookup and validation of a miss move the clock of the closest edge twice. */
  lemma MissPrepared(s: Sim, r: Request) returns (s2: Sim)
    requires SimInv(s) && LegalRequest(s, r) && r.kind == GetRequest && r.k !in s.dir
    ensures Lookup(s, r) == Some(Outcome(Access(s, r.closest, r.k), GlobalMiss, r.v))
    ensures Validate(Access(s, r.closest, r.k), r.closest, r.k, r.v, r.v.deleted) == Some(s2)
    ensures SimInv(s2) && Placeable(s2, r)
    ensures s2.edges == s.edges[r.closest := Ticked(s.edges[r.closest], 2)]
    ensures s2.dir == s.dir && s2.overhead == s.overhead && s2.vtimes.Keys == s.vtimes.Keys + {r.closest}
  {
    var e := r.closest;
    OnlyHolder(s, r.k, e);
    MissLookup(s, r);
    AccessMiss(s, e, r.k);
    AccessKeeps(s, e, r.k);
    var s1 := Access(s, e, r.k);
    s2 := MissValidated(s1, r);
    var s3 := ValidateIs(s1, e, r.k, r.v, r.v.deleted);
    assert r.k !in Holds(s1.edges)[e];
    TickTwice(s, s1, s2, e);
  }

  lemma TickTwice(s: Sim, s1: Sim, s2: Sim, e: Edge)
    requires e < |s.edges| && s1 == Sync(SetEdge(s, e, Ticked(s.edges[e], 1)), e)
    requires s2 == Sync(SetEdge(s1, e, Ticked(s1.edges[e], 1)), e)
    ensures s2.edges == s.edges[e := Ticked(s.edges[e], 2)]
    ensures s2.dir == s.dir && s2.overhead == s.overhead && s2.vtimes.Keys == s.vtimes.Keys + {e}
  {
    assert Ticked(Ticked(s.edges[e], 1), 1) == Ticked(s.edges[e], 2);
  }

  lemma AdmittedIs(s: Sim, p: Edge, k: Key, v: Value, beacon: Edge) returns (w': State, n: nat, s': Sim)
    requires SimInv(s) && p < |s.edges| && ValidObjsize(s.edges[p].capacity, k, v) && k !in s.dir
    ensures AdmitInto(s, p, k, v, beacon) == Some(s') && SimInv(s')
    ensures Placed(s.edges[p], w', k, v, beacon, s.overhead[p], n)
    ensures s'.edges == s.edges[p := w'] && s'.overhead == s.overhead && s'.vtimes.Keys == s.vtimes.Keys + {p}
  {
    OnlyHolder(s, k, p);
    AdmitKeeps(s, p, k, v, beacon);
    n := LoopIsPlaced(s.edges[p], s.overhead[p], k, v, beacon);
    var w1 := Admit(s.edges[p], k, v, true, Some(beacon));
    w' := EvictLoop(w1, s.overhead[p]).value.0;
    s' := AdmitInto(s, p, k, v, beacon).value;
  }

  /** The state of an edge when the object is placed there: the closest edge has moved its clock by then. */
  function Before(s: Sim, r: Request, p: Edge): State
    requires p < |s.edges|
  {
    if p == r.closest then Ticked(s.edges[p], 2) else s.edges[p]
  }

  lemma ManageIs(s: Sim, r: Request) returns (i: nat, w': State, n: nat, s': Sim)
    requires SimInv(s) && Placeable(s, r)
    ensures Manage(s, r, GlobalMiss, r.v) == Some(Outcome(s', GlobalMiss, r.v)) && SimInv(s')
    ensures OldestAt(s, r.order, i) && r.order[i] in s.vtimes
    ensures Placed(s.edges[r.order[i]], w', r.k, r.v, r.beacon, s.overhead[r.order[i]], n)
    ensures s'.edges == s.edges[r.order[i] := w'] && s'.overhead == s.overhead && s'.vtimes.Keys == s.vtimes.Keys
  {
    OrderKnown(s, r);
    i := ChosenIsOldest(s, r.order);
    assert r.order[i] in r.order;
    w', n, s' := AdmittedIs(s, r.order[i], r.k, r.v, r.beacon);
    ManageAdmits(s, r, r.order[i], s');
  }

  lemma OrderKnown(s: Sim, r: Request)
    requires Placeable(s, r)
    ensures r.order != [] && forall x :: x in r.order ==> x in s.vtimes
  {
    assert r.closest in Elems(r.order);
    assert forall x :: x in r.order ==> x in Elems(r.order);
  }

  lemma ManageAdmits(s: Sim, r: Request, p: Edge, s': Sim)
    requires |s.edges| == |s.overhead| && r.order != [] && (forall x :: x in r.order ==> x in s.vtimes)
    requires p == Smallest(s.vtimes, r.order) && AdmitInto(s, p, r.k, r.v, r.beacon) == Some(s')
    ensures Manage(s, r, GlobalMiss, r.v) == Some(Outcome(s', GlobalMiss, r.v))
  {
  }

  /**
   A GET that misses everywhere: the object is placed at the first recorded edge with the oldest victim. There it comes
   first, and the least recently used items that no longer fit are gone; the closest edge moves its clock; nothing else
   changes at any edge.
   */
  lemma MissEffect(s: Sim, r: Request) returns (i: nat, w': State, n: nat)
    requires SimInv(s) && LegalRequest(s, r) && r.kind == GetRequest && r.k !in s.dir
    ensures Process(s, r).Some? && SimInv(Process(s, r).value.sim)
    ensures OldestAt(s, r.order, i)
    ensures Placed(Before(s, r, r.order[i]), w', r.k, r.v, r.beacon, s.overhead[r.order[i]], n)
    ensures var s' := Process(s, r).value.sim;
            && s'.edges == s.edges[r.closest := Ticked(s.edges[r.closest], 2)][r.order[i] := w']
            && s'.overhead == s.overhead && s'.vtimes.Keys == s.vtimes.Keys + {r.closest}
  {
    var s2 := MissPrepared(s, r);
    var s';
    i, w', n, s' := ManageIs(s2, r);
    OldestSame(s, s2, r.order, i, r.closest);
    MissPhases(s, r, s2, s');
  }

  lemma MissPhases(s: Sim, r: Request, s2: Sim, s': Sim)
    requires r.closest < |s.edges| == |s.overhead| && r.kind == GetRequest
    requires Lookup(s, r) == Some(Outcome(Access(s, r.closest, r.k), GlobalMiss, r.v))
    requires Validate(Access(s, r.closest, r.k), r.closest, r.k, r.v, r.v.deleted) == Some(s2)
    requires |s2.edges| == |s2.overhead| && Manage(s2, r, GlobalMiss, r.v) == Some(Outcome(s', GlobalMiss, r.v))
    ensures Process(s, r) == Some(Outcome(s', GlobalMiss, r.v))
  {
    GetPhases(s, r, Outcome(Access(s, r.closest, r.k), GlobalMiss, r.v), s2, Outcome(s', GlobalMiss, r.v));
  }

  /** A write only moves the clock of the closest edge, and only if that edge does not hold the key. */
  lemma WriteEffect(s: Sim, r: Request)
    requires SimInv(s) && LegalRequest(s, r) && r.kind != GetRequest
    ensures Process(s, r).Some?
    ensures var s' := Process(s, r).value.sim;
            var e := r.closest;
            && s'.edges == s.edges[e := Ticked(s.edges[e], if r.k in Lru.Keys(s.edges[e].cache) then 0 else 1)]
            && s'.dir == s.dir && s'.overhead == s.overhead && s'.vtimes.Keys == s.vtimes.Keys + {e}
  {
    var v := if r.kind == DelRequest then DELETED else r.v;
    var s' := ValidateIs(s, r.closest, r.k, v, r.kind == DelRequest);
    WritePhases(s, r, v, s');
  }

  // ---- What later GETs see --------------------------------------------------------------------------

  /** The object alone fits. */
  predicate HasRoom(w: State, overhead: nat, k: Key, v: Value) {
    Lru.ItemBytes(k, v) + FLAG_BYTES + overhead <= w.capacity
  }

  lemma {:induction false} BytesPrefix(items: seq<Lru.Item>, n: nat)
    requires 1 <= n <= |items|
    ensures Lru.Bytes(items[..n]) >= Lru.Bytes(items[..1]) == Lru.ItemBytes(items[0].key, items[0].value)
  {
    assert items[..1] == [items[0]] && [items[0]][1..] == [];
    assert items[..n] == [items[0]] + items[1..n];
    Lru.BytesConcat([items[0]], items[1..n]);
  }

  /** A placed object stays exactly if it alone fits. */
  lemma PlacedStaysIff(w: State, w': State, k: Key, v: Value, beacon: Edge, overhead: nat, n: nat)
    requires Placed(w, w', k, v, beacon, overhead, n)
    ensures n >= 1 <==> HasRoom(w, overhead, k, v)
  {
    var full := [Lru.Item(k, v, w.cache.clock)] + w.cache.items;
    if n == 0 {
      BytesPrefix(full, 1);
    } else {
      BytesPrefix(full, n);
    }
  }

  lemma PlacedVisible(w: State, w': State, k: Key, v: Value, beacon: Edge, overhead: nat, n: nat)
    requires EdgeOk(w, overhead) && EdgeOk(w', overhead) && Placed(w, w', k, v, beacon, overhead, n)
    ensures n >= 1 ==> Visible(w', k) == Some(v) && k in Lru.Keys(w'.cache)
  {
    if n >= 1 {
      assert w'.cache.items[0] == Lru.Item(k, v, w.cache.clock);
      Lru.StoredAt(w'.cache, 0);
      Lru.HasIsKey(w'.cache, k);
      VisibleIsCached(w', overhead, k);
    }
  }

  lemma PushedStored(c: Lru.Cache, first: Lru.Item, n: nat, clock: nat, x: Key)
    requires Lru.Ordered(c.items) && n <= |c.items| + 1 && x != first.key
    requires var c' := Lru.Cache(([first] + c.items)[..n], clock); Lru.Ordered(c'.items) && Lru.Has(c', x)
    ensures Lru.Has(c, x) && Lru.Stored(Lru.Cache(([first] + c.items)[..n], clock), x) == Lru.Stored(c, x)
  {
    var c' := Lru.Cache(([first] + c.items)[..n], clock);
    var i := Lru.Index(c'.items, x);
    assert i >= 1 && c'.items[i] == c.items[i - 1];
    Lru.StoredAt(c', i);
    Lru.StoredAt(c, i - 1);
  }

  lemma PlacedOthers(w: State, w': State, k: Key, v: Value, beacon: Edge, overhead: nat, n: nat, x: Key)
    requires EdgeOk(w, overhead) && EdgeOk(w', overhead) && Placed(w, w', k, v, beacon, overhead, n) && x != k
    ensures Visible(w', x).None? || Visible(w', x) == Visible(w, x)
  {
    if Visible(w', x).Some? {
      PushedStored(w.cache, Lru.Item(k, v, w.cache.clock), n, w.cache.clock + 1, x);
      Lru.HasIsKey(w.cache, x);
      VisibleIsCached(w, overhead, x);
    }
  }

  lemma UsedVisible(w: State, overhead: nat, k: Key, x: Key)
    requires EdgeOk(w, overhead) && k in Lru.Keys(w.cache)
    ensures Visible(w, k).Some? && Visible(Used(w, k, Visible(w, k).value), x) == Visible(w, x)
  {
    GetHitIs(w, overhead, k);
    GetEdgeVisible(w, overhead, k, x);
  }

  /** After a miss the key is known exactly if the object fits where it was placed, and then its value is visible. */
  lemma MissThenKnown(s: Sim, r: Request) returns (p: Edge)
    requires SimInv(s) && LegalRequest(s, r) && r.kind == GetRequest && r.k !in s.dir
    ensures p < |s.edges| && p in r.order && Process(s, r).Some? && SimInv(Process(s, r).value.sim)
    ensures var s' := Process(s, r).value.sim;
            && |s'.edges| == |s.edges|
            && (r.k in s'.dir <==> HasRoom(s.edges[p], s.overhead[p], r.k, r.v))
            && (r.k in s'.dir ==> Holder(s', r.k) == p && Visible(s'.edges[p], r.k) == Some(r.v))
  {
    var i, w', n := MissEffect(s, r);
    p := r.order[i];
    var s' := Process(s, r).value.sim;
    PlacedStaysIff(Before(s, r, p), w', r.k, r.v, r.beacon, s.overhead[p], n);
    PlacedKnown(s, r, s', p, w', n);
  }

  lemma PlacedKnown(s: Sim, r: Request, s': Sim, p: Edge, w': State, n: nat)
    requires SimInv(s) && SimInv(s') && r.closest < |s.edges| && p < |s.edges| && r.k !in s.dir
    requires s'.edges == s.edges[r.closest := Ticked(s.edges[r.closest], 2)][p := w'] && s'.overhead == s.overhead
    requires Placed(Before(s, r, p), w', r.k, r.v, r.beacon, s.overhead[p], n)
    ensures r.k in s'.dir <==> n >= 1
    ensures r.k in s'.dir ==> Holder(s', r.k) == p && Visible(s'.edges[p], r.k) == Some(r.v)
  {
    if n >= 1 {
      PlacedVisibleAt(s, r, s', p, w', n);
      OnlyHolder(s', r.k, p);
    } else {
      NowhereElse(s, r, s', p, w');
    }
  }

  lemma PlacedVisibleAt(s: Sim, r: Request, s': Sim, p: Edge, w': State, n: nat)
    requires Core(s) && Core(s') && p < |s.edges| && |s'.edges| == |s.edges| && s'.edges[p] == w'
    requires s'.overhead == s.overhead && n >= 1
    requires Placed(Before(s, r, p), w', r.k, r.v, r.beacon, s.overhead[p], n)
    ensures Visible(w', r.k) == Some(r.v) && r.k in Lru.Keys(w'.cache)
  {
    assert EdgeOk(s'.edges[p], s'.overhead[p]) && EdgeOk(s.edges[p], s.overhead[p]);
    PlacedVisible(Before(s, r, p), w', r.k, r.v, r.beacon, s.overhead[p], n);
  }

  lemma NowhereElse(s: Sim, r: Request, s': Sim, p: Edge, w': State)
    requires SimInv(s) && SimInv(s') && r.closest < |s.edges| && p < |s.edges| && r.k !in s.dir
    requires s'.edges == s.edges[r.closest := Ticked(s.edges[r.closest], 2)][p := w'] && w'.cache.items == []
    ensures r.k !in s'.dir
  {
    if r.k in s'.dir {
      var h := Holder(s', r.k);
      OnlyHolder(s, r.k, h);
      Lru.HasIsKey(w'.cache, r.k);
    }
  }

  /** Asking again, from any edge, is never a global miss if the object fits, and gives the value fetched before. */
  lemma RepeatHits(s: Sim, r: Request, again: Request)
    requires SimInv(s) && LegalRequest(s, r) && r.kind == GetRequest && r.k !in s.dir
    requires forall e: Edge :: e < |s.edges| ==> HasRoom(s.edges[e], s.overhead[e], r.k, r.v)
    requires Process(s, r).Some? && LegalRequest(Process(s, r).value.sim, again)
    requires again.kind == GetRequest && again.k == r.k
    ensures var s' := Process(s, r).value.sim;
            SimInv(s') && Process(s', again).Some? && Process(s', again).value.hit != GlobalMiss &&
            Process(s', again).value.v == r.v
  {
    var p := MissThenKnown(s, r);
    var s' := Process(s, r).value.sim;
    HitEffect(s', again);
    GetTheorem(s', again);
    OnlyHolder(s', r.k, p);
  }

  // ---- Runs -----------------------------------------------------------------------------------------

  /** What a key was last fetched with: the value of the last GET of it that missed everywhere. */
  ghost function NextFetch(s: Sim, r: Request, k: Key, before: Option<Value>): Option<Value>
    requires r.closest < |s.edges| == |s.overhead| && Process(s, r).Some?
  {
    if r.kind == GetRequest && r.k == k && Process(s, r).value.hit == GlobalMiss then Some(r.v) else before
  }

  ghost function LastFetch(s: Sim, rs: seq<Request>, k: Key, before: Option<Value>): Option<Value>
    decreases |rs|
  {
    if rs == [] || rs[0].closest >= |s.edges| || |s.edges| != |s.overhead| || Process(s, rs[0]).None? then before
    else LastFetch(Process(s, rs[0]).value.sim, rs[1..], k, NextFetch(s, rs[0], k, before))
  }

  /** Whatever edge caches a key shows the value the key was last fetched with. */
  ghost predicate Shows(s: Sim, k: Key, v: Option<Value>) {
    forall e: Edge {:trigger Visible(s.edges[e], k)} ::
      e < |s.edges| && Visible(s.edges[e], k).Some? ==> Visible(s.edges[e], k) == v
  }

  lemma MissShows(s: Sim, r: Request, k: Key, v: Option<Value>)
    requires SimInv(s) && LegalRequest(s, r) && r.kind == GetRequest && r.k !in s.dir && Shows(s, k, v)
    ensures Process(s, r).Some? && Shows(Process(s, r).value.sim, k, if r.k == k then Some(r.v) else v)
  {
    var i, w', n := MissEffect(s, r);
    var p, s' := r.order[i], Process(s, r).value.sim;
    forall e: Edge | e < |s'.edges| && Visible(s'.edges[e], k).Some?
      ensures Visible(s'.edges[e], k) == if r.k == k then Some(r.v) else v
    {
      assert EdgeOk(s.edges[e], s.overhead[e]) && EdgeOk(s'.edges[e], s'.overhead[e]);
      OnlyHolder(s, r.k, e);
      MissShowsAt(s, r, s', p, w', n, e, k);
    }
  }

  lemma PlacedShows(w: State, w': State, k: Key, v: Value, beacon: Edge, overhead: nat, n: nat, x: Key)
    requires EdgeOk(w, overhead) && EdgeOk(w', overhead) && Placed(w, w', k, v, beacon, overhead, n)
    requires k !in Lru.Keys(w.cache) && Visible(w', x).Some?
    ensures Visible(w', x) == if x == k then Some(v) else Visible(w, x)
  {
    if x == k {
      Lru.HasIsKey(w'.cache, k);
      PlacedVisible(w, w', k, v, beacon, overhead, n);
    } else {
      PlacedOthers(w, w', k, v, beacon, overhead, n, x);
    }
  }

  lemma MissShowsAt(s: Sim, r: Request, s': Sim, p: Edge, w': State, n: nat, e: Edge, k: Key)
    requires p < |s.edges| == |s.overhead| && r.closest < |s.edges| && e < |s.edges|
    requires s'.edges == s.edges[r.closest := Ticked(s.edges[r.closest], 2)][p := w']
    requires EdgeOk(s.edges[e], s.overhead[e]) && EdgeOk(s'.edges[e], s.overhead[e])
    requires r.k !in Lru.Keys(s.edges[e].cache)
    requires Placed(Before(s, r, p), w', r.k, r.v, r.beacon, s.overhead[p], n) && Visible(s'.edges[e], k).Some?
    ensures Visible(s'.edges[e], k) == if r.k == k then Some(r.v) else Visible(s.edges[e], k)
  {
    ClockVisible(s.edges[e], s.edges[e].cache.clock + 2, k);
    if e == p {
      PlacedShows(Before(s, r, p), w', r.k, r.v, r.beacon, s.overhead[p], n, k);
    } else {
      VisibleIsCached(s.edges[e], s.overhead[e], k);
    }
  }

  lemma HitShows(s: Sim, r: Request, k: Key, v: Option<Value>)
    requires SimInv(s) && LegalRequest(s, r) && r.kind == GetRequest && r.k in s.dir && Shows(s, k, v)
    ensures Process(s, r).Some? && Shows(Process(s, r).value.sim, k, v)
  {
    HitEffect(s, r);
    var h, s' := Holder(s, r.k), Process(s, r).value.sim;
    forall e: Edge | e < |s'.edges|
      ensures Visible(s'.edges[e], k) == Visible(s.edges[e], k)
    {
      assert EdgeOk(s.edges[h], s.overhead[h]);
      HitShowsAt(s, r.closest, h, r.k, Process(s, r).value.v, e, k);
    }
  }

  lemma HitShowsAt(s: Sim, e: Edge, h: Edge, k: Key, v: Value, a: Edge, x: Key)
    requires e < |s.edges| == |s.overhead| && h < |s.edges| && a < |s.edges| && EdgeOk(s.edges[h], s.overhead[h])
    requires k in Lru.Keys(s.edges[h].cache) && Some(v) == Visible(s.edges[h], k)
    ensures Visible(HitEdges(s, e, h, k, v)[a], x) == Visible(s.edges[a], x)
  {
    UsedVisible(s.edges[h], s.overhead[h], k, x);
    ClockVisible(s.edges[e], s.edges[e].cache.clock + 2, x);
  }

  lemma ProcessShows(s: Sim, r: Request, k: Key, v: Option<Value>) returns (s': Sim, v': Option<Value>)
    requires SimInv(s) && LegalRequest(s, r) && Shows(s, k, v)
    ensures r.closest < |s.edges| == |s.overhead|
    ensures Process(s, r).Some? && s' == Process(s, r).value.sim && v' == NextFetch(s, r, k, v)
    ensures SimInv(s') && Shows(s', k, v')
  {
    ProcessKeeps(s, r);
    s' := Process(s, r).value.sim;
    v' := NextFetch(s, r, k, v);
    if r.kind != GetRequest {
      WriteShows(s, r, k, v);
    } else if r.k in s.dir {
      HitShows(s, r, k, v);
      var found, _ := HitPlan(s, r);
    } else {
      MissShows(s, r, k, v);
      var found, _, o := MissPlan(s, r);
    }
  }

  lemma WriteShows(s: Sim, r: Request, k: Key, v: Option<Value>)
    requires SimInv(s) && LegalRequest(s, r) && r.kind != GetRequest && Shows(s, k, v)
    ensures Process(s, r).Some? && Shows(Process(s, r).value.sim, k, v)
  {
    WriteTheorem(s, r, r.closest, k);
    forall e: Edge | e < |s.edges|
      ensures Visible(Process(s, r).value.sim.edges[e], k) == Visible(s.edges[e], k)
    {
      WriteTheorem(s, r, e, k);
    }
  }

  /** Over every run a cached key has the value it was last fetched with, so that is what every hit returns. */
  lemma {:induction false} RunShows(s: Sim, rs: seq<Request>, k: Key, before: Option<Value>)
    requires SimInv(s) && LegalRun(s, rs) && Shows(s, k, before)
    ensures BestGuessRuns.Run(s, rs).Some?
    ensures Shows(BestGuessRuns.Run(s, rs).value, k, LastFetch(s, rs, k, before))
    decreases |rs|
  {
    if rs != [] {
      var s', v' := ProcessShows(s, rs[0], k, before);
      RunShows(s', rs[1..], k, v');
    }
  }
}
