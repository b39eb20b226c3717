/** The cooperative caching simulator with COVERED at every edge, as functions over its global tables. */
module CoveredSim {
  import opened Types
  import opened Directory
  import opened Victims
  import opened CoveredNode
  import PopularityIndex
  import EvictionCost
  import Placement

  type Entries = s: seq<PopularityIndex.Entry> | PopularityIndex.Wf(s) witness []

  /** Local uncached popularities of one object. */
  datatype Uncached = Uncached(objsize: nat, pops: Entries)

  datatype State = State(edges: seq<Node>, dir: Table, index: map<Key, Uncached>, evict: map<Edge, EvictInfo>)

  datatype Config = Config(limits: Limits, synced: nat, topk: nat)

  /**
   What one request takes from reward and popularity arithmetic, from metadata sizes, from random choice and from
   the iteration order of a hash set.
   */
  datatype Policy = Policy(
    touch: (Edge, Node) -> Move,
    admit: (Edge, Node) -> Move,
    grown: (Edge, Node) -> nat,
    miss: (Edge, Node) -> Memory,
    learn: (Edge, Node) -> Memory,
    left: Edge -> set<Key> -> nat,
    pick: nat,
    weights: EvictionCost.Weights,
    order: seq<Edge> -> seq<Edge>)

  /** Assertions of the program, and uses of a missing entry. */
  datatype Failure =
    | NoEvictInfo        // margin update of an edge without eviction information
    | NotCachedAtTarget  // redirection to an edge without a valid copy
    | BadObjsize         // admission of an object that is too large
    | NoUncachedInfo     // placement of an object without uncached popularities
    | TopKTooLong
    | SumExceeded        // chosen popularity above the total
    | NoSuchEdge
    | NoDirectoryEntry   // write to a key the directory does not know

  /** Exhausted: the exit of an edge whose objects do not cover the bytes asked for. */
  datatype Outcome<+T> = Done(value: T) | Exhausted | Failed(why: Failure)

  datatype Reply = Reply(state: State, hit: Hitflag, value: Value)

  function Replace(s: State, e: Edge, x: Node): State
    requires e < |s.edges|
  {
    s.(edges := s.edges[e := x])
  }

  // ---- Victim synchronisation -----------------------------------------------------------------------

  function MarginOf(c: Config, x: Node): nat {
    if c.limits.capacity >= Used(x) then c.limits.capacity - Used(x) else 0
  }

  function SyncFull(c: Config, s: State, e: Edge): State
    requires e < |s.edges|
  {
    s.(evict := s.evict[e := EvictInfo(MarginOf(c, s.edges[e]), Synced(s.edges[e], c.synced))])
  }

  function Sync(c: Config, s: State, e: Edge, affect: bool): Outcome<State>
    requires e < |s.edges|
  {
    if affect then Done(SyncFull(c, s, e))
    else if e in s.evict then Done(s.(evict := s.evict[e := s.evict[e].(margin := MarginOf(c, s.edges[e]))]))
    else Failed(NoEvictInfo)
  }

  // ---- Access ---------------------------------------------------------------------------------------

  predicate Hit(s: State, e: Edge, k: Key)
    requires e < |s.edges|
  {
    k in s.edges[e].objs && s.edges[e].objs[k].valid
  }

  ghost function TouchAt(c: Config, pi: Policy, s: State, e: Edge, k: Key): State
    requires e < |s.edges|
  {
    var x := s.edges[e];
    var m := pi.touch(e, x);
    var s' := Replace(s, e, Touch(x, k, m));
    if TouchAffects(x, k, m, c.synced) then SyncFull(c, s', e) else s'
  }

  ghost function Access(c: Config, pi: Policy, s: State, e: Edge, k: Key): State
    requires e < |s.edges|
  {
    var x := s.edges[e];
    if k in x.objs then TouchAt(c, pi, s, e, k)
    else
      var m := pi.miss(e, x);
      Replace(s, e, Recall(x, m.(tracked := m.tracked - x.objs.Keys)))
  }

  // ---- Eviction -------------------------------------------------------------------------------------

  /** Tells the only remaining holder of each evicted key that no neighbour caches it any more. */
  function Disable(edges: seq<Node>, dir: Table, keys: seq<Key>): (r: seq<Node>)
    ensures |r| == |edges|
  {
    if keys == [] then edges
    else
      var r := Disable(edges, dir, keys[..|keys| - 1]);
      var k := keys[|keys| - 1];
      var l := Holders(dir, k);
      if |l| == 1 && l[0] < |r| then r[l[0] := SetNeighbor(r[l[0]], k, false)] else r
  }

  ghost function Settled(c: Config, pi: Policy, s: State, e: Edge, m: nat): State
    requires e < |s.edges| && m <= |s.edges[e].rank|
  {
    var keys := s.edges[e].rank[..m];
    var s' := Replace(s, e, Shrunk(s.edges[e], m, pi.left(e))).(dir := RemoveAll(s.dir, keys, e));
    var s'' := SyncFull(c, s', e);
    s''.(edges := Disable(s''.edges, s''.dir, keys))
  }

  ghost function Settle(c: Config, pi: Policy, s: State, e: Edge): (r: Outcome<State>)
    requires e < |s.edges|
    ensures r.Done? ==> |r.value.edges| == |s.edges|
  {
    var m := EvictCount(s.edges[e], c.limits.capacity);
    if m.None? then Exhausted else Done(Settled(c, pi, s, e, m.value))
  }

  // ---- Validation -----------------------------------------------------------------------------------

  function ValueOf(x: Node, k: Key): Value
    requires k in x.objs
  {
    x.objs[k].value
  }

  /** An invalid copy takes the fetched value, an uncached object may be tracked, and a valid copy stays as it is. */
  ghost function Refresh(c: Config, pi: Policy, x: Node, e: Edge, k: Key, v: Value): (Node, bool) {
    if k in x.objs then
      if x.objs[k].valid || !ValidObjsize(c.limits.capacity, k, v) then (x, false)
      else
        var y := x.(objs := x.objs[k := x.objs[k].(value := v, valid := true)]);
        var m := pi.touch(e, y);
        (Touch(y, k, m), TouchAffects(y, k, m, c.synced))
    else
      var rejected := if ValidObjsize(c.limits.capacity, k, v) then {} else {k};
      var m := pi.learn(e, x);
      (Recall(x, m.(tracked := m.tracked - x.objs.Keys - rejected)), false)
  }

  /** A deleted value does not trigger eviction. */
  ghost function SettleAndSync(c: Config, pi: Policy, s: State, e: Edge, deleted: bool, affect: bool)
    : (r: Outcome<State>)
    requires e < |s.edges|
    ensures r.Done? ==> |r.value.edges| == |s.edges|
  {
    var s' := if deleted then Done(s) else Settle(c, pi, s, e);
    if s'.Done? then Sync(c, s'.value, e, affect) else s'
  }

  ghost function Validate(c: Config, pi: Policy, s: State, e: Edge, k: Key, v: Value): (r: Outcome<State>)
    requires e < |s.edges|
    ensures r.Done? ==> |r.value.edges| == |s.edges|
  {
    var (x, affect) := Refresh(c, pi, s.edges[e], e, k, v);
    SettleAndSync(c, pi, Replace(s, e, x), e, v.deleted, affect)
  }

  // ---- Popularity aggregation -----------------------------------------------------------------------

  ghost function AddPop(index: map<Key, Uncached>, k: Key, e: Edge, t: Tracked): map<Key, Uncached> {
    var pops: Entries := if k in index then index[k].pops else [];
    PopularityIndex.UpdateWf(pops, e, t.pop);
    index[k := Uncached(t.objsize, PopularityIndex.Update(pops, e, t.pop))]
  }

  ghost function DropPop(index: map<Key, Uncached>, k: Key, e: Edge): map<Key, Uncached> {
    if k !in index then index
    else
      PopularityIndex.WithoutWf(index[k].pops, e);
      var pops: Entries := PopularityIndex.Without(index[k].pops, e);
      if pops == [] then index - {k} else index[k := index[k].(pops := pops)]
  }

  ghost function Aggregate(s: State, e: Edge, k: Key): State
    requires e < |s.edges|
  {
    if k in s.edges[e].tracked then s.(index := AddPop(s.index, k, e, s.edges[e].tracked[k]))
    else s.(index := DropPop(s.index, k, e))
  }

  // ---- Placement ------------------------------------------------------------------------------------

  function ContextOf(s: State): EvictionCost.Context {
    EvictionCost.Context(s.evict, seq(|s.edges|, i requires 0 <= i < |s.edges| => Infos(s.edges[i])), s.dir)
  }

  function ProblemOf(c: Config, pi: Policy, s: State, k: Key): Placement.Problem
    requires k in s.index
  {
    Placement.Problem(ContextOf(s), PopularityIndex.TopK(s.index[k].pops, c.topk), s.index[k].objsize, k in s.dir,
                      pi.weights)
  }

  /** Some iteration of the search is reached and fails its assertion on the sums. */
  ghost predicate SumFails(p: Placement.Problem)
    requires EvictionCost.InBounds(p.c, PopularityIndex.EdgesIn(p.top))
  {
    exists i: nat :: 1 <= i <= |p.top| && !Placement.SumHolds(p.top, i) &&
                     forall j :: 1 <= j < i ==> Placement.Gain(p, j).Some?
  }

  /** The edges to cache the object at; none if no prefix has a positive gain. */
  ghost function Place(c: Config, pi: Policy, s: State, k: Key): Outcome<seq<Edge>> {
    if k !in s.index then Failed(NoUncachedInfo)
    else
      var p := ProblemOf(c, pi, s, k);
      if |p.top| > c.topk then Failed(TopKTooLong)
      else if !EvictionCost.InBounds(p.c, PopularityIndex.EdgesIn(p.top)) then Failed(NoSuchEdge)
      else if SumFails(p) then Failed(SumExceeded)
      else
        match Placement.Choose(p)
        case Exit => Exhausted
        case Nothing => Done([])
        case Place(edges) => Done(edges)
  }

  // ---- Admission ------------------------------------------------------------------------------------

  function Enable(edges: seq<Node>, orig: seq<Edge>, k: Key): (r: seq<Node>)
    ensures |r| == |edges|
  {
    if |orig| == 1 && orig[0] < |edges| then edges[orig[0] := SetNeighbor(edges[orig[0]], k, true)] else edges
  }

  ghost function Admitted(pi: Policy, s: State, k: Key, v: Value, p: Edge): State
    requires p < |s.edges|
  {
    var x := s.edges[p];
    var y := Admit(x, k, v, k in s.dir, pi.admit(p, x), pi.grown(p, x));
    State(s.edges[p := y], Add(s.dir, k, p), DropPop(s.index, k, p), s.evict)
  }

  /** Admission up to the notification of a single previous holder. */
  ghost function Introduce(c: Config, pi: Policy, s: State, k: Key, v: Value, p: Edge): (r: Outcome<State>)
    requires p < |s.edges|
    ensures r.Done? ==> |r.value.edges| == |s.edges|
  {
    var x := s.edges[p];
    var r := Sync(c, Admitted(pi, s, k, v, p), p, AdmitAffects(x, k, pi.admit(p, x), c.synced));
    if r.Done? then Done(r.value.(edges := Enable(r.value.edges, Holders(s.dir, k), k))) else r
  }

  ghost function AdmitInto(c: Config, pi: Policy, s: State, k: Key, v: Value, p: Edge): Outcome<State> {
    if p >= |s.edges| then Failed(NoSuchEdge)
    else if p in Holders(s.dir, k) then Done(s)
    else if !ValidObjsize(c.limits.capacity, k, v) then Failed(BadObjsize)
    else
      var r := Introduce(c, pi, s, k, v, p);
      if r.Done? then Settle(c, pi, r.value, p) else r
  }

  ghost function Deploy(c: Config, pi: Policy, s: State, k: Key, v: Value, ps: seq<Edge>): Outcome<State>
    decreases |ps|
  {
    if ps == [] then Done(s)
    else
      var r := Deploy(c, pi, s, k, v, ps[..|ps| - 1]);
      if r.Done? then AdmitInto(c, pi, r.value, k, v, ps[|ps| - 1]) else r
  }

  /** The placement edges in the order the hash set yields them. */
  function Arrange(pi: Policy, ps: seq<Edge>): (r: seq<Edge>)
    ensures multiset(r) == multiset(ps)
  {
    if multiset(pi.order(ps)) == multiset(ps) then pi.order(ps) else ps
  }

  ghost function PlaceThenDeploy(c: Config, pi: Policy, s: State, k: Key, v: Value): Outcome<State> {
    match Place(c, pi, s, k)
    case Failed(why) => Failed(why)
    case Exhausted => Exhausted
    case Done(ps) => Deploy(c, pi, s, k, v, Arrange(pi, ps))
  }

  ghost function Manage(c: Config, pi: Policy, s: State, e: Edge, k: Key, v: Value): Outcome<State>
    requires e < |s.edges|
  {
    var s1 := Aggregate(s, e, k);
    if k in s.edges[e].tracked then PlaceThenDeploy(c, pi, s1, k, v) else Done(s1)
  }

  // ---- Requests -------------------------------------------------------------------------------------

  /** Validation and cache management; a write looks its key up in the directory in between. */
  ghost function Finish(c: Config, pi: Policy, s: State, e: Edge, k: Key, v: Value, isWrite: bool): Outcome<State>
    requires e < |s.edges|
  {
    var s1 := Validate(c, pi, s, e, k, v);
    if !s1.Done? then s1
    else if isWrite && k !in s1.value.dir then Failed(NoDirectoryEntry)
    else Manage(c, pi, s1.value, e, k, v)
  }

  /** Content discovery and redirection to one of the other holders; without one the backend answers. */
  ghost function Remote(c: Config, pi: Policy, s: State, e: Edge, k: Key, cloud: Value): (r: Outcome<Reply>)
    ensures r.Done? ==> |r.value.state.edges| == |s.edges|
  {
    var others := Minus(Holders(s.dir, k), e);
    if others == [] then Done(Reply(s, GlobalMiss, cloud))
    else
      var t := others[pi.pick % |others|];
      if t >= |s.edges| then Failed(NoSuchEdge)
      else if !Hit(s, t, k) then Failed(NotCachedAtTarget)
      else Done(Reply(TouchAt(c, pi, s, t, k), CooperativeHit, ValueOf(s.edges[t], k)))
  }

  /** Local access for the client of edge `e`, then the others; `cloud` is the backend's value. */
  ghost function Lookup(c: Config, pi: Policy, s: State, e: Edge, k: Key, cloud: Value): (r: Outcome<Reply>)
    requires e < |s.edges|
    ensures r.Done? ==> |r.value.state.edges| == |s.edges|
  {
    var s1 := Access(c, pi, s, e, k);
    if Hit(s, e, k) then Done(Reply(s1, LocalHit, ValueOf(s.edges[e], k))) else Remote(c, pi, s1, e, k, cloud)
  }

  ghost function Get(c: Config, pi: Policy, s: State, e: Edge, k: Key, cloud: Value): Outcome<Reply>
    requires e < |s.edges|
  {
    var r := Lookup(c, pi, s, e, k, cloud);
    if !r.Done? then r
    else
      match Finish(c, pi, r.value.state, e, k, r.value.value, false)
      case Done(s) => Done(r.value.(state := s))
      case Exhausted => Exhausted
      case Failed(why) => Failed(why)
  }

  /** A PUT, or a DEL when the value is deleted. */
  ghost function Write(c: Config, pi: Policy, s: State, e: Edge, k: Key, v: Value): Outcome<State>
    requires e < |s.edges|
  {
    if k !in s.dir then Failed(NoDirectoryEntry) else Finish(c, pi, s, e, k, v, true)
  }
}
