/** Concrete runs of the COVERED simulator that make copies differ or break off. */
module CoveredExamples {
  import opened Types
  import opened Directory
  import opened Victims
  import opened CoveredNode
  import opened CoveredSim
  import opened CoveredRuns
  import opened CoveredMargins
  import opened CoveredOutcomes
  import opened CoveredCopies
  import EvictionCost
  import Placement
  import P = PopularityIndex

  const STILL := Move(0, 0.0, 0.0)

  /** Tracks at most one key after a fetch, with the given metadata bytes; new objects rank first. */
  function Asking(tracked: map<Key, Tracked>, meta: nat): Policy {
    Policy((e, x) => STILL, (e, x) => STILL, (e, x) => 0, (e, x) => Memory(map[], 0), (e, x) => Memory(tracked, meta),
           e => keys => 0, 0, EvictionCost.Weights(2.0, 1.0), ps => ps)
  }

  function Wanting(k: Key, v: Value): Policy {
    Asking(map[k := Tracked(1.0, |k| + v.size)], 0)
  }

  ghost predicate Calm(x: Node) {
    x.tracked == map[] && x.meta == 0
  }

  function RecordOf(c: Config, x: Node): EvictInfo {
    EvictInfo(MarginOf(c, x), Synced(x, c.synced))
  }

  // ---- A new object at an edge with room for it -----------------------------------------------------

  lemma SettleNothing(c: Config, pi: Policy, s: State, e: Edge)
    requires e < |s.edges| && Used(s.edges[e]) <= c.limits.capacity
    ensures Settle(c, pi, s, e) == Done(s.(evict := s.evict[e := RecordOf(c, s.edges[e])]))
  {
    var x := s.edges[e];
    assert x.rank[..0] == [];
    assert s.edges[e := x] == s.edges;
  }

  function Curious(x: Node, k: Key, v: Value): Node {
    x.(tracked := map[k := Tracked(1.0, |k| + v.size)])
  }

  lemma CuriousUsed(x: Node, k: Key, v: Value)
    ensures Infos(Curious(x, k, v)) == Infos(x) && Used(Curious(x, k, v)) == Used(x)
  {
    var x1 := Curious(x, k, v);
    assert Infos(x1) == Infos(x) by {
      assert forall i :: 0 <= i < |x.rank| ==> Infos(x1)[i] == Infos(x)[i];
    }
  }

  /** The miss has been learned about: the key is tracked and the edge is on record. */
  function Learned(c: Config, s: State, e: Edge, k: Key, v: Value): State
    requires e < |s.edges|
  {
    var x1 := Curious(s.edges[e], k, v);
    s.(edges := s.edges[e := x1], evict := s.evict[e := RecordOf(c, x1)])
  }

  /** The edge has room for the object, tracks nothing and does not have it. */
  ghost predicate Free(c: Config, s: State, e: Edge, k: Key, v: Value) {
    && e < |s.edges| && Calm(s.edges[e]) && CoveredNode.Wf(s.edges[e], c.limits) && k !in s.edges[e].objs
    && e !in Holders(s.dir, k) && s.index == map[] && !v.deleted && c.topk >= 1 && c.synced >= 1
    && ValidObjsize(c.limits.capacity, k, v) && Used(s.edges[e]) + |k| + v.size <= c.limits.capacity
  }

  lemma LearnedIs(c: Config, s: State, e: Edge, k: Key, v: Value)
    requires e < |s.edges| && Calm(s.edges[e]) && k !in s.edges[e].objs && !v.deleted
    requires ValidObjsize(c.limits.capacity, k, v) && Used(s.edges[e]) <= c.limits.capacity
    ensures Validate(c, Wanting(k, v), s, e, k, v) == Done(Learned(c, s, e, k, v))
  {
    var pi, x := Wanting(k, v), s.edges[e];
    var x1 := Curious(x, k, v);
    CuriousUsed(x, k, v);
    var one := map[k := Tracked(1.0, |k| + v.size)];
    assert one - x.objs.Keys - {} == one;
    assert Refresh(c, pi, x, e, k, v) == (x1, false);
    var s1 := Replace(s, e, x1);
    SettleNothing(c, pi, s1, e);
    var s2 := Settle(c, pi, s1, e).value;
    assert s2.evict[e := s2.evict[e].(margin := MarginOf(c, x1))] == s2.evict;
  }

  function Single(k: Key, objsize: nat, e: Edge): map<Key, Uncached> {
    map[k := Uncached(objsize, [P.Entry(1.0, e)])]
  }

  lemma Aggregated(s: State, e: Edge, k: Key, objsize: nat)
    requires e < |s.edges| && s.index == map[] && s.edges[e].tracked == map[k := Tracked(1.0, objsize)]
    ensures Aggregate(s, e, k) == s.(index := Single(k, objsize, e))
  {
    assert !P.HasEdge([], e);
    P.UpdateWf([], e, 1.0);
    P.InsertAt([], P.Entry(1.0, e), 0);
    assert P.Update([], e, 1.0) == [P.Entry(1.0, e)];
  }

  lemma SingleCost(c: EvictionCost.Context, e: Edge, objsize: nat, w: EvictionCost.Weights)
    requires e < |c.all| && e in c.evict && objsize <= c.evict[e].margin
    ensures EvictionCost.InBounds(c, [e])
    ensures EvictionCost.CostOf(c, [e], objsize, w) == Some(0.0)
  {
    var one: seq<Edge> := [e];
    assert one[..0] == [];
    assert EvictionCost.Pairs(c, one[..0], objsize) == Some([]);
    assert Selected(EvictionCost.Recorded(c, e), c.all[e], objsize) == Some([]);
    var pairs: seq<EvictionCost.Pair> := [];
    assert pairs + EvictionCost.PairUp(e, []) == pairs;
    assert EvictionCost.Pairs(c, one, objsize) == Some(pairs);
  }

  /** With room for the object the only candidate is chosen, whether or not the object is cached elsewhere. */
  lemma Chosen(p: Placement.Problem, e: Edge)
    requires p.top == [P.Entry(1.0, e)] && p.w == EvictionCost.Weights(2.0, 1.0)
    requires e < |p.c.all| && e in p.c.evict && p.objsize <= p.c.evict[e].margin
    ensures EvictionCost.InBounds(p.c, P.EdgesIn(p.top)) && Placement.Choose(p) == Placement.Place([e])
  {
    var edges := P.EdgesIn(p.top);
    assert edges == [e] && edges[..1] == [e];
    SingleCost(p.c, e, p.objsize, p.w);
    assert p.top[..1] == p.top;
    assert Placement.Sum(p.top) == 1.0 by {
      assert p.top[..0] == [];
    }
    var gain := if p.isGlobalCached then 1.0 else 2.0;
    assert Placement.Gain(p, 1) == Some(gain);
    var g := Placement.Gains(p);
    assert g == [Some(gain)];
    assert Placement.FirstMax(g, 0);
    Placement.ChoiceUnique(g, edges, Placement.Place([e]), Placement.Choose(p));
  }

  lemma Placed(c: Config, s: State, e: Edge, k: Key, v: Value)
    requires c.topk >= 1 && e < |s.edges| && s.index == Single(k, |k| + v.size, e)
    requires e in s.evict && |k| + v.size <= s.evict[e].margin
    ensures Place(c, Wanting(k, v), s, k) == Done([e])
  {
    var p := ProblemOf(c, Wanting(k, v), s, k);
    Chosen(p, e);
    forall i: nat | i <= |p.top|
      ensures Placement.SumHolds(p.top, i)
    {
      Placement.SplitTotal(p.top, i);
    }
  }

  /** What the edge looks like with the new object. */
  function With(x: Node, k: Key, v: Value, neighbor: bool): Node {
    x.(objs := x.objs[k := Obj(v, true, neighbor, 0.0, 0.0)], rank := [k] + x.rank)
  }

  lemma WithInfos(x: Node, k: Key, v: Value, neighbor: bool)
    requires k !in x.objs && forall i :: 0 <= i < |x.rank| ==> x.rank[i] in x.objs
    ensures Infos(With(x, k, v, neighbor)) == [VictimInfo(k, |k| + v.size, 0.0, 0.0)] + Infos(x)
  {
    var y := With(x, k, v, neighbor);
    var s, t := Infos(y), [VictimInfo(k, |k| + v.size, 0.0, 0.0)] + Infos(x);
    forall i | 0 <= i < |s|
      ensures s[i] == t[i]
    {
      if i > 0 {
        assert y.rank[i] == x.rank[i - 1] && x.rank[i - 1] in x.objs;
      }
    }
  }

  lemma BytesCons(x: VictimInfo, s: seq<VictimInfo>)
    ensures Bytes([x] + s) == x.size + Bytes(s)
  {
    BytesSplit([x] + s, 1);
    assert ([x] + s)[..1] == [x] && ([x] + s)[1..] == s && [x][..0] == [];
  }

  lemma WithUsed(x: Node, k: Key, v: Value, neighbor: bool, lim: Limits)
    requires CoveredNode.Wf(x, lim) && k !in x.objs
    ensures Used(With(x, k, v, neighbor)) == Used(x) + |k| + v.size
    ensures Infos(With(x, k, v, neighbor)) == [VictimInfo(k, |k| + v.size, 0.0, 0.0)] + Infos(x)
  {
    WithInfos(x, k, v, neighbor);
    BytesCons(VictimInfo(k, |k| + v.size, 0.0, 0.0), Infos(x));
  }

  /** The state after the object has been admitted at the edge. */
  function Cached(c: Config, s: State, e: Edge, k: Key, v: Value): State
    requires e < |s.edges|
  {
    var y := With(s.edges[e], k, v, k in s.dir);
    State(Enable(s.edges[e := y], Holders(s.dir, k), k), Add(s.dir, k, e), map[], s.evict[e := RecordOf(c, y)])
  }

  lemma NodeWith(x: Node, k: Key, v: Value, neighbor: bool)
    requires Calm(x) && k !in x.objs
    ensures Admit(Curious(x, k, v), k, v, neighbor, STILL, 0) == With(x, k, v, neighbor)
  {
    var x1, y := Curious(x, k, v), With(x, k, v, neighbor);
    assert x1.rank[..0] + [k] + x1.rank[0..] == y.rank;
    assert map[k := Tracked(1.0, |k| + v.size)] - {k} == map[];
  }

  lemma Dropped(k: Key, objsize: nat, e: Edge)
    ensures DropPop(Single(k, objsize, e), k, e) == map[]
  {
    var pops: Entries := [P.Entry(1.0, e)];
    assert P.HasEdge(pops, e) by {
      assert pops[0].edge == e;
    }
    P.WithoutAt(pops, 0);
  }

  /** Learned about and aggregated: the state in which the object is placed. */
  function Sought(c: Config, s: State, e: Edge, k: Key, v: Value): State
    requires e < |s.edges|
  {
    Learned(c, s, e, k, v).(index := Single(k, |k| + v.size, e))
  }

  lemma AdmittedIs(c: Config, s: State, e: Edge, k: Key, v: Value)
    requires Free(c, s, e, k, v)
    ensures var s1 := Sought(c, s, e, k, v);
            Admitted(Wanting(k, v), s1, k, v, e) ==
            State(s.edges[e := With(s.edges[e], k, v, k in s.dir)], Add(s.dir, k, e), map[], s1.evict)
  {
    NodeWith(s.edges[e], k, v, k in s.dir);
    Dropped(k, |k| + v.size, e);
    assert s.edges[e := Curious(s.edges[e], k, v)][e := With(s.edges[e], k, v, k in s.dir)] ==
           s.edges[e := With(s.edges[e], k, v, k in s.dir)];
  }

  lemma Introduced(c: Config, s: State, e: Edge, k: Key, v: Value)
    requires Free(c, s, e, k, v)
    ensures Introduce(c, Wanting(k, v), Sought(c, s, e, k, v), k, v, e) == Done(Cached(c, s, e, k, v))
  {
    AdmittedIs(c, s, e, k, v);
    var y := With(s.edges[e], k, v, k in s.dir);
    assert Sought(c, s, e, k, v).evict[e := RecordOf(c, y)] == s.evict[e := RecordOf(c, y)];
  }

  lemma CachedAt(c: Config, s: State, e: Edge, k: Key, v: Value)
    requires Free(c, s, e, k, v)
    ensures |Cached(c, s, e, k, v).edges| == |s.edges|
    ensures Cached(c, s, e, k, v).edges[e] == With(s.edges[e], k, v, k in s.dir)
    ensures Used(Cached(c, s, e, k, v).edges[e]) <= c.limits.capacity
  {
    WithUsed(s.edges[e], k, v, k in s.dir, c.limits);
    var orig := Holders(s.dir, k);
    assert |orig| == 1 ==> orig[0] in orig;
  }

  lemma DeployOne(c: Config, pi: Policy, s: State, e: Edge, s': State, k: Key, v: Value)
    requires e < |s.edges| && e !in Holders(s.dir, k) && ValidObjsize(c.limits.capacity, k, v)
    requires Introduce(c, pi, s, k, v, e) == Done(s') && |s'.edges| == |s.edges|
    requires e in s'.evict && s'.evict[e] == RecordOf(c, s'.edges[e]) && Used(s'.edges[e]) <= c.limits.capacity
    ensures Deploy(c, pi, s, k, v, [e]) == Done(s')
  {
    AdmitOne(c, pi, s, e, s', k, v);
    var one: seq<Edge> := [e];
    assert one[..0] == [] && one[..1] == one;
    DeployStep(c, pi, s, k, v, one, 0, s);
  }

  lemma AdmitOne(c: Config, pi: Policy, s: State, e: Edge, s': State, k: Key, v: Value)
    requires e < |s.edges| && e !in Holders(s.dir, k) && ValidObjsize(c.limits.capacity, k, v)
    requires Introduce(c, pi, s, k, v, e) == Done(s') && |s'.edges| == |s.edges|
    requires e in s'.evict && s'.evict[e] == RecordOf(c, s'.edges[e]) && Used(s'.edges[e]) <= c.limits.capacity
    ensures AdmitInto(c, pi, s, k, v, e) == Done(s')
  {
    SettleNothing(c, pi, s', e);
    assert s'.evict[e := s'.evict[e]] == s'.evict;
  }

  lemma SoughtIs(c: Config, s: State, e: Edge, k: Key, v: Value)
    requires Free(c, s, e, k, v)
    ensures Aggregate(Learned(c, s, e, k, v), e, k) == Sought(c, s, e, k, v)
  {
    Aggregated(Learned(c, s, e, k, v), e, k, |k| + v.size);
  }

  lemma PlacedAt(c: Config, s: State, e: Edge, k: Key, v: Value)
    requires Free(c, s, e, k, v)
    ensures Place(c, Wanting(k, v), Sought(c, s, e, k, v), k) == Done([e])
  {
    CuriousUsed(s.edges[e], k, v);
    assert Sought(c, s, e, k, v).evict[e] == RecordOf(c, Curious(s.edges[e], k, v));
    Placed(c, Sought(c, s, e, k, v), e, k, v);
  }

  lemma DeployedIs(c: Config, s: State, e: Edge, k: Key, v: Value)
    requires Free(c, s, e, k, v)
    ensures Deploy(c, Wanting(k, v), Sought(c, s, e, k, v), k, v, [e]) == Done(Cached(c, s, e, k, v))
  {
    Introduced(c, s, e, k, v);
    CachedAt(c, s, e, k, v);
    DeployOne(c, Wanting(k, v), Sought(c, s, e, k, v), e, Cached(c, s, e, k, v), k, v);
  }

  lemma ManageIs(c: Config, pi: Policy, s: State, e: Edge, k: Key, v: Value, s1: State, s': State)
    requires e < |s.edges| && k in s.edges[e].tracked && Aggregate(s, e, k) == s1 && pi.order([e]) == [e]
    requires Place(c, pi, s1, k) == Done([e]) && Deploy(c, pi, s1, k, v, [e]) == Done(s')
    ensures Manage(c, pi, s, e, k, v) == Done(s')
  {
  }

  lemma Managed(c: Config, s: State, e: Edge, k: Key, v: Value)
    requires Free(c, s, e, k, v)
    ensures Manage(c, Wanting(k, v), Learned(c, s, e, k, v), e, k, v) == Done(Cached(c, s, e, k, v))
  {
    SoughtIs(c, s, e, k, v);
    PlacedAt(c, s, e, k, v);
    DeployedIs(c, s, e, k, v);
    ManageIs(c, Wanting(k, v), Learned(c, s, e, k, v), e, k, v, Sought(c, s, e, k, v), Cached(c, s, e, k, v));
  }

  lemma GetIs(c: Config, pi: Policy, s: State, e: Edge, k: Key, cloud: Value, r: Reply, s1: State, s2: State)
    requires e < |s.edges| && Lookup(c, pi, s, e, k, cloud) == Done(r) && |r.state.edges| == |s.edges|
    requires Validate(c, pi, r.state, e, k, r.value) == Done(s1) && |s1.edges| == |s.edges|
    requires Manage(c, pi, s1, e, k, r.value) == Done(s2)
    ensures Get(c, pi, s, e, k, cloud) == Done(r.(state := s2))
  {
  }

  lemma Missed(c: Config, s: State, e: Edge, k: Key, v: Value)
    requires e < |s.edges| && Calm(s.edges[e]) && k !in s.edges[e].objs && k !in s.dir
    ensures Lookup(c, Wanting(k, v), s, e, k, v) == Done(Reply(s, GlobalMiss, v))
  {
    var x := s.edges[e];
    var none: map<Key, Tracked> := map[];
    assert none - x.objs.Keys == none;
    assert s.edges[e := x] == s.edges;
    assert Minus([], e) == [];
  }

  /** A GET of a new object at an edge with room for it: the object is placed there. */
  lemma GetCaches(c: Config, s: State, e: Edge, k: Key, v: Value)
    requires Free(c, s, e, k, v) && k !in s.dir
    ensures Get(c, Wanting(k, v), s, e, k, v) == Done(Reply(Cached(c, s, e, k, v), GlobalMiss, v))
  {
    Missed(c, s, e, k, v);
    LearnedIs(c, s, e, k, v);
    Managed(c, s, e, k, v);
    GetIs(c, Wanting(k, v), s, e, k, v, Reply(s, GlobalMiss, v), Learned(c, s, e, k, v), Cached(c, s, e, k, v));
  }

  /** So is the object of a write, although another edge has it. */
  lemma WriteCaches(c: Config, s: State, e: Edge, k: Key, v: Value)
    requires Free(c, s, e, k, v) && k in s.dir
    ensures Write(c, Wanting(k, v), s, e, k, v) == Done(Cached(c, s, e, k, v))
  {
    LearnedIs(c, s, e, k, v);
    Managed(c, s, e, k, v);
  }

  lemma RunSnoc(c: Config, s: State, reqs: seq<Request>, s1: State, r: Request)
    requires Run(c, s, reqs) == Done(s1) && r.e < |s1.edges|
    ensures Run(c, s, reqs + [r]) == Process(c, s1, r)
  {
    assert (reqs + [r])[..|reqs|] == reqs;
  }

  lemma RunTwo(c: Config, s0: State, r1: Request, s1: State, r2: Request)
    requires r1.e < |s0.edges| && Process(c, s0, r1) == Done(s1) && r2.e < |s1.edges|
    ensures Run(c, s0, [r1, r2]) == Process(c, s1, r2)
  {
    var none: seq<Request> := [];
    RunSnoc(c, s0, none, s0, r1);
    assert none + [r1] == [r1] && [r1] + [r2] == [r1, r2];
    RunSnoc(c, s0, [r1], s1, r2);
  }

  lemma RunThree(c: Config, s0: State, r1: Request, s1: State, r2: Request, s2: State, r3: Request)
    requires r1.e < |s0.edges| && Process(c, s0, r1) == Done(s1)
    requires r2.e < |s1.edges| && Process(c, s1, r2) == Done(s2) && r3.e < |s2.edges|
    ensures Run(c, s0, [r1, r2, r3]) == Process(c, s2, r3)
  {
    RunTwo(c, s0, r1, s1, r2);
    assert [r1, r2] + [r3] == [r1, r2, r3];
    RunSnoc(c, s0, [r1, r2], s2, r3);
  }

  // ---- Two copies of one object that differ ---------------------------------------------------------

  const K: Key := "k"
  const J: Key := "j"
  const V := Value(false, 1)
  const V2 := Value(false, 2)

  /** Room for a hundred bytes and no deleted values. */
  const HUNDRED := Config(Limits(100, false), 1, 1)

  function HasV(flag: bool): Node {
    With(Empty(0), K, V, flag)
  }

  function HasV2(): Node {
    With(Empty(0), K, V2, true)
  }

  lemma EmptyIsFree(s: State, e: Edge, v: Value)
    requires e < |s.edges| && s.edges[e] == Empty(0) && e !in Holders(s.dir, K) && s.index == map[]
    requires v == V || v == V2
    ensures Free(HUNDRED, s, e, K, v)
  {
    assert Infos(Empty(0)) == [];
  }

  lemma FirstCached(s0: State, s1: State)
    requires s0 == Init(2, 0) && s1 == Cached(HUNDRED, s0, 0, K, V)
    ensures s1.edges == [HasV(false), Empty(0)] && s1.dir == map[K := [0]] && s1.index == map[]
  {
    assert s0.edges == [Empty(0), Empty(0)];
    assert [] + [0] == [0];
  }

  lemma FirstCopy() returns (s1: State)
    ensures Process(HUNDRED, Init(2, 0), GetRequest(Wanting(K, V), 0, K, V)) == Done(s1)
    ensures s1.edges == [HasV(false), Empty(0)] && s1.dir == map[K := [0]] && s1.index == map[]
  {
    EmptyIsFree(Init(2, 0), 0, V);
    GetCaches(HUNDRED, Init(2, 0), 0, K, V);
    s1 := Cached(HUNDRED, Init(2, 0), 0, K, V);
    FirstCached(Init(2, 0), s1);
  }

  lemma SecondCached(s1: State, s2: State)
    requires s1.edges == [HasV(false), Empty(0)] && s1.dir == map[K := [0]]
    requires s2 == Cached(HUNDRED, s1, 1, K, V2)
    ensures s2.edges == [HasV(true), HasV2()]
  {
    var edges := s1.edges[1 := HasV2()];
    assert edges == [HasV(false), HasV2()];
    assert SetNeighbor(HasV(false), K, true) == HasV(true);
  }

  lemma SecondCopy(s1: State) returns (s2: State)
    requires s1.edges == [HasV(false), Empty(0)] && s1.dir == map[K := [0]] && s1.index == map[]
    ensures Process(HUNDRED, s1, WriteRequest(Wanting(K, V2), 1, K, V2)) == Done(s2)
    ensures s2.edges == [HasV(true), HasV2()]
  {
    EmptyIsFree(s1, 1, V2);
    WriteCaches(HUNDRED, s1, 1, K, V2);
    s2 := Cached(HUNDRED, s1, 1, K, V2);
    SecondCached(s1, s2);
  }

  lemma LocalAnswer(c: Config, pi: Policy, s: State, e: Edge, k: Key, cloud: Value)
    requires e < |s.edges| && Hit(s, e, k)
    ensures Answer(c, pi, s, e, k, cloud) == Copy(s, e, k)
  {
  }

  /** The two edges answer differently, whatever the policy. */
  lemma AnswersDiffer(s: State)
    requires s.edges == [HasV(true), HasV2()]
    ensures !Agree(s, K)
    ensures forall pi, cloud :: Answer(HUNDRED, pi, s, 0, K, cloud) == Some(V)
    ensures forall pi, cloud :: Answer(HUNDRED, pi, s, 1, K, cloud) == Some(V2)
  {
    assert Copy(s, 0, K) == Some(V) && Copy(s, 1, K) == Some(V2);
    forall pi: Policy, cloud: Value
      ensures Answer(HUNDRED, pi, s, 0, K, cloud) == Some(V) && Answer(HUNDRED, pi, s, 1, K, cloud) == Some(V2)
    {
      LocalAnswer(HUNDRED, pi, s, 0, K, cloud);
      LocalAnswer(HUNDRED, pi, s, 1, K, cloud);
    }
  }

  /**
   A run that makes copies differ: an object is cached at one edge, and a write by a client of the other places its new
   value there while the first edge keeps the old one. From then on the two edges answer differently.
   */
  lemma CopiesDiffer() returns (s: State)
    ensures Run(HUNDRED, Init(2, 0), [GetRequest(Wanting(K, V), 0, K, V), WriteRequest(Wanting(K, V2), 1, K, V2)]) ==
            Done(s)
    ensures |s.edges| == 2 && !Agree(s, K)
    ensures forall pi, cloud :: Answer(HUNDRED, pi, s, 0, K, cloud) == Some(V)
    ensures forall pi, cloud :: Answer(HUNDRED, pi, s, 1, K, cloud) == Some(V2)
  {
    var s1 := FirstCopy();
    s := SecondCopy(s1);
    RunTwo(HUNDRED, Init(2, 0), GetRequest(Wanting(K, V), 0, K, V), s1, WriteRequest(Wanting(K, V2), 1, K, V2));
    AnswersDiffer(s);
  }

  // ---- A single edge --------------------------------------------------------------------------------

  /** A single edge that tracks nothing. */
  function Solo(x: Node, dir: Table, evict: map<Edge, EvictInfo>): State {
    State([x], dir, map[], evict)
  }

  function Recorded(c: Config, x: Node): map<Edge, EvictInfo> {
    map[0 := RecordOf(c, x)]
  }

  function Alone(x: Node, k: Key, v: Value): Node {
    With(x, k, v, false)
  }

  lemma SoloCached(c: Config, x: Node, dir: Table, evict: map<Edge, EvictInfo>, k: Key, v: Value)
    requires k !in dir && evict.Keys <= {0}
    ensures var y := Alone(x, k, v);
            Cached(c, Solo(x, dir, evict), 0, k, v) == Solo(y, dir[k := [0]], Recorded(c, y))
  {
    var y := Alone(x, k, v);
    assert [] + [0] == [0];
    assert [x][0 := y] == [y];
    assert evict[0 := RecordOf(c, y)] == Recorded(c, y);
  }

  lemma SoloGet(c: Config, x: Node, dir: Table, evict: map<Edge, EvictInfo>, k: Key, v: Value)
    requires Free(c, Solo(x, dir, evict), 0, k, v) && k !in dir && evict.Keys <= {0}
    ensures var y := Alone(x, k, v);
            Get(c, Wanting(k, v), Solo(x, dir, evict), 0, k, v) ==
            Done(Reply(Solo(y, dir[k := [0]], Recorded(c, y)), GlobalMiss, v))
  {
    GetCaches(c, Solo(x, dir, evict), 0, k, v);
    SoloCached(c, x, dir, evict, k, v);
  }

  // ---- A deleted value, then a write ----------------------------------------------------------------

  /** Room for ten bytes; the workload has deleted values. */
  const TEN := Config(Limits(10, true), 1, 1)

  /** A fetched deleted value is learned about without an eviction, and takes metadata up to the whole capacity. */
  function Filling(): Policy {
    Asking(map[], 10)
  }

  function Full(): Node {
    Alone(Empty(0), K, V).(meta := 10)
  }

  lemma FullGet(evict: map<Edge, EvictInfo>)
    requires 0 in evict
    ensures var s := Solo(Alone(Empty(0), K, V), map[K := [0]], evict);
            var s' := Solo(Full(), map[K := [0]], evict[0 := evict[0].(margin := MarginOf(TEN, Full()))]);
            Get(TEN, Filling(), s, 0, J, DELETED) == Done(Reply(s', GlobalMiss, DELETED))
  {
    var x := Alone(Empty(0), K, V);
    var s := Solo(x, map[K := [0]], evict);
    var none: map<Key, Tracked> := map[];
    assert none - x.objs.Keys == none && none - x.objs.Keys - {} == none;
    assert s.edges[0 := x] == s.edges && Recall(x, Memory(none, 0)) == x;
    assert Minus([], 0) == [];
    assert Lookup(TEN, Filling(), s, 0, J, DELETED) == Done(Reply(s, GlobalMiss, DELETED));
    assert s.edges[0 := Full()] == [Full()];
    var s' := Solo(Full(), map[K := [0]], evict[0 := evict[0].(margin := MarginOf(TEN, Full()))]);
    assert Validate(TEN, Filling(), s, 0, J, DELETED) == Done(s');
    GetIs(TEN, Filling(), s, 0, J, DELETED, Reply(s, GlobalMiss, DELETED), s', s');
  }

  lemma LosesK(s: State)
    requires s.edges == [Full()] && s.dir == map[K := [0]]
    ensures LosesLastCopy(TEN, s, 0, K)
  {
    var x := Full();
    assert x.rank == [K] && x.objs[K] == Obj(V, true, false, 0.0, 0.0);
    var s := Infos(x);
    assert s == [VictimInfo(K, 2, 0.0, 0.0)];
    assert s[..0] == [];
    assert Bytes(s) == 2;
  }

  lemma Caching() returns (s1: State)
    ensures Process(TEN, Init(1, 0), GetRequest(Wanting(K, V), 0, K, V)) == Done(s1) && Inv(TEN, s1)
    ensures s1 == Solo(Alone(Empty(0), K, V), map[K := [0]], Recorded(TEN, Alone(Empty(0), K, V)))
  {
    var s0 := Init(1, 0);
    InitInv(TEN, 1, 0);
    assert s0 == Solo(Empty(0), map[], map[]);
    assert Infos(Empty(0)) == [];
    SoloGet(TEN, Empty(0), map[], map[], K, V);
    GetTheorem(TEN, Wanting(K, V), s0, 0, K, V);
    s1 := Solo(Alone(Empty(0), K, V), map[K := [0]], Recorded(TEN, Alone(Empty(0), K, V)));
  }

  lemma Overfilling(s1: State) returns (s2: State)
    requires s1 == Solo(Alone(Empty(0), K, V), map[K := [0]], Recorded(TEN, Alone(Empty(0), K, V))) && Inv(TEN, s1)
    ensures Process(TEN, s1, GetRequest(Filling(), 0, J, DELETED)) == Done(s2) && Inv(TEN, s2)
    ensures s2.edges == [Full()] && s2.dir == map[K := [0]]
  {
    FullGet(s1.evict);
    GetTheorem(TEN, Filling(), s1, 0, J, DELETED);
    s2 := Get(TEN, Filling(), s1, 0, J, DELETED).value.state;
  }

  lemma Losing(s2: State)
    requires s2.edges == [Full()] && s2.dir == map[K := [0]] && Inv(TEN, s2)
    ensures Process(TEN, s2, WriteRequest(Filling(), 0, K, V)) == Failed(NoDirectoryEntry)
  {
    LosesK(s2);
    WriteTheorem(TEN, Filling(), s2, 0, K, V);
  }

  /**
   A run in which a write to a known key fails: an object is cached, a deleted value fills the edge with metadata
   without an eviction, and the write's own validation then evicts the object's last copy before looking it up again.
   */
  lemma LastCopyLost()
    ensures Run(TEN, Init(1, 0), [GetRequest(Wanting(K, V), 0, K, V), GetRequest(Filling(), 0, J, DELETED),
                                  WriteRequest(Filling(), 0, K, V)]) == Failed(NoDirectoryEntry)
  {
    var s1 := Caching();
    var s2 := Overfilling(s1);
    Losing(s2);
    RunThree(TEN, Init(1, 0), GetRequest(Wanting(K, V), 0, K, V), s1, GetRequest(Filling(), 0, J, DELETED), s2,
             WriteRequest(Filling(), 0, K, V));
  }

  // ---- A search that asks for too much --------------------------------------------------------------

  const A: Key := "a"
  const B: Key := "b"
  const D: Key := "d"
  const F: Key := "f"
  const TWENTY := Value(false, 19)
  const SEVENTY := Value(false, 69)

  function Holding(x: Node, dir: Table): State {
    Solo(x, dir, Recorded(HUNDRED, x))
  }

  lemma WithWf(x: Node, k: Key, v: Value, lim: Limits)
    requires CoveredNode.Wf(x, lim) && k !in x.objs && k !in x.tracked && Admissible(lim, k, v)
    ensures CoveredNode.Wf(Alone(x, k, v), lim)
  {
    var y := Alone(x, k, v);
    assert y.rank[0] == k && forall i :: 0 < i < |y.rank| ==> y.rank[i] == x.rank[i - 1];
    forall j | j in y.objs
      ensures j in y.rank
    {
      if j != k {
        var i :| 0 <= i < |x.rank| && x.rank[i] == j;
        assert y.rank[i + 1] == j;
      }
    }
  }

  /** An edge with sixty bytes cached, forty free and one victim of twenty bytes synced is short for seventy. */
  lemma SixtyIsShort(x: Node, s: State, d: Key)
    requires x.meta == 0 && Used(x) == 60 && |x.rank| >= 1 && Infos(x)[0] == VictimInfo(d, 20, 0.0, 0.0)
    requires s.edges == [x] && s.evict == Recorded(HUNDRED, x) && s.index == Single(F, 70, 0)
    ensures SearchExits(HUNDRED, s, F)
  {
    var victims := Synced(x, 1);
    assert victims == [VictimInfo(d, 20, 0.0, 0.0)];
    assert victims[..0] == [];
    assert Bytes(victims) == 20;
    assert Short(HUNDRED, x, 70);
    assert P.TopK(s.index[F].pops, 1)[0].edge == 0;
  }

  lemma SixtyStarves(x: Node, dir: Table, d: Key)
    requires Calm(x) && Used(x) == 60 && F !in x.objs && |x.rank| >= 1 && Infos(x)[0] == VictimInfo(d, 20, 0.0, 0.0)
    ensures Starves(HUNDRED, Wanting(F, SEVENTY), Holding(x, dir), 0, F, SEVENTY)
  {
    var x1 := Curious(x, F, SEVENTY);
    CuriousUsed(x, F, SEVENTY);
    LearnedIs(HUNDRED, Holding(x, dir), 0, F, SEVENTY);
    HoldingLearned(x, dir);
    Aggregated(Holding(x1, dir), 0, F, 70);
    SixtyIsShort(x1, Holding(x1, dir).(index := Single(F, 70, 0)), d);
  }

  lemma HoldingLearned(x: Node, dir: Table)
    ensures Learned(HUNDRED, Holding(x, dir), 0, F, SEVENTY) == Holding(Curious(x, F, SEVENTY), dir)
  {
    var x1 := Curious(x, F, SEVENTY);
    assert [x][0 := x1] == [x1];
    assert Recorded(HUNDRED, x)[0 := RecordOf(HUNDRED, x1)] == Recorded(HUNDRED, x1);
  }

  lemma Starving(x: Node, dir: Table, d: Key)
    requires Kept(HUNDRED, 1, Holding(x, dir)) && Calm(x) && Used(x) == 60 && F !in x.objs && F !in dir
    requires |x.rank| >= 1 && Infos(x)[0] == VictimInfo(d, 20, 0.0, 0.0)
    ensures Process(HUNDRED, Holding(x, dir), GetRequest(Wanting(F, SEVENTY), 0, F, SEVENTY)).Exhausted?
  {
    var s := Holding(x, dir);
    Missed(HUNDRED, s, 0, F, SEVENTY);
    SixtyStarves(x, dir, d);
    WantingModest(F, SEVENTY);
    SoloRoom(s);
    StarvedExits(s, Wanting(F, SEVENTY), F, SEVENTY);
  }

  lemma WantingModest(k: Key, v: Value)
    ensures Modest(HUNDRED, Wanting(k, v))
  {
  }

  lemma SoloRoom(s: State)
    requires |s.edges| == 1 && s.edges[0].meta == 0 && Used(s.edges[0]) <= 100
    ensures Room(HUNDRED, s, {})
  {
    assert RoomAt(HUNDRED, s, {}, 0);
  }

  lemma StarvedExits(s: State, pi: Policy, k: Key, v: Value)
    requires Kept(HUNDRED, 1, s) && Room(HUNDRED, s, {}) && Modest(HUNDRED, pi) && !v.deleted
    requires Lookup(HUNDRED, pi, s, 0, k, v) == Done(Reply(s, GlobalMiss, v)) && Starves(HUNDRED, pi, s, 0, k, v)
    ensures Process(HUNDRED, s, GetRequest(pi, 0, k, v)).Exhausted?
  {
    GetOutcome(HUNDRED, pi, s, 0, k, v, {});
  }

  function Asks(k: Key): Request {
    GetRequest(Wanting(k, TWENTY), 0, k, TWENTY)
  }

  const DIR_A: Table := map[A := [0]]
  const DIR_AB: Table := map[A := [0], B := [0]]
  const DIR_ABD: Table := map[A := [0], B := [0], D := [0]]

  lemma NodeA(x1: Node)
    requires x1 == Alone(Empty(0), A, TWENTY)
    ensures Calm(x1) && CoveredNode.Wf(x1, HUNDRED.limits) && Used(x1) == 20 && x1.objs.Keys == {A}
  {
    assert Infos(Empty(0)) == [];
    WithWf(Empty(0), A, TWENTY, HUNDRED.limits);
    WithUsed(Empty(0), A, TWENTY, false, HUNDRED.limits);
  }

  lemma NodeAB(x1: Node, x2: Node)
    requires x1 == Alone(Empty(0), A, TWENTY) && x2 == Alone(x1, B, TWENTY)
    ensures Calm(x2) && CoveredNode.Wf(x2, HUNDRED.limits) && Used(x2) == 40 && x2.objs.Keys == {A, B}
  {
    NodeA(x1);
    WithWf(x1, B, TWENTY, HUNDRED.limits);
    WithUsed(x1, B, TWENTY, false, HUNDRED.limits);
  }

  lemma NodeABD(x1: Node, x2: Node, x3: Node)
    requires x1 == Alone(Empty(0), A, TWENTY) && x2 == Alone(x1, B, TWENTY) && x3 == Alone(x2, D, TWENTY)
    ensures Calm(x3) && Used(x3) == 60 && x3.objs.Keys == {A, B, D}
    ensures |x3.rank| > 0 && Infos(x3)[0] == VictimInfo(D, 20, 0.0, 0.0)
  {
    NodeAB(x1, x2);
    WithUsed(x2, D, TWENTY, false, HUNDRED.limits);
  }

  lemma GetA(x1: Node)
    requires x1 == Alone(Empty(0), A, TWENTY)
    ensures Process(HUNDRED, Init(1, 0), Asks(A)) == Done(Holding(x1, DIR_A))
  {
    assert Infos(Empty(0)) == [];
    assert Init(1, 0) == Solo(Empty(0), map[], map[]);
    SoloGet(HUNDRED, Empty(0), map[], map[], A, TWENTY);
  }

  lemma GetB(x1: Node, x2: Node)
    requires x1 == Alone(Empty(0), A, TWENTY) && x2 == Alone(x1, B, TWENTY)
    ensures Process(HUNDRED, Holding(x1, DIR_A), Asks(B)) == Done(Holding(x2, DIR_AB))
  {
    NodeA(x1);
    SoloGet(HUNDRED, x1, DIR_A, Recorded(HUNDRED, x1), B, TWENTY);
    assert DIR_A[B := [0]] == DIR_AB;
  }

  lemma GetD(x1: Node, x2: Node, x3: Node)
    requires x1 == Alone(Empty(0), A, TWENTY) && x2 == Alone(x1, B, TWENTY) && x3 == Alone(x2, D, TWENTY)
    ensures Process(HUNDRED, Holding(x2, DIR_AB), Asks(D)) == Done(Holding(x3, DIR_ABD))
  {
    NodeAB(x1, x2);
    SoloGet(HUNDRED, x2, DIR_AB, Recorded(HUNDRED, x2), D, TWENTY);
    assert DIR_AB[D := [0]] == DIR_ABD;
  }

  lemma KeptAfter(s: State, k: Key, s': State)
    requires Kept(HUNDRED, 1, s) && Process(HUNDRED, s, Asks(k)) == Done(s')
    ensures Kept(HUNDRED, 1, s')
  {
    ProcessKeeps(HUNDRED, 1, s, Asks(k));
  }

  lemma KeptThree(s0: State, s1: State, s2: State, s3: State)
    requires s0 == Init(1, 0) && Process(HUNDRED, s0, Asks(A)) == Done(s1)
    requires |s1.edges| == 1 && Process(HUNDRED, s1, Asks(B)) == Done(s2)
    requires |s2.edges| == 1 && Process(HUNDRED, s2, Asks(D)) == Done(s3)
    ensures Kept(HUNDRED, 1, s3)
  {
    InitInv(HUNDRED, 1, 0);
    KeptAfter(s0, A, s1);
    KeptAfter(s1, B, s2);
    KeptAfter(s2, D, s3);
  }

  lemma CacheThree(x1: Node, x2: Node, x3: Node)
    requires x1 == Alone(Empty(0), A, TWENTY) && x2 == Alone(x1, B, TWENTY) && x3 == Alone(x2, D, TWENTY)
    ensures Run(HUNDRED, Init(1, 0), [Asks(A), Asks(B), Asks(D)]) == Done(Holding(x3, DIR_ABD))
    ensures Kept(HUNDRED, 1, Holding(x3, DIR_ABD))
  {
    GetA(x1);
    GetB(x1, x2);
    GetD(x1, x2, x3);
    RunThree(HUNDRED, Init(1, 0), Asks(A), Holding(x1, DIR_A), Asks(B), Holding(x2, DIR_AB), Asks(D));
    KeptThree(Init(1, 0), Holding(x1, DIR_A), Holding(x2, DIR_AB), Holding(x3, DIR_ABD));
  }

  lemma FourthExits(reqs: seq<Request>, x: Node)
    requires Run(HUNDRED, Init(1, 0), reqs) == Done(Holding(x, DIR_ABD)) && Kept(HUNDRED, 1, Holding(x, DIR_ABD))
    requires Calm(x) && Used(x) == 60 && F !in x.objs && |x.rank| > 0 && Infos(x)[0] == VictimInfo(D, 20, 0.0, 0.0)
    ensures Run(HUNDRED, Init(1, 0), reqs + [GetRequest(Wanting(F, SEVENTY), 0, F, SEVENTY)]).Exhausted?
  {
    Starving(x, DIR_ABD, D);
    RunSnoc(HUNDRED, Init(1, 0), reqs, Holding(x, DIR_ABD), GetRequest(Wanting(F, SEVENTY), 0, F, SEVENTY));
  }

  lemma ThreeHeld() returns (reqs: seq<Request>, x: Node)
    ensures reqs == [Asks(A), Asks(B), Asks(D)]
    ensures Run(HUNDRED, Init(1, 0), reqs) == Done(Holding(x, DIR_ABD)) && Kept(HUNDRED, 1, Holding(x, DIR_ABD))
    ensures Calm(x) && Used(x) == 60 && F !in x.objs && |x.rank| > 0 && Infos(x)[0] == VictimInfo(D, 20, 0.0, 0.0)
  {
    var x1 := Alone(Empty(0), A, TWENTY);
    var x2 := Alone(x1, B, TWENTY);
    x := Alone(x2, D, TWENTY);
    reqs := [Asks(A), Asks(B), Asks(D)];
    CacheThree(x1, x2, x);
    NodeABD(x1, x2, x);
  }

  /** A run that exits: three objects of twenty bytes are cached, and one of seventy is asked for. */
  lemma SearchAsksTooMuch()
    ensures Run(HUNDRED, Init(1, 0),
                [Asks(A), Asks(B), Asks(D), GetRequest(Wanting(F, SEVENTY), 0, F, SEVENTY)]).Exhausted?
  {
    var reqs, x := ThreeHeld();
    FourthExits(reqs, x);
    var last := GetRequest(Wanting(F, SEVENTY), 0, F, SEVENTY);
    assert reqs + [last] == [Asks(A), Asks(B), Asks(D), last];
  }
}
