/** How requests and whole runs of the COVERED simulator end. */
module CoveredOutcomes {
  import opened Types
  import opened Directory
  import opened Victims
  import opened CoveredNode
  import opened CoveredSim
  import opened CoveredRuns
  import opened CoveredMargins
  import EvictionCost
  import Placement
  import P = PopularityIndex

  // ---- Room -----------------------------------------------------------------------------------------

  /** Metadata alone always fits; edges that may be over capacity are named. */
  ghost predicate RoomAt(c: Config, s: State, over: set<Edge>, e: Edge)
    requires e < |s.edges|
  {
    s.edges[e].meta <= c.limits.capacity && (e !in over ==> Used(s.edges[e]) <= c.limits.capacity)
  }

  ghost predicate Room(c: Config, s: State, over: set<Edge>) {
    forall e: Edge {:trigger RoomAt(c, s, over, e)} :: e < |s.edges| ==> RoomAt(c, s, over, e)
  }

  /** Metadata never takes more than the capacity. */
  ghost predicate Modest(c: Config, pi: Policy) {
    && (forall e: Edge, x: Node :: pi.miss(e, x).meta <= c.limits.capacity)
    && (forall e: Edge, x: Node :: pi.learn(e, x).meta <= c.limits.capacity)
    && (forall e: Edge, x: Node :: pi.grown(e, x) <= c.limits.capacity)
  }

  lemma RoomSame(c: Config, s: State, s': State, over: set<Edge>)
    requires Room(c, s, over) && |s'.edges| == |s.edges|
    requires forall a: Edge :: a < |s.edges| ==>
               s'.edges[a].meta == s.edges[a].meta && Used(s'.edges[a]) == Used(s.edges[a])
    ensures Room(c, s', over)
  {
    forall a: Edge | a < |s'.edges|
      ensures RoomAt(c, s', over, a)
    {
      assert RoomAt(c, s, over, a);
    }
  }

  lemma RoomReplace(c: Config, s: State, e: Edge, y: Node, over: set<Edge>)
    requires Room(c, s, over) && e < |s.edges| && y.meta <= c.limits.capacity
    ensures Room(c, Replace(s, e, y), over + {e})
    ensures Used(y) <= c.limits.capacity ==> Room(c, Replace(s, e, y), over - {e})
  {
    var s' := Replace(s, e, y);
    forall a: Edge | a < |s'.edges|
      ensures RoomAt(c, s', over + {e}, a)
      ensures Used(y) <= c.limits.capacity ==> RoomAt(c, s', over - {e}, a)
    {
      assert RoomAt(c, s, over, a);
    }
  }

  lemma RoomTouch(c: Config, pi: Policy, s: State, e: Edge, k: Key, over: set<Edge>)
    requires Room(c, s, over) && e < |s.edges|
    ensures Room(c, TouchAt(c, pi, s, e, k), over)
  {
    var x := s.edges[e];
    var y := Touch(x, k, pi.touch(e, x));
    var s' := TouchAt(c, pi, s, e, k);
    TouchUsed(x, k, pi.touch(e, x));
    assert s'.edges == s.edges[e := y] && y.meta == x.meta;
    forall a: Edge | a < |s'.edges|
      ensures RoomAt(c, s', over, a)
    {
      assert RoomAt(c, s, over, a);
    }
  }

  lemma RoomAccess(c: Config, pi: Policy, s: State, e: Edge, k: Key, over: set<Edge>)
    requires Room(c, s, over) && Modest(c, pi) && e < |s.edges|
    ensures Room(c, Access(c, pi, s, e, k), over + {e})
  {
    var x := s.edges[e];
    if k in x.objs {
      RoomTouch(c, pi, s, e, k, over);
      RoomMore(c, TouchAt(c, pi, s, e, k), over, over + {e});
    } else {
      var m := pi.miss(e, x);
      RoomReplace(c, s, e, Recall(x, m.(tracked := m.tracked - x.objs.Keys)), over);
    }
  }

  lemma RoomMore(c: Config, s: State, over: set<Edge>, more: set<Edge>)
    requires Room(c, s, over) && over <= more
    ensures Room(c, s, more)
  {
    forall a: Edge | a < |s.edges|
      ensures RoomAt(c, s, more, a)
    {
      assert RoomAt(c, s, over, a);
    }
  }

  /** Eviction never runs out of objects, and its edge fits afterwards. */
  lemma RoomSettle(c: Config, pi: Policy, s: State, e: Edge, over: set<Edge>)
    requires Room(c, s, over) && InvBut(c, s, Some(e)) && e < |s.edges|
    ensures Settle(c, pi, s, e).Done? && Room(c, Settle(c, pi, s, e).value, over - {e})
  {
    var x := s.edges[e];
    assert RoomAt(c, s, over, e) && NodeOk(c, s, e);
    EvictCountExists(x, c.limits.capacity);
    var m := EvictCount(x, c.limits.capacity).value;
    var y := Shrunk(x, m, pi.left(e));
    EvictCountFits(x, c.limits.capacity, pi.left(e));
    RoomReplace(c, s, e, y, over);
    SettledKeeps(c, pi, s, e, m);
    var s1, s2 := Replace(s, e, y), Settled(c, pi, s, e, m);
    ShrunkWf(x, m, pi.left(e), c.limits);
    forall a: Edge | a < |s.edges|
      ensures s2.edges[a].meta == s1.edges[a].meta && Used(s2.edges[a]) == Used(s1.edges[a])
    {
      assert NodeOk(c, s, a);
      SameButFlagsWf(s1.edges[a], s2.edges[a], c.limits, c.synced);
    }
    RoomSame(c, s1, s2, over - {e});
  }

  lemma RoomRefresh(c: Config, pi: Policy, s: State, e: Edge, k: Key, v: Value, over: set<Edge>)
    requires Inv(c, s) && Room(c, s, over) && Modest(c, pi) && e < |s.edges|
    ensures Room(c, Replace(s, e, Refresh(c, pi, s.edges[e], e, k, v).0), over + {e})
  {
    var x := s.edges[e];
    assert NodeOk(c, s, e) && RoomAt(c, s, over, e);
    RoomReplace(c, s, e, Refresh(c, pi, x, e, k, v).0, over);
  }

  /** Validation never runs out of objects; only a deleted value can leave its edge over capacity. */
  lemma RoomValidate(c: Config, pi: Policy, s: State, e: Edge, k: Key, v: Value, over: set<Edge>)
    requires Inv(c, s) && Room(c, s, over) && Modest(c, pi) && e < |s.edges|
    ensures !Validate(c, pi, s, e, k, v).Exhausted?
    ensures Validate(c, pi, s, e, k, v).Done? ==>
              Room(c, Validate(c, pi, s, e, k, v).value, if v.deleted then over + {e} else over - {e})
  {
    var s1 := Replace(s, e, Refresh(c, pi, s.edges[e], e, k, v).0);
    RefreshKeeps(c, pi, s, e, k, v);
    RoomRefresh(c, pi, s, e, k, v, over);
    if v.deleted {
      RoomSync(c, s1, e, over + {e});
    } else {
      OpenHole(c, s1, e);
      RoomSettle(c, pi, s1, e, over + {e});
      var s2 := Settle(c, pi, s1, e).value;
      assert over + {e} - {e} == over - {e};
      RoomSync(c, s2, e, over - {e});
    }
  }

  lemma RoomSync(c: Config, s: State, e: Edge, over: set<Edge>)
    requires Room(c, s, over) && e < |s.edges|
    ensures Sync(c, s, e, false).Done? ==> Room(c, Sync(c, s, e, false).value, over)
  {
    if Sync(c, s, e, false).Done? {
      RoomSame(c, s, Sync(c, s, e, false).value, over);
    }
  }

  lemma RoomIntroduce(c: Config, pi: Policy, s: State, k: Key, v: Value, p: Edge, over: set<Edge>)
    requires Inv(c, s) && Room(c, s, over) && Modest(c, pi) && Candidate(s, k, p) && Admissible(c.limits, k, v)
    ensures Introduce(c, pi, s, k, v, p).Done? ==> Room(c, Introduce(c, pi, s, k, v, p).value, over + {p})
  {
    var x := s.edges[p];
    var y := Admit(x, k, v, k in s.dir, pi.admit(p, x), pi.grown(p, x));
    RoomReplace(c, s, p, y, over);
    var s0 := Replace(s, p, y);
    var s1 := AdmittedSync(c, pi, s, k, v, p);
    var s2 := Introduce(c, pi, s, k, v, p).value;
    assert s1.edges == s0.edges;
    forall a: Edge | a < |s.edges|
      ensures s2.edges[a].meta == s0.edges[a].meta && Used(s2.edges[a]) == Used(s0.edges[a])
    {
      EnableSpec(s1.edges, Holders(s.dir, k), k, a);
      assert NodeOk(c, s1, a);
      SameButFlagsWf(s1.edges[a], s2.edges[a], c.limits, c.synced);
    }
    RoomSame(c, s0, s2, over + {p});
  }

  lemma RoomAdmit(c: Config, pi: Policy, s: State, k: Key, v: Value, p: Edge, over: set<Edge>)
    requires Inv(c, s) && Room(c, s, over) && Modest(c, pi) && Candidate(s, k, p) && Admissible(c.limits, k, v)
    ensures AdmitInto(c, pi, s, k, v, p).Done? && Room(c, AdmitInto(c, pi, s, k, v, p).value, over)
  {
    var s1 := AdmitIntoIs(c, pi, s, k, v, p);
    RoomIntroduce(c, pi, s, k, v, p, over);
    OpenHole(c, s1, p);
    RoomSettle(c, pi, s1, p, over + {p});
    RoomMore(c, Settle(c, pi, s1, p).value, over + {p} - {p}, over);
  }

  /** Deployment always goes through. */
  lemma {:induction false} RoomDeploy(c: Config, pi: Policy, s: State, k: Key, v: Value, ps: seq<Edge>, n: nat,
                                      over: set<Edge>) returns (s': State)
    requires Inv(c, s) && Room(c, s, over) && Modest(c, pi)
    requires Candidates(s, k, ps) && Admissible(c.limits, k, v) && n <= |ps|
    ensures Deploy(c, pi, s, k, v, ps[..n]) == Done(s') && Room(c, s', over)
  {
    if n == 0 {
      s' := s;
    } else {
      var s1 := RoomDeploy(c, pi, s, k, v, ps, n - 1, over);
      DeployKeeps(c, pi, s, k, v, ps, n - 1);
      RoomAdmit(c, pi, s1, k, v, ps[n - 1], over);
      DeployStep(c, pi, s, k, v, ps, n - 1, s1);
      s' := AdmitInto(c, pi, s1, k, v, ps[n - 1]).value;
    }
  }

  // ---- When the placement search exits --------------------------------------------------------------

  /**
   The edge's synchronised victims do not cover what its free bytes leave open, and all its objects together are
   smaller than the new object: more victims are fetched for the whole object, not for what is required.
   */
  ghost predicate Short(c: Config, x: Node, objsize: nat) {
    && Bytes(Synced(x, c.synced)) < Required(objsize, MarginOf(c, x))
    && Bytes(Infos(x)) < objsize
  }

  ghost predicate SearchExits(c: Config, s: State, k: Key) {
    k in s.index &&
    exists i :: 0 <= i < |P.TopK(s.index[k].pops, c.topk)| &&
                P.TopK(s.index[k].pops, c.topk)[i].edge < |s.edges| &&
                Short(c, s.edges[P.TopK(s.index[k].pops, c.topk)[i].edge], s.index[k].objsize)
  }

  lemma SelectedIsShort(c: Config, s: State, p: Edge, objsize: nat)
    requires Inv(c, s) && Margins(c, s, {}) && p < |s.edges| && p in s.evict
    ensures Selected(EvictionCost.Recorded(ContextOf(s), p), ContextOf(s).all[p], objsize).None? <==>
            Short(c, s.edges[p], objsize)
  {
    assert EvictAt(c, s, p) && MarginAt(c, s, {}, p);
    var all := Infos(s.edges[p]);
    var n := |s.evict[p].victims|;
    assert s.evict[p].victims == all[..n];
    SelectedIsShortest(s.evict[p], all, objsize, n);
  }

  lemma PlaceExhaustedIff(c: Config, pi: Policy, s: State, k: Key)
    requires Inv(c, s) && Margins(c, s, {}) && k in s.index && c.topk >= 1
    ensures Place(c, pi, s, k).Exhausted? <==> SearchExits(c, s, k)
  {
    var p := ProblemOf(c, pi, s, k);
    PlaceKeeps(c, pi, s, k);
    ProblemIsSolvable(c, pi, s, k);
    NoSumFails(p);
    P.TopKSize(s.index[k].pops, c.topk);
    Placement.ChooseExitIff(p);
    TopIsCandidates(c, pi, s, k);
    forall i | 0 <= i < |p.top|
      ensures Selected(EvictionCost.Recorded(p.c, p.top[i].edge), p.c.all[p.top[i].edge], p.objsize).None? <==>
              p.top[i].edge < |s.edges| && Short(c, s.edges[p.top[i].edge], p.objsize)
    {
      assert Candidate(s, k, P.EdgesIn(p.top)[i]);
      SelectedIsShort(c, s, p.top[i].edge, p.objsize);
    }
  }

  /** Cache management ends early exactly when the search does. */
  lemma RoomManage(c: Config, pi: Policy, s: State, e: Edge, k: Key, v: Value, over: set<Edge>)
    requires Inv(c, s) && Room(c, s, over) && Modest(c, pi) && e < |s.edges| && e in s.evict && c.topk >= 1
    requires Margins(c, s, {})
    requires k in s.edges[e].tracked ==> Admissible(c.limits, k, v)
    ensures Manage(c, pi, s, e, k, v).Exhausted? <==>
            k in s.edges[e].tracked && SearchExits(c, Aggregate(s, e, k), k)
    ensures Manage(c, pi, s, e, k, v).Done? ==> Room(c, Manage(c, pi, s, e, k, v).value, over)
  {
    var s1 := Aggregate(s, e, k);
    AggregateKeeps(c, s, e, k);
    RoomSame(c, s, s1, over);
    MarginsSame(c, s, s1, {});
    if k in s.edges[e].tracked {
      PlaceKeeps(c, pi, s1, k);
      PlaceExhaustedIff(c, pi, s1, k);
      var r := Place(c, pi, s1, k);
      if r.Done? {
        var qs := Arrange(pi, r.value);
        ArrangeCandidates(s1, k, r.value, qs);
        var s2 := RoomDeploy(c, pi, s1, k, v, qs, |qs|, over);
        assert qs[..|qs|] == qs;
      }
    }
  }

  // ---- Requests -------------------------------------------------------------------------------------

  /** The state in which the placement search runs, if it does. */
  ghost function Searched(c: Config, pi: Policy, s: State, e: Edge, k: Key, v: Value): Option<State>
    requires e < |s.edges|
  {
    var r := Validate(c, pi, s, e, k, v);
    if r.Done? && k in r.value.edges[e].tracked then Some(Aggregate(r.value, e, k)) else None
  }

  ghost predicate Starves(c: Config, pi: Policy, s: State, e: Edge, k: Key, v: Value)
    requires e < |s.edges|
  {
    var s1 := Searched(c, pi, s, e, k, v);
    s1.Some? && SearchExits(c, s1.value, k)
  }

  lemma FinishOutcome(c: Config, pi: Policy, s: State, e: Edge, k: Key, v: Value, over: set<Edge>)
    requires Inv(c, s) && Room(c, s, over) && Modest(c, pi) && e < |s.edges| && c.topk >= 1
    requires Margins(c, s, {e}) && (v.deleted ==> c.limits.deletes)
    ensures Finish(c, pi, s, e, k, v, false).Exhausted? <==> Starves(c, pi, s, e, k, v)
    ensures Finish(c, pi, s, e, k, v, false).Done? ==>
              Room(c, Finish(c, pi, s, e, k, v, false).value, if v.deleted then over + {e} else over - {e})
  {
    ValidateKeeps(c, pi, s, e, k, v);
    RoomValidate(c, pi, s, e, k, v, over);
    var r := Validate(c, pi, s, e, k, v);
    if r.Done? {
      MarginsValidate(c, pi, s, e, k, v, {e});
      assert {e} - {e} == {};
      RoomManage(c, pi, r.value, e, k, v, if v.deleted then over + {e} else over - {e});
      FinishIsManage(c, pi, s, e, k, v, r.value);
    }
  }

  lemma FinishIsManage(c: Config, pi: Policy, s: State, e: Edge, k: Key, v: Value, s1: State)
    requires e < |s.edges| && Validate(c, pi, s, e, k, v) == Done(s1)
    ensures Finish(c, pi, s, e, k, v, false) == Manage(c, pi, s1, e, k, v)
    ensures Starves(c, pi, s, e, k, v) <==> k in s1.edges[e].tracked && SearchExits(c, Aggregate(s1, e, k), k)
  {
  }

  lemma LookupRoom(c: Config, pi: Policy, s: State, e: Edge, k: Key, cloud: Value, over: set<Edge>)
    requires Inv(c, s) && Room(c, s, over) && Modest(c, pi) && e < |s.edges|
    ensures Lookup(c, pi, s, e, k, cloud).Done? && Room(c, Lookup(c, pi, s, e, k, cloud).value.state, over + {e})
  {
    var r, at := LookupKeeps(c, pi, s, e, k, cloud);
    var s1 := Access(c, pi, s, e, k);
    RoomAccess(c, pi, s, e, k, over);
    AccessKeeps(c, pi, s, e, k);
    if !Hit(s, e, k) && Minus(Holders(s1.dir, k), e) != [] {
      var others := Minus(Holders(s1.dir, k), e);
      RoomTouch(c, pi, s1, others[pi.pick % |others|], k, over + {e});
    }
  }

  /** A GET ends as what follows its lookup. */
  lemma GetIsFinish(c: Config, pi: Policy, s: State, e: Edge, k: Key, cloud: Value, r: Reply)
    requires e < |s.edges| && Lookup(c, pi, s, e, k, cloud) == Done(r)
    ensures var f := Finish(c, pi, r.state, e, k, r.value, false);
            && (Get(c, pi, s, e, k, cloud).Exhausted? <==> f.Exhausted?)
            && (Get(c, pi, s, e, k, cloud).Done? <==> f.Done?)
            && (f.Done? ==> Get(c, pi, s, e, k, cloud).value.state == f.value)
  {
  }

  lemma GetRoom(c: Config, pi: Policy, s: State, e: Edge, k: Key, cloud: Value, over: set<Edge>, r: Reply)
    requires e < |s.edges| && Lookup(c, pi, s, e, k, cloud) == Done(r) && Get(c, pi, s, e, k, cloud).Done?
    requires Inv(c, r.state) && Room(c, r.state, over + {e}) && Modest(c, pi) && e < |r.state.edges| && c.topk >= 1
    requires Margins(c, r.state, {e}) && (r.value.deleted ==> c.limits.deletes)
    ensures Room(c, Get(c, pi, s, e, k, cloud).value.state, if r.value.deleted then over + {e} else over - {e})
  {
    FinishOutcome(c, pi, r.state, e, k, r.value, over + {e});
    GetIsFinish(c, pi, s, e, k, cloud, r);
    assert over + {e} + {e} == over + {e} && over + {e} - {e} == over - {e};
  }

  /** A GET runs out of objects exactly when its placement search meets a short edge. */
  lemma GetOutcome(c: Config, pi: Policy, s: State, e: Edge, k: Key, cloud: Value, over: set<Edge>)
    requires Inv(c, s) && Room(c, s, over) && Modest(c, pi) && e < |s.edges| && c.topk >= 1
    requires Margins(c, s, {}) && (cloud.deleted ==> c.limits.deletes)
    ensures Lookup(c, pi, s, e, k, cloud).Done?
    ensures var r := Lookup(c, pi, s, e, k, cloud).value;
            && (Get(c, pi, s, e, k, cloud).Exhausted? <==> Starves(c, pi, r.state, e, k, r.value))
            && (Get(c, pi, s, e, k, cloud).Done? ==>
                 Room(c, Get(c, pi, s, e, k, cloud).value.state, if r.value.deleted then over + {e} else over - {e}))
  {
    var r, at := LookupKeeps(c, pi, s, e, k, cloud);
    LookupRoom(c, pi, s, e, k, cloud, over);
    MarginsLookup(c, pi, s, e, k, cloud);
    FinishOutcome(c, pi, r.state, e, k, r.value, over + {e});
    GetIsFinish(c, pi, s, e, k, cloud, r);
    if Get(c, pi, s, e, k, cloud).Done? {
      GetRoom(c, pi, s, e, k, cloud, over, r);
    }
  }

  /** An edge within capacity evicts nothing, so a write to a key it holds alone keeps that key. */
  lemma FitsKeepsCopy(c: Config, s: State, e: Edge, k: Key, over: set<Edge>)
    requires Room(c, s, over) && e < |s.edges| && e !in over
    ensures !LosesLastCopy(c, s, e, k)
  {
    assert RoomAt(c, s, over, e);
  }

  /** A write at an edge within capacity fails exactly on an unknown key. */
  lemma WriteOutcome(c: Config, pi: Policy, s: State, e: Edge, k: Key, v: Value, over: set<Edge>)
    requires Inv(c, s) && Room(c, s, over) && Modest(c, pi) && e < |s.edges| && c.topk >= 1 && !v.deleted && e !in over
    requires Margins(c, s, {})
    ensures Write(c, pi, s, e, k, v).Failed? <==> k !in s.dir
    ensures Write(c, pi, s, e, k, v).Exhausted? <==> k in s.dir && Starves(c, pi, s, e, k, v)
    ensures Write(c, pi, s, e, k, v).Done? ==> Room(c, Write(c, pi, s, e, k, v).value, over)
  {
    WriteTheorem(c, pi, s, e, k, v);
    FitsKeepsCopy(c, s, e, k, over);
    if k in s.dir {
      WriteIsFinish(c, pi, s, e, k, v);
      MarginsMore(c, s, {}, {e});
      FinishOutcome(c, pi, s, e, k, v, over);
      assert over - {e} == over;
    }
  }

  // ---- Runs -----------------------------------------------------------------------------------------

  datatype Request =
    | GetRequest(pi: Policy, e: Edge, k: Key, cloud: Value)
    | WriteRequest(pi: Policy, e: Edge, k: Key, v: Value)

  /** Empty edges; `base` is the metadata an empty edge has. */
  function Init(n: nat, base: nat): State {
    State(seq(n, i => Empty(base)), map[], map[], map[])
  }

  lemma InitInv(c: Config, n: nat, base: nat)
    ensures Inv(c, Init(n, base)) && Margins(c, Init(n, base), {})
    ensures base <= c.limits.capacity ==> Room(c, Init(n, base), {})
  {
    var s := Init(n, base);
    assert forall a: Edge :: a < n ==> Holds(s.edges)[a] == {};
    forall a: Edge | a < n
      ensures EvictAt(c, s, a) && NodeOk(c, s, a) && Used(s.edges[a]) == base
    {
      assert Infos(s.edges[a]) == [];
    }
  }

  ghost function Process(c: Config, s: State, req: Request): Outcome<State>
    requires req.e < |s.edges|
  {
    match req
    case GetRequest(pi, e, k, cloud) =>
      (match Get(c, pi, s, e, k, cloud)
       case Done(r) => Done(r.state)
       case Exhausted => Exhausted
       case Failed(why) => Failed(why))
    case WriteRequest(pi, e, k, v) => Write(c, pi, s, e, k, v)
  }

  ghost function Run(c: Config, s: State, reqs: seq<Request>): Outcome<State> {
    if reqs == [] then Done(s)
    else
      var r := Run(c, s, reqs[..|reqs| - 1]);
      if !r.Done? then r
      else if reqs[|reqs| - 1].e >= |r.value.edges| then Failed(NoSuchEdge)
      else Process(c, r.value, reqs[|reqs| - 1])
  }

  /** Deleted values come only where the limits allow for them. */
  predicate Admits(c: Config, n: nat, req: Request) {
    req.e < n && ((if req.GetRequest? then req.cloud.deleted else req.v.deleted) ==> c.limits.deletes)
  }

  /** What a request keeps when it goes through, with or without deleted values. */
  ghost predicate Kept(c: Config, n: nat, s: State) {
    Inv(c, s) && Margins(c, s, {}) && |s.edges| == n
  }

  lemma ProcessKeeps(c: Config, n: nat, s: State, req: Request)
    requires c.topk >= 1 && Kept(c, n, s) && Admits(c, n, req)
    ensures Process(c, s, req).Done? ==> Kept(c, n, Process(c, s, req).value)
  {
    if Process(c, s, req).Done? {
      match req
      case GetRequest(pi, e, k, cloud) =>
        GetTheorem(c, pi, s, e, k, cloud);
        GetMargins(c, pi, s, e, k, cloud);
      case WriteRequest(pi, e, k, v) =>
        WriteTheorem(c, pi, s, e, k, v);
        WriteMargins(c, pi, s, e, k, v);
    }
  }

  /** Over every run, deleted values included, each request that goes through leaves the whole invariant. */
  lemma {:induction false} RunKeeps(c: Config, n: nat, base: nat, reqs: seq<Request>)
    requires c.topk >= 1 && forall i :: 0 <= i < |reqs| ==> Admits(c, n, reqs[i])
    ensures Run(c, Init(n, base), reqs).Done? ==> Kept(c, n, Run(c, Init(n, base), reqs).value)
  {
    if reqs == [] {
      InitInv(c, n, base);
    } else {
      var m := |reqs| - 1;
      assert forall i :: 0 <= i < m ==> reqs[..m][i] == reqs[i];
      RunKeeps(c, n, base, reqs[..m]);
      var r := Run(c, Init(n, base), reqs[..m]);
      if r.Done? {
        ProcessKeeps(c, n, r.value, reqs[m]);
      }
    }
  }

  /** Requests come from clients of existing edges, without deleted values, and metadata stays within capacity. */
  ghost predicate Legal(c: Config, n: nat, req: Request) {
    req.e < n && Modest(c, req.pi) && !(if req.GetRequest? then req.cloud.deleted else req.v.deleted)
  }

  /** The request is a write to a key the directory does not know. */
  predicate Unknown(s: State, req: Request) {
    req.WriteRequest? && req.k !in s.dir
  }

  /** The request's placement search meets a short edge. */
  ghost predicate Starved(c: Config, s: State, req: Request)
    requires req.e < |s.edges|
  {
    match req
    case GetRequest(pi, e, k, cloud) =>
      var r := Lookup(c, pi, s, e, k, cloud);
      r.Done? && Starves(c, pi, r.value.state, e, k, r.value.value)
    case WriteRequest(pi, e, k, v) => Starves(c, pi, s, e, k, v)
  }

  ghost predicate Good(c: Config, n: nat, s: State) {
    Kept(c, n, s) && Room(c, s, {})
  }

  /** How one request ends: exactly one of three ways, each by a condition on where it starts. */
  lemma ProcessOutcome(c: Config, n: nat, s: State, req: Request)
    requires c.topk >= 1 && !c.limits.deletes && Good(c, n, s) && Legal(c, n, req)
    ensures Process(c, s, req).Failed? <==> Unknown(s, req)
    ensures Process(c, s, req).Failed? ==> Process(c, s, req).why == NoDirectoryEntry
    ensures Process(c, s, req).Exhausted? <==> !Unknown(s, req) && Starved(c, s, req)
    ensures Process(c, s, req).Done? ==> Good(c, n, Process(c, s, req).value)
  {
    if Process(c, s, req).Done? {
      ProcessKeeps(c, n, s, req);
    }
    match req
    case GetRequest(pi, e, k, cloud) =>
      var r, at := LookupKeeps(c, pi, s, e, k, cloud);
      GetTheorem(c, pi, s, e, k, cloud);
      GetOutcome(c, pi, s, e, k, cloud, {});
      assert {} - {e} == {};
    case WriteRequest(pi, e, k, v) =>
      WriteTheorem(c, pi, s, e, k, v);
      WriteOutcome(c, pi, s, e, k, v, {});
  }

  /** What a request meets in the state the run has reached. */
  datatype Verdict = Fine | UnknownKey | ShortEdge | NotReached

  ghost function VerdictOf(c: Config, r: Outcome<State>, req: Request): Verdict {
    if !r.Done? then NotReached
    else if Unknown(r.value, req) then UnknownKey
    else if req.e < |r.value.edges| && Starved(c, r.value, req) then ShortEdge
    else Fine
  }

  /** The verdict on each request of a run, in the state before that request. */
  ghost function Verdicts(c: Config, s: State, reqs: seq<Request>): (v: seq<Verdict>)
    ensures |v| == |reqs|
  {
    if reqs == [] then []
    else
      var shorter := reqs[..|reqs| - 1];
      Verdicts(c, s, shorter) + [VerdictOf(c, Run(c, s, shorter), reqs[|reqs| - 1])]
  }

  /** How a run ends, by what its requests meet. */
  ghost predicate Judged(c: Config, n: nat, r: Outcome<State>, verdicts: seq<Verdict>) {
    && (r.Done? ==> Good(c, n, r.value))
    && (r.Done? <==> forall v :: v in verdicts ==> v == Fine)
    && (r.Failed? <==> UnknownKey in verdicts)
    && (r.Failed? ==> r.why == NoDirectoryEntry)
    && (r.Exhausted? <==> ShortEdge in verdicts)
  }

  /** How a run goes on after it got as far as `r`. */
  ghost predicate Follows(c: Config, n: nat, r: Outcome<State>, r': Outcome<State>, v: Verdict) {
    if !r.Done? then r' == r && v == NotReached
    else
      && (r'.Done? <==> v == Fine) && (r'.Failed? <==> v == UnknownKey) && (r'.Exhausted? <==> v == ShortEdge)
      && (r'.Failed? ==> r'.why == NoDirectoryEntry)
      && (r'.Done? ==> Good(c, n, r'.value))
  }

  lemma JudgedMore(c: Config, n: nat, r: Outcome<State>, verdicts: seq<Verdict>, r': Outcome<State>, v: Verdict)
    requires Judged(c, n, r, verdicts) && Follows(c, n, r, r', v)
    ensures Judged(c, n, r', verdicts + [v])
  {
    assert forall x :: x in verdicts + [v] <==> x in verdicts || x == v;
  }

  /**
   Over every run of requests without deleted values no assertion of the program fails and every state keeps the
   invariant with every edge within capacity. The run fails exactly when it reaches a write to a key the directory does
   not know, and exits exactly when it reaches a placement search with a short edge.
   */
  lemma {:induction false} RunTheorem(c: Config, n: nat, base: nat, reqs: seq<Request>)
    requires c.topk >= 1 && !c.limits.deletes && base <= c.limits.capacity
    requires forall i :: 0 <= i < |reqs| ==> Legal(c, n, reqs[i])
    ensures Judged(c, n, Run(c, Init(n, base), reqs), Verdicts(c, Init(n, base), reqs))
  {
    if reqs == [] {
      InitInv(c, n, base);
    } else {
      var m := |reqs| - 1;
      var shorter := reqs[..m];
      assert forall i :: 0 <= i < m ==> shorter[i] == reqs[i];
      RunTheorem(c, n, base, shorter);
      RunMore(c, n, Init(n, base), reqs, m);
    }
  }

  lemma RunMore(c: Config, n: nat, s: State, reqs: seq<Request>, m: nat)
    requires c.topk >= 1 && !c.limits.deletes && |reqs| == m + 1 && Legal(c, n, reqs[m])
    requires Judged(c, n, Run(c, s, reqs[..m]), Verdicts(c, s, reqs[..m]))
    ensures Judged(c, n, Run(c, s, reqs), Verdicts(c, s, reqs))
  {
    var r := Run(c, s, reqs[..m]);
    var v := VerdictOf(c, r, reqs[m]);
    if r.Done? {
      ProcessOutcome(c, n, r.value, reqs[m]);
    }
    assert Follows(c, n, r, Run(c, s, reqs), v);
    JudgedMore(c, n, r, Verdicts(c, s, reqs[..m]), Run(c, s, reqs), v);
  }

  /** A run that has ended early stays ended. */
  lemma {:induction false} RunStops(c: Config, s: State, reqs: seq<Request>, i: nat, r: Outcome<State>)
    requires i <= |reqs| && Run(c, s, reqs[..i]) == r && !r.Done?
    ensures Run(c, s, reqs) == r
    decreases |reqs| - i
  {
    if i == |reqs| {
      assert reqs[..i] == reqs;
    } else {
      assert reqs[..i + 1][..i] == reqs[..i];
      RunStops(c, s, reqs, i + 1, r);
    }
  }

  /** A first GET of a deleted value fails: the edge has no record yet. */
  lemma DeletedFirst(c: Config, pi: Policy, n: nat, base: nat, k: Key)
    requires n > 0
    ensures Process(c, Init(n, base), GetRequest(pi, 0, k, DELETED)) == Failed(NoEvictInfo)
  {
    assert Minus(Holders(Init(n, base).dir, k), 0) == [];
  }
}
