/**
 What the popularity tables of the COVERED simulator hold, told from the requests of a run: for each object and edge the
 popularity the edge last reported, unless it has reported the object untracked or admitted it since.
 */
module CoveredIndex {
  import opened Types
  import opened Directory
  import opened CoveredNode
  import opened CoveredSim
  import opened CoveredRuns
  import opened CoveredMargins
  import opened CoveredOutcomes
  import opened CoveredCopies
  import P = PopularityIndex

  /** What a request tells about an object at an edge. */
  datatype Report =
    | Tracks(e: Edge, k: Key, pop: Popularity, objsize: nat)
    | Ignores(e: Edge, k: Key)
    | Caches(e: Edge, k: Key)

  /** The popularity last reported, if nothing has overtaken it. */
  function Known(h: seq<Report>, k: Key, a: Edge): Option<real> {
    if h == [] then None
    else
      var r := h[|h| - 1];
      if r.e == a && r.k == k then (if r.Tracks? then Some(r.pop) else None) else Known(h[..|h| - 1], k, a)
  }

  /** The size last reported. */
  function LastSize(h: seq<Report>, k: Key): Option<nat> {
    if h == [] then None
    else
      var r := h[|h| - 1];
      if r.Tracks? && r.k == k then Some(r.objsize) else LastSize(h[..|h| - 1], k)
  }

  /** Report `j` is the last one about the object at the edge. */
  predicate LastAt(h: seq<Report>, k: Key, a: Edge, j: nat) {
    && j < |h| && h[j].e == a && h[j].k == k
    && forall i :: j < i < |h| ==> h[i].e != a || h[i].k != k
  }

  lemma {:induction false} KnownIff(h: seq<Report>, k: Key, a: Edge, q: real)
    ensures Known(h, k, a) == Some(q) <==> exists j: nat :: LastAt(h, k, a, j) && h[j].Tracks? && h[j].pop == q
  {
    if h != [] {
      var n := |h| - 1;
      if h[n].e == a && h[n].k == k {
        assert LastAt(h, k, a, n);
        assert forall j: nat :: LastAt(h, k, a, j) ==> j == n;
      } else {
        KnownIff(h[..n], k, a, q);
        forall j: nat
          ensures LastAt(h, k, a, j) <==> LastAt(h[..n], k, a, j)
        {
          LastShorter(h, k, a, j);
        }
      }
    }
  }

  lemma LastShorter(h: seq<Report>, k: Key, a: Edge, j: nat)
    requires h != [] && (h[|h| - 1].e != a || h[|h| - 1].k != k)
    ensures LastAt(h, k, a, j) <==> LastAt(h[..|h| - 1], k, a, j)
  {
    var n := |h| - 1;
    assert forall i :: 0 <= i < n ==> h[..n][i] == h[i];
    if LastAt(h[..n], k, a, j) {
      forall i | j < i < |h|
        ensures h[i].e != a || h[i].k != k
      {
        assert i < n ==> h[..n][i] == h[i];
      }
    }
  }

  lemma KnownMore(h: seq<Report>, r: Report, k: Key, a: Edge)
    ensures Known(h + [r], k, a) ==
            if r.e == a && r.k == k then (if r.Tracks? then Some(r.pop) else None) else Known(h, k, a)
    ensures LastSize(h + [r], k) == if r.Tracks? && r.k == k then Some(r.objsize) else LastSize(h, k)
  {
    assert (h + [r])[..|h|] == h;
  }

  // ---- The tables -----------------------------------------------------------------------------------

  ghost function PopAt(index: map<Key, Uncached>, k: Key, a: Edge): Option<real> {
    if k in index && P.HasEdge(index[k].pops, a) then Some(P.PopOf(index[k].pops, a)) else None
  }

  ghost predicate KnownAt(index: map<Key, Uncached>, h: seq<Report>, k: Key, a: Edge) {
    PopAt(index, k, a) == Known(h, k, a)
  }

  ghost predicate Tells(index: map<Key, Uncached>, h: seq<Report>) {
    && (forall k: Key, a: Edge {:trigger KnownAt(index, h, k, a)} :: KnownAt(index, h, k, a))
    && (forall k :: k in index ==> Some(index[k].objsize) == LastSize(h, k))
  }

  lemma AddPopTells(index: map<Key, Uncached>, h: seq<Report>, k: Key, e: Edge, t: Tracked)
    requires Tells(index, h)
    ensures Tells(AddPop(index, k, e, t), h + [Tracks(e, k, t.pop, t.objsize)])
  {
    var index', h' := AddPop(index, k, e, t), h + [Tracks(e, k, t.pop, t.objsize)];
    var pops: Entries := if k in index then index[k].pops else [];
    forall j: Key, a: Edge
      ensures KnownAt(index', h', j, a)
    {
      assert KnownAt(index, h, j, a);
      KnownMore(h, Tracks(e, k, t.pop, t.objsize), j, a);
      if j == k {
        P.UpdatePop(pops, e, t.pop, a);
      }
    }
    forall j | j in index'
      ensures Some(index'[j].objsize) == LastSize(h', j)
    {
      KnownMore(h, Tracks(e, k, t.pop, t.objsize), j, e);
    }
  }

  lemma DropPopTells(index: map<Key, Uncached>, h: seq<Report>, k: Key, e: Edge, r: Report)
    requires Tells(index, h) && !r.Tracks? && r.e == e && r.k == k
    ensures Tells(DropPop(index, k, e), h + [r])
  {
    var index', h' := DropPop(index, k, e), h + [r];
    forall j: Key, a: Edge
      ensures KnownAt(index', h', j, a)
    {
      assert KnownAt(index, h, j, a);
      KnownMore(h, r, j, a);
      if j == k && k in index {
        P.WithoutPop(index[k].pops, e, a);
      }
    }
    forall j | j in index'
      ensures Some(index'[j].objsize) == LastSize(h', j)
    {
      KnownMore(h, r, j, e);
    }
  }

  // ---- Requests -------------------------------------------------------------------------------------

  function Admissions(ps: seq<Edge>, k: Key): seq<Report> {
    if ps == [] then [] else Admissions(ps[..|ps| - 1], k) + [Caches(ps[|ps| - 1], k)]
  }

  /** What the closest edge tells about the object once the request has been validated. */
  function Told(s: State, e: Edge, k: Key): Report
    requires e < |s.edges|
  {
    if k in s.edges[e].tracked then Tracks(e, k, s.edges[e].tracked[k].pop, s.edges[e].tracked[k].objsize)
    else Ignores(e, k)
  }

  /** All that a request tells: first its closest edge, then every edge the object is placed at. */
  ghost function Trace(c: Config, pi: Policy, s: State, e: Edge, k: Key, v: Value): seq<Report>
    requires e < |s.edges|
  {
    var r := Validate(c, pi, s, e, k, v);
    if !r.Done? then [] else [Told(r.value, e, k)] + Admissions(Placements(c, pi, s, e, k, v), k)
  }

  lemma AdmitIntoIndex(c: Config, pi: Policy, s: State, k: Key, v: Value, p: Edge)
    requires Inv(c, s) && Candidate(s, k, p) && Admissible(c.limits, k, v) && AdmitInto(c, pi, s, k, v, p).Done?
    ensures AdmitInto(c, pi, s, k, v, p).value.index == DropPop(s.index, k, p)
  {
    var s1 := AdmitIntoIs(c, pi, s, k, v, p);
    var s0 := AdmittedSync(c, pi, s, k, v, p);
    OpenHole(c, s1, p);
    SettleKeeps(c, pi, s1, p);
  }

  lemma DeployTellsAt(c: Config, pi: Policy, s: State, k: Key, v: Value, ps: seq<Edge>, n: nat, s1: State,
                      h: seq<Report>) returns (s': State)
    requires Inv(c, s) && Candidates(s, k, ps) && Admissible(c.limits, k, v) && n < |ps|
    requires Deploy(c, pi, s, k, v, ps[..n]) == Done(s1) && Tells(s1.index, h + Admissions(ps[..n], k))
    requires Deploy(c, pi, s, k, v, ps[..n + 1]).Done?
    ensures Deploy(c, pi, s, k, v, ps[..n + 1]) == Done(s') && Tells(s'.index, h + Admissions(ps[..n + 1], k))
  {
    var s0 := DeployBefore(c, pi, s, k, v, ps, n);
    DeployKeeps(c, pi, s, k, v, ps, n);
    s' := AdmitInto(c, pi, s1, k, v, ps[n]).value;
    AdmitIntoIndex(c, pi, s1, k, v, ps[n]);
    DropPopTells(s1.index, h + Admissions(ps[..n], k), k, ps[n], Caches(ps[n], k));
    AdmissionsMore(ps, n, k, h);
  }

  lemma AdmissionsMore(ps: seq<Edge>, n: nat, k: Key, h: seq<Report>)
    requires n < |ps|
    ensures h + Admissions(ps[..n + 1], k) == h + Admissions(ps[..n], k) + [Caches(ps[n], k)]
  {
    assert ps[..n + 1][..n] == ps[..n];
  }

  lemma DeployTells(c: Config, pi: Policy, s: State, k: Key, v: Value, ps: seq<Edge>, h: seq<Report>)
    requires Inv(c, s) && Candidates(s, k, ps) && Admissible(c.limits, k, v) && Deploy(c, pi, s, k, v, ps).Done?
    requires Tells(s.index, h)
    ensures Tells(Deploy(c, pi, s, k, v, ps).value.index, h + Admissions(ps, k))
  {
    var s' := s;
    assert ps[..|ps|] == ps && h + [] == h;
    for n := 0 to |ps|
      invariant Deploy(c, pi, s, k, v, ps[..n]) == Done(s') && Tells(s'.index, h + Admissions(ps[..n], k))
    {
      DeployedSoFar(c, pi, s, k, v, ps, n + 1);
      s' := DeployTellsAt(c, pi, s, k, v, ps, n, s', h);
    }
  }

  lemma AggregateTells(s: State, e: Edge, k: Key, h: seq<Report>)
    requires e < |s.edges| && Tells(s.index, h)
    ensures Tells(Aggregate(s, e, k).index, h + [Told(s, e, k)])
  {
    if k in s.edges[e].tracked {
      AddPopTells(s.index, h, k, e, s.edges[e].tracked[k]);
    } else {
      DropPopTells(s.index, h, k, e, Ignores(e, k));
    }
  }

  /** Cache management of a tracked object is aggregation, search and deployment. */
  lemma ManageDeploys(c: Config, pi: Policy, s: State, e: Edge, k: Key, v: Value, ps: seq<Edge>)
    requires Inv(c, s) && e < |s.edges| && e in s.evict && c.topk >= 1 && k in s.edges[e].tracked
    requires var r := Place(c, pi, Aggregate(s, e, k), k); ps == if r.Done? then Arrange(pi, r.value) else []
    requires Manage(c, pi, s, e, k, v).Done?
    ensures var s1 := Aggregate(s, e, k);
            Inv(c, s1) && Candidates(s1, k, ps) && Manage(c, pi, s, e, k, v) == Deploy(c, pi, s1, k, v, ps)
  {
    var s1 := Aggregate(s, e, k);
    AggregateKeeps(c, s, e, k);
    PlaceKeeps(c, pi, s1, k);
    ArrangeCandidates(s1, k, Place(c, pi, s1, k).value, ps);
  }

  lemma InOrder(h: seq<Report>, r: Report, rest: seq<Report>)
    ensures h + ([r] + rest) == h + [r] + rest
  {
  }

  /** The search and the deployment start from tables that hold what the closest edge has told. */
  lemma TrackedTells(c: Config, pi: Policy, s: State, e: Edge, k: Key, v: Value, h: seq<Report>, ps: seq<Edge>)
    requires Inv(c, s) && e < |s.edges| && e in s.evict && c.topk >= 1 && k in s.edges[e].tracked
    requires Admissible(c.limits, k, v) && Manage(c, pi, s, e, k, v).Done? && Tells(s.index, h)
    requires var r := Place(c, pi, Aggregate(s, e, k), k); ps == if r.Done? then Arrange(pi, r.value) else []
    ensures Tells(Manage(c, pi, s, e, k, v).value.index, h + [Told(s, e, k)] + Admissions(ps, k))
  {
    ManageDeploys(c, pi, s, e, k, v, ps);
    DeployTold(c, pi, s, e, k, v, h, ps);
  }

  lemma DeployTold(c: Config, pi: Policy, s: State, e: Edge, k: Key, v: Value, h: seq<Report>, ps: seq<Edge>)
    requires e < |s.edges| && Admissible(c.limits, k, v) && Tells(s.index, h)
    requires Inv(c, Aggregate(s, e, k)) && Candidates(Aggregate(s, e, k), k, ps)
    requires Deploy(c, pi, Aggregate(s, e, k), k, v, ps).Done?
    ensures Tells(Deploy(c, pi, Aggregate(s, e, k), k, v, ps).value.index, h + [Told(s, e, k)] + Admissions(ps, k))
  {
    AggregateTells(s, e, k, h);
    DeployTells(c, pi, Aggregate(s, e, k), k, v, ps, h + [Told(s, e, k)]);
  }

  lemma IgnoredTells(c: Config, pi: Policy, s: State, e: Edge, k: Key, v: Value, h: seq<Report>)
    requires e < |s.edges| && k !in s.edges[e].tracked && Tells(s.index, h)
    ensures Manage(c, pi, s, e, k, v).Done?
    ensures Tells(Manage(c, pi, s, e, k, v).value.index, h + ([Told(s, e, k)] + Admissions([], k)))
  {
    AggregateTells(s, e, k, h);
    assert [Told(s, e, k)] + [] == [Told(s, e, k)];
  }

  /** Nothing before cache management touches the tables. */
  lemma ValidateIndex(c: Config, pi: Policy, s: State, e: Edge, k: Key, v: Value)
    requires Inv(c, s) && e < |s.edges| && Validate(c, pi, s, e, k, v).Done?
    ensures Validate(c, pi, s, e, k, v).value.index == s.index
  {
    var s1 := RefreshCopies(c, pi, s, e, k, v);
    if !v.deleted {
      SettleKeeps(c, pi, s1, e);
    }
  }

  lemma FinishTells(c: Config, pi: Policy, s: State, e: Edge, k: Key, v: Value, isWrite: bool, h: seq<Report>)
    requires Inv(c, s) && e < |s.edges| && c.topk >= 1 && (v.deleted ==> c.limits.deletes)
    requires Finish(c, pi, s, e, k, v, isWrite).Done? && Tells(s.index, h)
    ensures Tells(Finish(c, pi, s, e, k, v, isWrite).value.index, h + Trace(c, pi, s, e, k, v))
  {
    ValidateKeeps(c, pi, s, e, k, v);
    ValidateIndex(c, pi, s, e, k, v);
    var s1 := Validate(c, pi, s, e, k, v).value;
    if k in s1.edges[e].tracked {
      var ps := Placements(c, pi, s, e, k, v);
      TrackedTells(c, pi, s1, e, k, v, h, ps);
      InOrder(h, Told(s1, e, k), Admissions(ps, k));
    } else {
      IgnoredTells(c, pi, s1, e, k, v, h);
    }
  }

  lemma TouchIndex(c: Config, pi: Policy, s: State, e: Edge, k: Key)
    requires e < |s.edges|
    ensures TouchAt(c, pi, s, e, k).index == s.index && Access(c, pi, s, e, k).index == s.index
  {
  }

  lemma LookupIndex(c: Config, pi: Policy, s: State, e: Edge, k: Key, cloud: Value)
    requires e < |s.edges| && Lookup(c, pi, s, e, k, cloud).Done?
    ensures Lookup(c, pi, s, e, k, cloud).value.state.index == s.index
  {
    TouchIndex(c, pi, s, e, k);
    var s1 := Access(c, pi, s, e, k);
    var others := Minus(Holders(s1.dir, k), e);
    if others != [] && others[pi.pick % |others|] < |s1.edges| {
      TouchIndex(c, pi, s1, others[pi.pick % |others|], k);
    }
  }

  /** What a request of a run tells. */
  ghost function RequestTrace(c: Config, s: State, req: Request): seq<Report>
    requires req.e < |s.edges|
  {
    match req
    case GetRequest(pi, e, k, cloud) =>
      var r := Lookup(c, pi, s, e, k, cloud);
      if r.Done? then Trace(c, pi, r.value.state, e, k, r.value.value) else []
    case WriteRequest(pi, e, k, v) => Trace(c, pi, s, e, k, v)
  }

  lemma ProcessTells(c: Config, n: nat, s: State, req: Request, h: seq<Report>)
    requires c.topk >= 1 && Kept(c, n, s) && Admits(c, n, req) && Process(c, s, req).Done?
    requires Tells(s.index, h)
    ensures Tells(Process(c, s, req).value.index, h + RequestTrace(c, s, req))
  {
    match req
    case GetRequest(pi, e, k, cloud) =>
      var r, at := LookupKeeps(c, pi, s, e, k, cloud);
      LookupIndex(c, pi, s, e, k, cloud);
      FinishTells(c, pi, r.state, e, k, r.value, false, h);
    case WriteRequest(pi, e, k, v) =>
      FinishTells(c, pi, s, e, k, v, true, h);
  }

  /** All that the requests of a run have told. */
  ghost function History(c: Config, s: State, reqs: seq<Request>): seq<Report> {
    if reqs == [] then []
    else
      var shorter := reqs[..|reqs| - 1];
      var r := Run(c, s, shorter);
      History(c, s, shorter) +
      if r.Done? && reqs[|reqs| - 1].e < |r.value.edges| then RequestTrace(c, r.value, reqs[|reqs| - 1]) else []
  }

  /**
   Over every run, deleted values included: an object has a popularity on record for an edge exactly if that edge's last
   request of it left it tracked with that popularity and the edge has not admitted it since; and the size on record is
   the one reported last.
   */
  lemma {:induction false} IndexIsHistory(c: Config, n: nat, base: nat, reqs: seq<Request>)
    requires c.topk >= 1 && forall i :: 0 <= i < |reqs| ==> Admits(c, n, reqs[i])
    requires Run(c, Init(n, base), reqs).Done?
    ensures Tells(Run(c, Init(n, base), reqs).value.index, History(c, Init(n, base), reqs))
  {
    if reqs == [] {
      forall k: Key, a: Edge
        ensures KnownAt(map[], [], k, a)
      {
      }
    } else {
      var m := |reqs| - 1;
      assert forall i :: 0 <= i < m ==> reqs[..m][i] == reqs[i];
      IndexIsHistory(c, n, base, reqs[..m]);
      RunKeeps(c, n, base, reqs[..m]);
      ProcessTells(c, n, Run(c, Init(n, base), reqs[..m]).value, reqs[m], History(c, Init(n, base), reqs[..m]));
    }
  }
}
