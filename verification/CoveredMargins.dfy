/** The free bytes on record for each edge are those the edge has. */
module CoveredMargins {
  import opened Types
  import opened Directory
  import opened Victims
  import opened CoveredNode
  import opened CoveredSim
  import opened CoveredRuns

  /** Edges whose recorded margin may be out of date are named. */
  ghost predicate MarginAt(c: Config, s: State, stale: set<Edge>, e: Edge)
    requires e < |s.edges|
  {
    e in s.evict && e !in stale ==> s.evict[e].margin == MarginOf(c, s.edges[e])
  }

  ghost predicate Margins(c: Config, s: State, stale: set<Edge>) {
    forall e: Edge {:trigger MarginAt(c, s, stale, e)} :: e < |s.edges| ==> MarginAt(c, s, stale, e)
  }

  lemma MarginsMore(c: Config, s: State, stale: set<Edge>, more: set<Edge>)
    requires Margins(c, s, stale) && stale <= more
    ensures Margins(c, s, more)
  {
    forall a: Edge | a < |s.edges|
      ensures MarginAt(c, s, more, a)
    {
      assert MarginAt(c, s, stale, a);
    }
  }

  lemma MarginsSame(c: Config, s: State, s': State, stale: set<Edge>)
    requires Margins(c, s, stale) && |s'.edges| == |s.edges| && s'.evict == s.evict
    requires forall a: Edge :: a < |s.edges| ==> Used(s'.edges[a]) == Used(s.edges[a])
    ensures Margins(c, s', stale)
  {
    forall a: Edge | a < |s'.edges|
      ensures MarginAt(c, s', stale, a)
    {
      assert MarginAt(c, s, stale, a);
    }
  }

  /** Notifications do not change the bytes of any edge. */
  lemma MarginsFlags(c: Config, s: State, edges: seq<Node>, stale: set<Edge>)
    requires Margins(c, s, stale) && |edges| == |s.edges|
    requires forall a: Edge {:trigger NodeOk(c, s, a)} ::
               a < |edges| ==> NodeOk(c, s, a) && SameButFlags(s.edges[a], edges[a])
    ensures Margins(c, s.(edges := edges), stale)
  {
    forall a: Edge | a < |edges|
      ensures Used(edges[a]) == Used(s.edges[a])
    {
      assert NodeOk(c, s, a);
      SameButFlagsWf(s.edges[a], edges[a], c.limits, c.synced);
    }
    MarginsSame(c, s, s.(edges := edges), stale);
  }

  /** An edge that changes has a margin out of date, unless it keeps its bytes. */
  lemma MarginsReplace(c: Config, s: State, e: Edge, y: Node, stale: set<Edge>)
    requires Margins(c, s, stale) && e < |s.edges|
    ensures Margins(c, Replace(s, e, y), stale + {e})
    ensures Used(y) == Used(s.edges[e]) ==> Margins(c, Replace(s, e, y), stale)
  {
    var s' := Replace(s, e, y);
    forall a: Edge | a < |s'.edges|
      ensures MarginAt(c, s', stale + {e}, a)
      ensures Used(y) == Used(s.edges[e]) ==> MarginAt(c, s', stale, a)
    {
      assert MarginAt(c, s, stale, a);
    }
  }

  /** Both kinds of synchronisation bring the margin up to date. */
  lemma MarginsSync(c: Config, s: State, e: Edge, affect: bool, stale: set<Edge>)
    requires Margins(c, s, stale) && e < |s.edges| && Sync(c, s, e, affect).Done?
    ensures Margins(c, Sync(c, s, e, affect).value, stale - {e})
  {
    var s' := Sync(c, s, e, affect).value;
    forall a: Edge | a < |s'.edges|
      ensures MarginAt(c, s', stale - {e}, a)
    {
      assert MarginAt(c, s, stale, a);
    }
  }

  lemma MarginsTouch(c: Config, pi: Policy, s: State, e: Edge, k: Key, stale: set<Edge>)
    requires Margins(c, s, stale) && e < |s.edges|
    ensures Margins(c, TouchAt(c, pi, s, e, k), stale)
  {
    var x := s.edges[e];
    var m := pi.touch(e, x);
    var s' := Replace(s, e, Touch(x, k, m));
    TouchUsed(x, k, m);
    MarginsReplace(c, s, e, Touch(x, k, m), stale);
    if TouchAffects(x, k, m, c.synced) {
      MarginsSync(c, s', e, true, stale);
      MarginsMore(c, SyncFull(c, s', e), stale - {e}, stale);
    }
  }

  lemma MarginsAccess(c: Config, pi: Policy, s: State, e: Edge, k: Key, stale: set<Edge>)
    requires Margins(c, s, stale) && e < |s.edges|
    ensures Margins(c, Access(c, pi, s, e, k), stale + {e})
  {
    var x := s.edges[e];
    if k in x.objs {
      MarginsTouch(c, pi, s, e, k, stale);
      MarginsMore(c, TouchAt(c, pi, s, e, k), stale, stale + {e});
    } else {
      var m := pi.miss(e, x);
      MarginsReplace(c, s, e, Recall(x, m.(tracked := m.tracked - x.objs.Keys)), stale);
    }
  }

  lemma MarginsEvicted(c: Config, pi: Policy, s: State, e: Edge, m: nat, stale: set<Edge>)
    requires Margins(c, s, stale) && e < |s.edges| && m <= |s.edges[e].rank|
    ensures Margins(c, SyncFull(c, Evicted(pi, s, e, m), e), stale - {e})
  {
    var s0 := Replace(s, e, Shrunk(s.edges[e], m, pi.left(e)));
    var s1 := Evicted(pi, s, e, m);
    MarginsReplace(c, s, e, Shrunk(s.edges[e], m, pi.left(e)), stale);
    MarginsSame(c, s0, s1, stale + {e});
    MarginsSync(c, s1, e, true, stale + {e});
    assert stale + {e} - {e} == stale - {e};
  }

  lemma MarginsSettle(c: Config, pi: Policy, s: State, e: Edge, stale: set<Edge>)
    requires Margins(c, s, stale) && InvBut(c, s, Some(e)) && e < |s.edges| && Settle(c, pi, s, e).Done?
    ensures Margins(c, Settle(c, pi, s, e).value, stale - {e})
  {
    var m := EvictCount(s.edges[e], c.limits.capacity).value;
    var keys := s.edges[e].rank[..m];
    MarginsEvicted(c, pi, s, e, m, stale);
    EvictedQuiet(c, pi, s, e, m);
    var s2 := SyncFull(c, Evicted(pi, s, e, m), e);
    QuietRecord(c, Evicted(pi, s, e, m), e, s2.evict[e]);
    var edges := Disable(s2.edges, s2.dir, keys);
    forall a: Edge | a < |edges|
      ensures NodeOk(c, s2, a) && SameButFlags(s2.edges[a], edges[a])
    {
      DisableSpec(s2.edges, s2.dir, keys, a);
    }
    MarginsFlags(c, s2, edges, stale - {e});
  }

  /** After validation the edge's margin is right, whatever the lookup and the fetched value did to its metadata. */
  lemma MarginsValidate(c: Config, pi: Policy, s: State, e: Edge, k: Key, v: Value, stale: set<Edge>)
    requires Margins(c, s, stale) && Inv(c, s) && e < |s.edges| && Validate(c, pi, s, e, k, v).Done?
    ensures Margins(c, Validate(c, pi, s, e, k, v).value, stale - {e})
  {
    var x := Refresh(c, pi, s.edges[e], e, k, v).0;
    var s1 := Replace(s, e, x);
    RefreshKeeps(c, pi, s, e, k, v);
    MarginsReplace(c, s, e, x, stale);
    assert stale + {e} - {e} == stale - {e} && stale - {e} - {e} == stale - {e};
    if v.deleted {
      MarginsSync(c, s1, e, false, stale + {e});
    } else {
      OpenHole(c, s1, e);
      MarginsSettle(c, pi, s1, e, stale + {e});
      MarginsSync(c, Settle(c, pi, s1, e).value, e, false, stale - {e});
    }
  }

  lemma MarginsIntroduce(c: Config, pi: Policy, s: State, k: Key, v: Value, p: Edge, stale: set<Edge>)
    requires Margins(c, s, stale) && Inv(c, s) && Candidate(s, k, p) && Admissible(c.limits, k, v)
    requires Introduce(c, pi, s, k, v, p).Done?
    ensures Margins(c, Introduce(c, pi, s, k, v, p).value, stale - {p})
  {
    var x := s.edges[p];
    var y := Admit(x, k, v, k in s.dir, pi.admit(p, x), pi.grown(p, x));
    var s0 := Admitted(pi, s, k, v, p);
    MarginsReplace(c, s, p, y, stale);
    MarginsSame(c, Replace(s, p, y), s0, stale + {p});
    var s1 := AdmittedSync(c, pi, s, k, v, p);
    MarginsSync(c, s0, p, AdmitAffects(x, k, pi.admit(p, x), c.synced), stale + {p});
    assert stale + {p} - {p} == stale - {p};
    var edges := Enable(s1.edges, Holders(s.dir, k), k);
    forall a: Edge | a < |edges|
      ensures NodeOk(c, s1, a) && SameButFlags(s1.edges[a], edges[a])
    {
      EnableSpec(s1.edges, Holders(s.dir, k), k, a);
    }
    MarginsFlags(c, s1, edges, stale - {p});
  }

  lemma MarginsAdmit(c: Config, pi: Policy, s: State, k: Key, v: Value, p: Edge, stale: set<Edge>)
    requires Margins(c, s, stale) && Inv(c, s) && Candidate(s, k, p) && Admissible(c.limits, k, v)
    requires AdmitInto(c, pi, s, k, v, p).Done?
    ensures Margins(c, AdmitInto(c, pi, s, k, v, p).value, stale)
  {
    var s1 := AdmitIntoIs(c, pi, s, k, v, p);
    MarginsIntroduce(c, pi, s, k, v, p, stale);
    OpenHole(c, s1, p);
    MarginsSettle(c, pi, s1, p, stale - {p});
    MarginsMore(c, Settle(c, pi, s1, p).value, stale - {p} - {p}, stale);
  }

  lemma MarginsDeployAt(c: Config, pi: Policy, s: State, k: Key, v: Value, ps: seq<Edge>, n: nat, s1: State,
                        stale: set<Edge>) returns (s': State)
    requires Inv(c, s) && Candidates(s, k, ps) && Admissible(c.limits, k, v) && n < |ps|
    requires Deploy(c, pi, s, k, v, ps[..n]) == Done(s1) && Margins(c, s1, stale)
    requires Deploy(c, pi, s, k, v, ps[..n + 1]).Done?
    ensures Deploy(c, pi, s, k, v, ps[..n + 1]) == Done(s') && Margins(c, s', stale)
  {
    var s0 := DeployBefore(c, pi, s, k, v, ps, n);
    DeployKeeps(c, pi, s, k, v, ps, n);
    MarginsAdmit(c, pi, s1, k, v, ps[n], stale);
    s' := AdmitInto(c, pi, s1, k, v, ps[n]).value;
  }

  lemma MarginsDeploy(c: Config, pi: Policy, s: State, k: Key, v: Value, ps: seq<Edge>, stale: set<Edge>)
    returns (s': State)
    requires Margins(c, s, stale) && Inv(c, s) && Candidates(s, k, ps) && Admissible(c.limits, k, v)
    requires Deploy(c, pi, s, k, v, ps).Done?
    ensures Deploy(c, pi, s, k, v, ps) == Done(s') && Margins(c, s', stale)
  {
    s' := s;
    assert ps[..|ps|] == ps;
    for n := 0 to |ps|
      invariant Deploy(c, pi, s, k, v, ps[..n]) == Done(s') && Margins(c, s', stale)
    {
      DeployedSoFar(c, pi, s, k, v, ps, n + 1);
      s' := MarginsDeployAt(c, pi, s, k, v, ps, n, s', stale);
    }
  }

  lemma MarginsManage(c: Config, pi: Policy, s: State, e: Edge, k: Key, v: Value, stale: set<Edge>)
    requires Margins(c, s, stale) && Inv(c, s) && e < |s.edges| && e in s.evict && c.topk >= 1
    requires k in s.edges[e].tracked ==> Admissible(c.limits, k, v)
    requires Manage(c, pi, s, e, k, v).Done?
    ensures Margins(c, Manage(c, pi, s, e, k, v).value, stale)
  {
    var s1 := Aggregate(s, e, k);
    AggregateKeeps(c, s, e, k);
    MarginsSame(c, s, s1, stale);
    if k in s.edges[e].tracked {
      PlaceKeeps(c, pi, s1, k);
      var ps := Place(c, pi, s1, k).value;
      var qs := Arrange(pi, ps);
      ArrangeCandidates(s1, k, ps, qs);
      var s2 := MarginsDeploy(c, pi, s1, k, v, qs, stale);
    }
  }

  lemma MarginsFinish(c: Config, pi: Policy, s: State, e: Edge, k: Key, v: Value, isWrite: bool)
    requires Margins(c, s, {e}) && Inv(c, s) && e < |s.edges| && c.topk >= 1 && (v.deleted ==> c.limits.deletes)
    requires Finish(c, pi, s, e, k, v, isWrite).Done?
    ensures Margins(c, Finish(c, pi, s, e, k, v, isWrite).value, {})
  {
    ValidateKeeps(c, pi, s, e, k, v);
    MarginsValidate(c, pi, s, e, k, v, {e});
    assert {e} - {e} == {};
    MarginsManage(c, pi, Validate(c, pi, s, e, k, v).value, e, k, v, {});
  }

  lemma MarginsLookup(c: Config, pi: Policy, s: State, e: Edge, k: Key, cloud: Value)
    requires Margins(c, s, {}) && Inv(c, s) && e < |s.edges|
    ensures Lookup(c, pi, s, e, k, cloud).Done? && Margins(c, Lookup(c, pi, s, e, k, cloud).value.state, {e})
  {
    var r, at := LookupKeeps(c, pi, s, e, k, cloud);
    var s1 := Access(c, pi, s, e, k);
    MarginsAccess(c, pi, s, e, k, {});
    assert {} + {e} == {e};
    if !Hit(s, e, k) && Minus(Holders(s1.dir, k), e) != [] {
      var others := Minus(Holders(s1.dir, k), e);
      MarginsTouch(c, pi, s1, others[pi.pick % |others|], k, {e});
    }
  }

  /** A GET that goes through leaves every recorded margin right, deleted values included. */
  lemma GetMargins(c: Config, pi: Policy, s: State, e: Edge, k: Key, cloud: Value)
    requires Margins(c, s, {}) && Inv(c, s) && e < |s.edges| && c.topk >= 1 && (cloud.deleted ==> c.limits.deletes)
    requires Get(c, pi, s, e, k, cloud).Done?
    ensures Margins(c, Get(c, pi, s, e, k, cloud).value.state, {})
  {
    var r, at := LookupKeeps(c, pi, s, e, k, cloud);
    MarginsLookup(c, pi, s, e, k, cloud);
    MarginsFinish(c, pi, r.state, e, k, r.value, false);
  }

  /** So does a write. */
  lemma WriteMargins(c: Config, pi: Policy, s: State, e: Edge, k: Key, v: Value)
    requires Margins(c, s, {}) && Inv(c, s) && e < |s.edges| && c.topk >= 1 && (v.deleted ==> c.limits.deletes)
    requires Write(c, pi, s, e, k, v).Done?
    ensures Margins(c, Write(c, pi, s, e, k, v).value, {})
  {
    MarginsMore(c, s, {}, {e});
    MarginsFinish(c, pi, s, e, k, v, true);
  }
}
