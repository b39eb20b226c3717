/** The placement COVERED chooses, judged by what it makes all cached and requested objects worth. */
module CoveredPlacement {
  import opened Types
  import opened Directory
  import opened Victims
  import opened CoveredNode
  import opened CoveredSim
  import opened CoveredRuns
  import opened CoveredMargins
  import opened HitValue
  import EvictionCost
  import Placement
  import P = PopularityIndex

  lemma CopyIffHeld(s: State, e: Edge, k: Key)
    requires e < |s.edges| && (forall i :: 0 <= i < |s.edges[e].rank| ==> s.edges[e].rank[i] in s.edges[e].objs)
    requires forall j :: j in s.edges[e].objs ==> j in s.edges[e].rank
    ensures HasCopy(ContextOf(s), e, k) <==> k in s.edges[e].objs
  {
    var x := s.edges[e];
    assert ContextOf(s).all[e] == Infos(x);
    if k in x.objs {
      var i :| 0 <= i < |x.rank| && x.rank[i] == k;
      assert Infos(x)[i].key == k;
    }
  }

  /** What the search reads are all copies there are, and the directory lists exactly them. */
  lemma ContextIsWhole(c: Config, s: State)
    requires Inv(c, s)
    ensures Whole(ContextOf(s))
  {
    var ctx := ContextOf(s);
    forall e: Edge | e < |ctx.all|
      ensures EvictionCost.DistinctKeys(ctx.all[e])
    {
      assert NodeOk(c, s, e);
      assert ctx.all[e] == Infos(s.edges[e]);
    }
    forall k: Key, e: Edge
      ensures e in Holders(ctx.dir, k) <==> HasCopy(ctx, e, k)
    {
      if e < |s.edges| {
        assert NodeOk(c, s, e);
        CopyIffHeld(s, e, k);
        assert Holds(s.edges)[e] == s.edges[e].objs.Keys;
      }
      CoherentAt(Holds(s.edges), s.dir, k, e);
    }
  }

  /** What everything gains in worth with the object at the first `n` listed edges and their victims gone. */
  ghost function Improvement(p: Placement.Problem, n: nat): real
    requires EvictionCost.InBounds(p.c, P.EdgesIn(p.top)) && n <= |p.top|
  {
    var gone := EvictionCost.Pairs(p.c, P.EdgesIn(p.top)[..n], p.objsize);
    if n == 0 || gone.None? then 0.0 else WorthOf(p, n, gone.value) - WorthOf(p, 0, [])
  }

  lemma GainIsImprovement(p: Placement.Problem, n: nat)
    requires Placement.Solvable(p) && Whole(p.c) && p.w.cooperative <= p.w.local
    requires 1 <= n <= |p.top| && Placement.Gain(p, n).Some?
    ensures Placement.Gain(p, n) == Some(Improvement(p, n))
  {
    GainIsWorth(p, n);
  }

  /** The first `m` listed edges are better than fewer, and no worse than any number of them. */
  ghost predicate Best(p: Placement.Problem, m: nat)
    requires EvictionCost.InBounds(p.c, P.EdgesIn(p.top)) && m <= |p.top|
  {
    && (forall n: nat :: n < m ==> Improvement(p, n) < Improvement(p, m))
    && (forall n: nat :: n <= |p.top| ==> Improvement(p, n) <= Improvement(p, m))
  }

  lemma ChosenIsBest(p: Placement.Problem, m: nat)
    requires Placement.Solvable(p) && Whole(p.c) && p.w.cooperative <= p.w.local && m <= |p.top|
    requires var g := Placement.Gains(p);
             if m == 0 then forall j :: 0 <= j < |g| ==> g[j].Some? && g[j].value <= 0.0
             else Placement.FirstMax(g, m - 1) && g[m - 1].value > 0.0
    ensures Best(p, m)
  {
    var g := Placement.Gains(p);
    assert Improvement(p, 0) == 0.0;
    forall n: nat | 1 <= n <= |p.top|
      ensures g[n - 1] == Some(Improvement(p, n))
    {
      assert g[n - 1] == Placement.Gain(p, n);
      GainIsImprovement(p, n);
    }
  }

  /** How many listed edges a choice takes. */
  function Taken(r: Placement.Choice): nat {
    if r.Place? then |r.edges| else 0
  }

  lemma ChoiceTakes(p: Placement.Problem) returns (m: nat)
    requires EvictionCost.InBounds(p.c, P.EdgesIn(p.top)) && !Placement.Choose(p).Exit?
    ensures m == Taken(Placement.Choose(p)) <= |p.top|
    ensures var g := Placement.Gains(p);
            if m == 0 then forall j :: 0 <= j < |g| ==> g[j].Some? && g[j].value <= 0.0
            else Placement.FirstMax(g, m - 1) && g[m - 1].value > 0.0
    ensures Placement.Choose(p).Place? ==> Placement.Choose(p).edges == P.EdgesIn(p.top)[..m]
  {
    var g, r := Placement.Gains(p), Placement.Choose(p);
    m := 0;
    if r.Place? {
      var n: nat :| Placement.FirstMax(g, n) && g[n].value > 0.0 && r.edges == P.EdgesIn(p.top)[..n + 1];
      m := n + 1;
    }
  }

  lemma ChoiceIsBest(p: Placement.Problem)
    requires Placement.Solvable(p) && Whole(p.c) && p.w.cooperative <= p.w.local && !Placement.Choose(p).Exit?
    ensures var m := Taken(Placement.Choose(p)); m <= |p.top| && Best(p, m)
    ensures Placement.Choose(p).Place? ==>
              Placement.Choose(p).edges == P.EdgesIn(p.top)[..|Placement.Choose(p).edges|]
  {
    var m := ChoiceTakes(p);
    ChosenIsBest(p, m);
  }

  lemma PlaceIsChoice(c: Config, pi: Policy, s: State, k: Key)
    requires k in s.index && Place(c, pi, s, k).Done?
    ensures var p := ProblemOf(c, pi, s, k);
            && EvictionCost.InBounds(p.c, P.EdgesIn(p.top)) && !Placement.Choose(p).Exit?
            && |Place(c, pi, s, k).value| == Taken(Placement.Choose(p))
            && (Placement.Choose(p).Place? ==> Place(c, pi, s, k).value == Placement.Choose(p).edges)
  {
  }

  /**
   A placement is the shortest prefix of the most popular edges on record that makes everything worth most, and empty
   exactly if no prefix makes it worth more, provided the local weight is not below the cooperative one.
   */
  lemma PlaceIsBest(c: Config, pi: Policy, s: State, k: Key)
    requires Inv(c, s) && k in s.index && c.topk >= 1 && pi.weights.cooperative <= pi.weights.local
    requires Place(c, pi, s, k).Done?
    ensures var p := ProblemOf(c, pi, s, k);
            var ps := Place(c, pi, s, k).value;
            && EvictionCost.InBounds(p.c, P.EdgesIn(p.top)) && |ps| <= |p.top| && ps == P.EdgesIn(p.top)[..|ps|]
            && Best(p, |ps|)
  {
    ProblemIsSolvable(c, pi, s, k);
    ContextIsWhole(c, s);
    PlaceIsChoice(c, pi, s, k);
    ChoiceIsBest(ProblemOf(c, pi, s, k));
  }

  /** What is on record for an edge: its free bytes, and its least rewarding objects in order, as many as are synced. */
  lemma RecordIsTrue(c: Config, s: State, e: Edge)
    requires Inv(c, s) && Margins(c, s, {}) && e < |s.edges| && e in s.evict
    ensures var x, info := s.edges[e], s.evict[e];
            && info.margin == (if Used(x) <= c.limits.capacity then c.limits.capacity - Used(x) else 0)
            && |info.victims| == Min(c.synced, |x.rank|)
            && forall i :: 0 <= i < |info.victims| ==> info.victims[i] == Info(x, x.rank[i])
  {
    assert EvictAt(c, s, e) && MarginAt(c, s, {}, e);
  }

  /**
   The victims the search plans with at an edge within capacity make room for the object there, and fewer would not: the
   edge is within capacity with the object and without them.
   */
  lemma VictimsMakeRoom(c: Config, s: State, e: Edge, objsize: nat)
    requires Inv(c, s) && Margins(c, s, {}) && e < |s.edges| && e in s.evict && Used(s.edges[e]) <= c.limits.capacity
    requires Selected(Some(s.evict[e]), Infos(s.edges[e]), objsize).Some?
    ensures var chosen := Selected(Some(s.evict[e]), Infos(s.edges[e]), objsize).value;
            && chosen <= Infos(s.edges[e])
            && Used(s.edges[e]) + objsize <= c.limits.capacity + Bytes(chosen)
            && forall j :: 0 <= j < |chosen| ==> Used(s.edges[e]) + objsize > c.limits.capacity + Bytes(chosen[..j])
  {
    RecordIsTrue(c, s, e);
    assert EvictAt(c, s, e);
    var all, n := Infos(s.edges[e]), |s.evict[e].victims|;
    assert s.evict[e].victims == all[..n];
    SelectedMakesRoom(s.evict[e], all, objsize, n);
  }
}
