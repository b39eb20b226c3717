/** What a lookup does to the edges of the COVERED simulator: one object moves in one reward order. */
module CoveredAccess {
  import opened Types
  import opened Directory
  import opened CoveredNode
  import opened CoveredSim
  import opened CoveredRuns

  /** The other keys, in their order. */
  function Rest(rank: seq<Key>, k: Key): seq<Key> {
    if rank == [] then []
    else
      var rest := Rest(rank[..|rank| - 1], k);
      if rank[|rank| - 1] == k then rest else rest + [rank[|rank| - 1]]
  }

  lemma {:induction false} RestAll(rank: seq<Key>, k: Key)
    requires k !in rank
    ensures Rest(rank, k) == rank
  {
    if rank != [] {
      RestAll(rank[..|rank| - 1], k);
    }
  }

  lemma {:induction false} RestConcat(a: seq<Key>, b: seq<Key>, k: Key)
    ensures Rest(a + b, k) == Rest(a, k) + Rest(b, k)
  {
    if b == [] {
      assert a + b == a;
    } else {
      var n := |b| - 1;
      RestConcat(a, b[..n], k);
      assert (a + b)[..|a| + n] == a + b[..n];
    }
  }

  lemma RestAround(a: seq<Key>, k: Key, b: seq<Key>)
    requires k !in a && k !in b
    ensures Rest(a + [k] + b, k) == a + b
  {
    RestConcat(a + [k], b, k);
    RestConcat(a, [k], k);
    RestAll(a, k);
    RestAll(b, k);
    assert Rest([k], k) == [] by {
      assert [k][..0] == [];
    }
    assert a + [] == a;
  }

  /** The object has moved to the place its new reward gives it, with its new popularities; nothing else has changed. */
  ghost predicate MovedTo(x: Node, y: Node, k: Key, m: Move) {
    && k in x.objs && y.tracked == x.tracked && y.meta == x.meta
    && y.objs == x.objs[k := x.objs[k].(localPop := m.localPop, redirPop := m.redirPop)]
    && |y.rank| == |x.rank| > 0 && y.rank[Min(m.pos, |x.rank| - 1)] == k && Rest(y.rank, k) == Rest(x.rank, k)
  }

  lemma RestInserted(rest: seq<Key>, q: nat, k: Key)
    requires k !in rest && q <= |rest|
    ensures Rest(rest[..q] + [k] + rest[q..], k) == rest
  {
    RestAround(rest[..q], k, rest[q..]);
    assert rest[..q] + rest[q..] == rest;
  }

  lemma ShiftRest(s: seq<Key>, i: nat, p: nat)
    requires NoDup(s) && i < |s|
    ensures |Shift(s, i, p)| == |s| && Shift(s, i, p)[Min(p, |s| - 1)] == s[i]
    ensures Rest(Shift(s, i, p), s[i]) == Rest(s, s[i])
  {
    var rest := s[..i] + s[i + 1..];
    assert forall j :: 0 <= j < |rest| ==> rest[j] == s[if j < i then j else j + 1];
    assert rest[..i] + [s[i]] + rest[i..] == s;
    RestInserted(rest, i, s[i]);
    RestInserted(rest, Min(p, |rest|), s[i]);
  }

  lemma TouchMoves(x: Node, k: Key, m: Move, lim: Limits)
    requires CoveredNode.Wf(x, lim) && k in x.objs
    ensures MovedTo(x, Touch(x, k, m), k, m)
  {
    ShiftRest(x.rank, Pos(x.rank, k), m.pos);
  }

  /** What the closest edge has noted about a miss: what it tracks and how many bytes that takes. */
  ghost predicate Noted(x: Node, y: Node, m: Memory) {
    y == x.(tracked := y.tracked, meta := m.meta) && forall k :: k in y.tracked <==> k in m.tracked && k !in x.objs
  }

  lemma TouchAtIs(c: Config, pi: Policy, s: State, e: Edge, k: Key)
    requires e < |s.edges| && NodeOk(c, s, e) && k in s.edges[e].objs
    ensures var s' := TouchAt(c, pi, s, e, k);
            && s'.edges == s.edges[e := s'.edges[e]] && s'.dir == s.dir && s'.index == s.index
            && MovedTo(s.edges[e], s'.edges[e], k, pi.touch(e, s.edges[e]))
  {
    TouchMoves(s.edges[e], k, pi.touch(e, s.edges[e]), c.limits);
  }

  lemma MissIs(c: Config, pi: Policy, s: State, e: Edge, k: Key)
    requires e < |s.edges| && k !in s.edges[e].objs
    ensures var s' := Access(c, pi, s, e, k);
            && s'.edges == s.edges[e := s'.edges[e]] && s'.dir == s.dir && s'.index == s.index
            && Noted(s.edges[e], s'.edges[e], pi.miss(e, s.edges[e]))
  {
  }

  /** The closest edge answers. */
  lemma LocalMoves(c: Config, pi: Policy, s: State, e: Edge, k: Key, cloud: Value)
    requires Inv(c, s) && e < |s.edges| && k in s.edges[e].objs
    ensures Lookup(c, pi, s, e, k, cloud).Done? && k in s.dir
    ensures var s' := Lookup(c, pi, s, e, k, cloud).value.state;
            && s'.edges == s.edges[e := s'.edges[e]] && s'.dir == s.dir && s'.index == s.index
            && MovedTo(s.edges[e], s'.edges[e], k, pi.touch(e, s.edges[e]))
  {
    assert NodeOk(c, s, e);
    TouchAtIs(c, pi, s, e, k);
    assert k in Holds(s.edges)[e] && e in Holders(s.dir, k);
  }

  /**
   A lookup moves the object at the edge that answers, and at no other. If that is not the closest edge, the closest
   edge notes the miss. No other edge, directory entry or popularity changes.
   */
  lemma RemoteMoves(c: Config, pi: Policy, s: State, e: Edge, k: Key, cloud: Value) returns (at: Edge)
    requires Inv(c, s) && e < |s.edges| && k !in s.edges[e].objs
    ensures Lookup(c, pi, s, e, k, cloud).Done? && (k in s.dir ==> at < |s.edges| && at != e)
    ensures var s' := Lookup(c, pi, s, e, k, cloud).value.state;
            && |s'.edges| == |s.edges| && s'.dir == s.dir && s'.index == s.index
            && Noted(s.edges[e], s'.edges[e], pi.miss(e, s.edges[e]))
            && (if k in s.dir then
                  && s'.edges == s.edges[e := s'.edges[e]][at := s'.edges[at]]
                  && MovedTo(s.edges[at], s'.edges[at], k, pi.touch(at, s.edges[at]))
                else s'.edges == s.edges[e := s'.edges[e]])
  {
    AccessKeeps(c, pi, s, e, k);
    MissIs(c, pi, s, e, k);
    var s1 := Access(c, pi, s, e, k);
    at := TargetHolds(c, pi, s1, e, k);
    RemoteIs(c, pi, s, s1, e, k, cloud, at);
  }

  lemma RemoteIs(c: Config, pi: Policy, s: State, s1: State, e: Edge, k: Key, cloud: Value, at: Edge)
    requires e < |s.edges| && k !in s.edges[e].objs && s1 == Access(c, pi, s, e, k)
    requires s1.edges == s.edges[e := s1.edges[e]] && s1.dir == s.dir && s1.index == s.index
    requires Minus(Holders(s1.dir, k), e) == [] <==> k !in s1.dir
    requires k in s1.dir ==>
               var others := Minus(Holders(s1.dir, k), e);
               at == others[pi.pick % |others|] && at < |s1.edges| && at != e && NodeOk(c, s1, at) && Hit(s1, at, k)
    ensures Lookup(c, pi, s, e, k, cloud).Done?
    ensures var s' := Lookup(c, pi, s, e, k, cloud).value.state;
            && s'.dir == s.dir && s'.index == s.index && |s'.edges| == |s.edges| && s'.edges[e] == s1.edges[e]
            && (if k in s.dir then
                  && s'.edges == s1.edges[at := s'.edges[at]]
                  && MovedTo(s.edges[at], s'.edges[at], k, pi.touch(at, s.edges[at]))
                else s'.edges == s1.edges)
  {
    if k in s.dir {
      TouchAtIs(c, pi, s1, at, k);
    }
  }
}
