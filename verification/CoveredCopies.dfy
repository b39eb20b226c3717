/** When the copies of one object agree across the edges of the COVERED simulator. */
module CoveredCopies {
  import opened Types
  import opened Directory
  import opened Victims
  import opened CoveredNode
  import opened CoveredSim
  import opened CoveredRuns
  import opened CoveredMargins
  import opened CoveredOutcomes

  // ---- Copies ---------------------------------------------------------------------------------------

  function CopyIn(x: Node, k: Key): Option<Value> {
    if k in x.objs then Some(x.objs[k].value) else None
  }

  function Copy(s: State, a: Edge, k: Key): Option<Value> {
    if a < |s.edges| then CopyIn(s.edges[a], k) else None
  }

  ghost predicate Agree(s: State, k: Key) {
    forall a: Edge, b: Edge {:trigger Copy(s, a, k), Copy(s, b, k)} ::
      Copy(s, a, k).Some? && Copy(s, b, k).Some? ==> Copy(s, a, k) == Copy(s, b, k)
  }

  ghost predicate AllAgree(s: State) {
    forall k {:trigger Agree(s, k)} :: Agree(s, k)
  }

  ghost predicate SameCopies(x: Node, y: Node) {
    forall k {:trigger CopyIn(y, k)} :: CopyIn(y, k) == CopyIn(x, k)
  }

  /** Copies may vanish and do not change. */
  ghost predicate FewerCopies(x: Node, y: Node) {
    forall k {:trigger CopyIn(y, k)} :: CopyIn(y, k).None? || CopyIn(y, k) == CopyIn(x, k)
  }

  lemma FlagsCopies(x: Node, y: Node)
    requires SameButFlags(x, y)
    ensures SameCopies(x, y)
  {
    forall k
      ensures CopyIn(y, k) == CopyIn(x, k)
    {
      assert k in x.objs.Keys <==> k in y.objs.Keys;
    }
  }

  lemma TouchCopies(x: Node, k: Key, m: Move, lim: Limits)
    requires CoveredNode.Wf(x, lim)
    ensures SameCopies(x, Touch(x, k, m))
  {
    TouchWf(x, k, m, lim);
    var y := Touch(x, k, m);
    forall j
      ensures CopyIn(y, j) == CopyIn(x, j)
    {
      assert j in x.objs.Keys <==> j in y.objs.Keys;
    }
  }

  lemma ShrunkCopies(x: Node, m: nat, left: set<Key> -> nat, k: Key)
    requires m <= |x.rank|
    ensures CopyIn(Shrunk(x, m, left), k) == if k in x.rank[..m] then None else CopyIn(x, k)
  {
    if m == 0 {
      assert x.rank[..0] == [];
    }
  }

  // ---- What each step does to copies ----------------------------------------------------------------

  lemma TouchAtCopies(c: Config, pi: Policy, s: State, e: Edge, k: Key, a: Edge, j: Key)
    requires e < |s.edges| && NodeOk(c, s, e)
    ensures Copy(TouchAt(c, pi, s, e, k), a, j) == Copy(s, a, j)
  {
    TouchCopies(s.edges[e], k, pi.touch(e, s.edges[e]), c.limits);
    var y := Touch(s.edges[e], k, pi.touch(e, s.edges[e]));
    assert TouchAt(c, pi, s, e, k).edges == s.edges[e := y];
    assert CopyIn(y, j) == CopyIn(s.edges[e], j);
  }

  lemma AccessCopies(c: Config, pi: Policy, s: State, e: Edge, k: Key, a: Edge, j: Key)
    requires e < |s.edges| && NodeOk(c, s, e)
    ensures Copy(Access(c, pi, s, e, k), a, j) == Copy(s, a, j)
  {
    if k in s.edges[e].objs {
      TouchAtCopies(c, pi, s, e, k, a, j);
    }
  }

  /** A lookup changes no copy. */
  lemma LookupCopies(c: Config, pi: Policy, s: State, e: Edge, k: Key, cloud: Value, a: Edge, j: Key)
    requires Inv(c, s) && e < |s.edges|
    ensures Lookup(c, pi, s, e, k, cloud).Done?
    ensures Copy(Lookup(c, pi, s, e, k, cloud).value.state, a, j) == Copy(s, a, j)
  {
    var r, at := LookupKeeps(c, pi, s, e, k, cloud);
    var s1 := Access(c, pi, s, e, k);
    assert NodeOk(c, s, e);
    AccessKeeps(c, pi, s, e, k);
    AccessCopies(c, pi, s, e, k, a, j);
    if !Hit(s, e, k) && Minus(Holders(s1.dir, k), e) != [] {
      var others := Minus(Holders(s1.dir, k), e);
      var t := others[pi.pick % |others|];
      assert NodeOk(c, s1, t);
      TouchAtCopies(c, pi, s1, t, k, a, j);
    }
  }

  /** An eviction takes copies away at its own edge only. */
  lemma SettleCopies(c: Config, pi: Policy, s: State, e: Edge) returns (s': State, m: nat)
    requires InvBut(c, s, Some(e)) && e < |s.edges| && Settle(c, pi, s, e).Done?
    ensures Settle(c, pi, s, e) == Done(s') && |s'.edges| == |s.edges|
    ensures EvictCount(s.edges[e], c.limits.capacity) == Some(m) && m <= |s.edges[e].rank|
    ensures forall a: Edge {:trigger SameCopies(s.edges[a], s'.edges[a])} ::
              a < |s.edges| && a != e ==> SameCopies(s.edges[a], s'.edges[a])
    ensures FewerCopies(s.edges[e], s'.edges[e])
    ensures forall k {:trigger CopyIn(s'.edges[e], k)} ::
              CopyIn(s'.edges[e], k) == if k in s.edges[e].rank[..m] then None else CopyIn(s.edges[e], k)
  {
    var x := s.edges[e];
    m := EvictCount(x, c.limits.capacity).value;
    s' := Settle(c, pi, s, e).value;
    SettledKeeps(c, pi, s, e, m);
    forall a: Edge | a < |s.edges| && a != e
      ensures SameCopies(s.edges[a], s'.edges[a])
    {
      FlagsCopies(s.edges[a], s'.edges[a]);
    }
    var y := Shrunk(x, m, pi.left(e));
    FlagsCopies(y, s'.edges[e]);
    forall k
      ensures CopyIn(s'.edges[e], k) == if k in x.rank[..m] then None else CopyIn(x, k)
    {
      ShrunkCopies(x, m, pi.left(e), k);
      assert CopyIn(s'.edges[e], k) == CopyIn(y, k);
    }
  }

  /** What is learned changes no copy, and a cached key stays untracked. */
  lemma RefreshCopies(c: Config, pi: Policy, s: State, e: Edge, k: Key, v: Value) returns (s1: State)
    requires Inv(c, s) && e < |s.edges|
    ensures s1 == Replace(s, e, Refresh(c, pi, s.edges[e], e, k, v).0) && InvBut(c, s1, Some(e))
    ensures s1.edges[e].objs == s.edges[e].objs && !Refresh(c, pi, s.edges[e], e, k, v).1
    ensures k in s1.edges[e].tracked ==> k !in s.edges[e].objs
  {
    s1 := Replace(s, e, Refresh(c, pi, s.edges[e], e, k, v).0);
    RefreshKeeps(c, pi, s, e, k, v);
    OpenHole(c, s1, e);
    assert NodeOk(c, s1, e);
  }

  /** What is left is the edges after the eviction, if there is one. */
  lemma ValidateIs(c: Config, pi: Policy, s: State, e: Edge, k: Key, v: Value, s1: State)
    requires e < |s.edges| && s1 == Replace(s, e, Refresh(c, pi, s.edges[e], e, k, v).0)
    requires Validate(c, pi, s, e, k, v).Done?
    ensures v.deleted ==> Validate(c, pi, s, e, k, v).value.edges == s1.edges
    ensures !v.deleted ==>
              Settle(c, pi, s1, e).Done? && Validate(c, pi, s, e, k, v).value.edges == Settle(c, pi, s1, e).value.edges
  {
  }

  /** Validation may evict at its edge; if the edge then tracks the key, it did not cache it before. */
  lemma ValidateCopies(c: Config, pi: Policy, s: State, e: Edge, k: Key, v: Value) returns (s': State)
    requires Inv(c, s) && e < |s.edges| && Validate(c, pi, s, e, k, v).Done?
    ensures Validate(c, pi, s, e, k, v) == Done(s') && |s'.edges| == |s.edges|
    ensures forall a: Edge {:trigger SameCopies(s.edges[a], s'.edges[a])} ::
              a < |s.edges| && a != e ==> SameCopies(s.edges[a], s'.edges[a])
    ensures FewerCopies(s.edges[e], s'.edges[e])
    ensures k in s'.edges[e].tracked ==> k !in s.edges[e].objs
  {
    s' := Validate(c, pi, s, e, k, v).value;
    var s1 := RefreshCopies(c, pi, s, e, k, v);
    ValidateIs(c, pi, s, e, k, v, s1);
    if !v.deleted {
      SettleKeeps(c, pi, s1, e);
      var s2, m := SettleCopies(c, pi, s1, e);
      forall a: Edge | a < |s.edges| && a != e
        ensures SameCopies(s.edges[a], s'.edges[a])
      {
        assert SameCopies(s1.edges[a], s2.edges[a]);
      }
      SameThenFewer(s.edges[e], s1.edges[e], s'.edges[e]);
    }
  }

  lemma SameThenFewer(x: Node, y: Node, z: Node)
    requires x.objs == y.objs && FewerCopies(y, z)
    ensures FewerCopies(x, z)
  {
  }

  // ---- Admission ------------------------------------------------------------------------------------

  ghost function Newcomer(c: Config, pi: Policy, s: State, k: Key, v: Value, p: Edge): Node
    requires p < |s.edges|
  {
    var x := s.edges[p];
    Admit(x, k, v, k in s.dir, pi.admit(p, x), pi.grown(p, x))
  }

  /** The new object is not evicted again at once: what ranks before it covers the edge's excess. */
  ghost predicate Stays(c: Config, pi: Policy, s: State, k: Key, v: Value, p: Edge) {
    p < |s.edges| &&
    var y := Newcomer(c, pi, s, k, v, p);
    var before := Infos(y)[..Min(pi.admit(p, s.edges[p]).pos, |s.edges[p].rank|)];
    Used(y) <= Bytes(before) + c.limits.capacity
  }

  lemma IntroduceCopies(c: Config, pi: Policy, s: State, k: Key, v: Value, p: Edge) returns (s1: State)
    requires Inv(c, s) && Candidate(s, k, p) && Admissible(c.limits, k, v)
    ensures Introduce(c, pi, s, k, v, p) == Done(s1) && Inv(c, s1) && |s1.edges| == |s.edges|
    ensures AdmitInto(c, pi, s, k, v, p) == Settle(c, pi, s1, p)
    ensures forall a: Edge {:trigger SameCopies(s.edges[a], s1.edges[a])} ::
              a < |s.edges| && a != p ==> SameCopies(s.edges[a], s1.edges[a])
    ensures SameButFlags(Newcomer(c, pi, s, k, v, p), s1.edges[p])
  {
    s1 := AdmitIntoIs(c, pi, s, k, v, p);
    var s0 := AdmittedSync(c, pi, s, k, v, p);
    var orig := Holders(s.dir, k);
    forall a: Edge | a < |s.edges|
      ensures SameButFlags(s0.edges[a], s1.edges[a])
    {
      EnableSpec(s0.edges, orig, k, a);
    }
    forall a: Edge | a < |s.edges| && a != p
      ensures SameCopies(s.edges[a], s1.edges[a])
    {
      FlagsCopies(s0.edges[a], s1.edges[a]);
    }
  }

  lemma NewcomerCopies(x: Node, y: Node, k: Key, v: Value, neighbor: bool, m: Move, meta: nat, j: Key)
    requires k !in x.objs && SameButFlags(Admit(x, k, v, neighbor, m, meta), y)
    ensures CopyIn(y, j) == if j == k then Some(v) else CopyIn(x, j)
  {
    FlagsCopies(Admit(x, k, v, neighbor, m, meta), y);
    assert CopyIn(y, j) == CopyIn(Admit(x, k, v, neighbor, m, meta), j);
  }

  /** The new object is among the victims exactly when it does not stay. */
  lemma StaysIff(c: Config, pi: Policy, s: State, k: Key, v: Value, p: Edge, z: Node, m: nat)
    requires Inv(c, s) && Candidate(s, k, p) && Admissible(c.limits, k, v)
    requires SameButFlags(Newcomer(c, pi, s, k, v, p), z) && EvictCount(z, c.limits.capacity) == Some(m)
    requires m <= |z.rank|
    ensures k in z.rank[..m] <==> !Stays(c, pi, s, k, v, p)
  {
    var x, y := s.edges[p], Newcomer(c, pi, s, k, v, p);
    var pos := Min(pi.admit(p, x).pos, |x.rank|);
    assert NodeOk(c, s, p);
    AdmitWf(x, k, v, k in s.dir, pi.admit(p, x), pi.grown(p, x), c.limits);
    SameButFlagsWf(y, z, c.limits, c.synced);
    assert y.rank[pos] == k;
    assert Pos(z.rank, k) == pos;
    InPrefix(z.rank, k, m);
    EvictCountExists(z, c.limits.capacity);
    EvictedIff(z, c.limits.capacity, pos);
  }

  /** What an admission at one edge does to the copies there. */
  ghost predicate AdmittedAt(x: Node, x': Node, k: Key, v: Value, stays: bool) {
    && CopyIn(x', k) == (if stays then Some(v) else None)
    && forall j {:trigger CopyIn(x', j)} :: j != k ==> CopyIn(x', j).None? || CopyIn(x', j) == CopyIn(x, j)
  }

  lemma AdmitIntoCopies(c: Config, pi: Policy, s: State, k: Key, v: Value, p: Edge) returns (s': State)
    requires Inv(c, s) && Candidate(s, k, p) && Admissible(c.limits, k, v) && AdmitInto(c, pi, s, k, v, p).Done?
    ensures AdmitInto(c, pi, s, k, v, p) == Done(s') && |s'.edges| == |s.edges|
    ensures forall a: Edge {:trigger SameCopies(s.edges[a], s'.edges[a])} ::
              a < |s.edges| && a != p ==> SameCopies(s.edges[a], s'.edges[a])
    ensures AdmittedAt(s.edges[p], s'.edges[p], k, v, Stays(c, pi, s, k, v, p))
  {
    var s1 := IntroduceCopies(c, pi, s, k, v, p);
    OpenHole(c, s1, p);
    var m;
    s', m := SettleCopies(c, pi, s1, p);
    forall a: Edge | a < |s.edges| && a != p
      ensures SameCopies(s.edges[a], s'.edges[a])
    {
      assert SameCopies(s.edges[a], s1.edges[a]) && SameCopies(s1.edges[a], s'.edges[a]);
    }
    StaysIff(c, pi, s, k, v, p, s1.edges[p], m);
    var x := s.edges[p];
    forall j
      ensures CopyIn(s1.edges[p], j) == if j == k then Some(v) else CopyIn(x, j)
    {
      NewcomerCopies(x, s1.edges[p], k, v, k in s.dir, pi.admit(p, x), pi.grown(p, x), j);
    }
    assert CopyIn(s'.edges[p], k) == if k in s1.edges[p].rank[..m] then None else CopyIn(s1.edges[p], k);
  }

  /** The new copy stays at a placement edge, in the state deployment has reached when that edge's turn comes. */
  ghost predicate StaysAt(c: Config, pi: Policy, s: State, k: Key, v: Value, ps: seq<Edge>, i: nat)
    requires i < |ps|
  {
    var r := Deploy(c, pi, s, k, v, ps[..i]);
    r.Done? && Stays(c, pi, r.value, k, v, ps[i])
  }

  /** What deployment has done to the copies at one edge after its first `n` admissions. */
  ghost predicate DeployedAt(c: Config, pi: Policy, s: State, s': State, k: Key, v: Value, ps: seq<Edge>, n: nat,
                             a: Edge)
    requires n <= |ps| && a < |s.edges| && a < |s'.edges|
  {
    && (a !in ps[..n] ==> SameCopies(s.edges[a], s'.edges[a]))
    && (forall i: nat {:trigger ps[i]} :: i < n && ps[i] == a ==>
         AdmittedAt(s.edges[a], s'.edges[a], k, v, StaysAt(c, pi, s, k, v, ps, i)))
  }

  ghost predicate DeployedAll(c: Config, pi: Policy, s: State, s': State, k: Key, v: Value, ps: seq<Edge>, n: nat) {
    n <= |ps| && |s'.edges| == |s.edges| &&
    forall a: Edge {:trigger DeployedAt(c, pi, s, s', k, v, ps, n, a)} ::
      a < |s.edges| ==> DeployedAt(c, pi, s, s', k, v, ps, n, a)
  }

  lemma DeployCopiesAt(c: Config, pi: Policy, s: State, k: Key, v: Value, ps: seq<Edge>, n: nat, s1: State)
    returns (s': State)
    requires Inv(c, s) && Candidates(s, k, ps) && Admissible(c.limits, k, v) && n < |ps|
    requires Deploy(c, pi, s, k, v, ps[..n]) == Done(s1) && DeployedAll(c, pi, s, s1, k, v, ps, n)
    requires Deploy(c, pi, s, k, v, ps[..n + 1]).Done?
    ensures Deploy(c, pi, s, k, v, ps[..n + 1]) == Done(s') && DeployedAll(c, pi, s, s', k, v, ps, n + 1)
  {
    var s0 := DeployBefore(c, pi, s, k, v, ps, n);
    DeployKeeps(c, pi, s, k, v, ps, n);
    s' := AdmitIntoCopies(c, pi, s1, k, v, ps[n]);
    var n' := n + 1;
    forall a: Edge | a < |s.edges|
      ensures DeployedAt(c, pi, s, s', k, v, ps, n', a)
    {
      assert DeployedAt(c, pi, s, s1, k, v, ps, n, a);
      DeployMore(c, pi, s, s1, s', k, v, ps, n, a);
    }
  }

  lemma DeployCopies(c: Config, pi: Policy, s: State, k: Key, v: Value, ps: seq<Edge>) returns (s': State)
    requires Inv(c, s) && Candidates(s, k, ps) && Admissible(c.limits, k, v) && Deploy(c, pi, s, k, v, ps).Done?
    ensures Deploy(c, pi, s, k, v, ps) == Done(s') && DeployedAll(c, pi, s, s', k, v, ps, |ps|)
  {
    s' := s;
    assert ps[..|ps|] == ps;
    for n := 0 to |ps|
      invariant Deploy(c, pi, s, k, v, ps[..n]) == Done(s') && DeployedAll(c, pi, s, s', k, v, ps, n)
    {
      DeployedSoFar(c, pi, s, k, v, ps, n + 1);
      s' := DeployCopiesAt(c, pi, s, k, v, ps, n, s');
    }
  }

  lemma SameThenAdmitted(x: Node, y: Node, z: Node, k: Key, v: Value, stays: bool)
    requires SameCopies(x, y) && AdmittedAt(y, z, k, v, stays)
    ensures AdmittedAt(x, z, k, v, stays)
  {
    forall j | j != k
      ensures CopyIn(z, j).None? || CopyIn(z, j) == CopyIn(x, j)
    {
      assert CopyIn(y, j) == CopyIn(x, j);
    }
  }

  lemma AdmittedThenSame(x: Node, y: Node, z: Node, k: Key, v: Value, stays: bool)
    requires AdmittedAt(x, y, k, v, stays) && SameCopies(y, z)
    ensures AdmittedAt(x, z, k, v, stays)
  {
    assert CopyIn(z, k) == CopyIn(y, k);
    forall j | j != k
      ensures CopyIn(z, j).None? || CopyIn(z, j) == CopyIn(x, j)
    {
      assert CopyIn(z, j) == CopyIn(y, j);
    }
  }

  lemma SameThenSame(x: Node, y: Node, z: Node)
    requires SameCopies(x, y) && SameCopies(y, z)
    ensures SameCopies(x, z)
  {
    forall j
      ensures CopyIn(z, j) == CopyIn(x, j)
    {
      assert CopyIn(y, j) == CopyIn(x, j);
    }
  }

  lemma DeployMore(c: Config, pi: Policy, s: State, s1: State, s': State, k: Key, v: Value, ps: seq<Edge>, n: nat,
                   a: Edge)
    requires n < |ps| && NoDup(ps) && a < |s.edges| == |s1.edges| == |s'.edges|
    requires DeployedAt(c, pi, s, s1, k, v, ps, n, a) && Deploy(c, pi, s, k, v, ps[..n]) == Done(s1)
    requires a != ps[n] ==> SameCopies(s1.edges[a], s'.edges[a])
    requires a == ps[n] ==> AdmittedAt(s1.edges[a], s'.edges[a], k, v, Stays(c, pi, s1, k, v, a))
    ensures DeployedAt(c, pi, s, s', k, v, ps, n + 1, a)
  {
    var x, y, z := s.edges[a], s1.edges[a], s'.edges[a];
    NotYet(ps, n, a);
    if a !in ps[..n + 1] {
      SameThenSame(x, y, z);
    }
    forall i: nat | i < n + 1 && ps[i] == a
      ensures AdmittedAt(x, z, k, v, StaysAt(c, pi, s, k, v, ps, i))
    {
      if i == n {
        SameThenAdmitted(x, y, z, k, v, Stays(c, pi, s1, k, v, a));
      } else {
        AdmittedThenSame(x, y, z, k, v, StaysAt(c, pi, s, k, v, ps, i));
      }
    }
  }

  lemma NotYet(ps: seq<Edge>, n: nat, a: Edge)
    requires n < |ps| && NoDup(ps)
    ensures a in ps[..n + 1] <==> a in ps[..n] || a == ps[n]
    ensures a == ps[n] ==> a !in ps[..n] && forall i :: 0 <= i < n ==> ps[i] != a
  {
    assert ps[..n + 1] == ps[..n] + [ps[n]];
  }

  // ---- Requests -------------------------------------------------------------------------------------

  /** The edges the request places the object at, in the order they are taken; none without a search. */
  ghost function Placements(c: Config, pi: Policy, s: State, e: Edge, k: Key, v: Value): seq<Edge>
    requires e < |s.edges|
  {
    var s1 := Searched(c, pi, s, e, k, v);
    if s1.None? then []
    else
      var r := Place(c, pi, s1.value, k);
      if r.Done? then Arrange(pi, r.value) else []
  }

  /** Some placement edge keeps the new copy. */
  ghost predicate Deploys(c: Config, pi: Policy, s: State, e: Edge, k: Key, v: Value)
    requires e < |s.edges|
  {
    var ps := Placements(c, pi, s, e, k, v);
    var s1 := Searched(c, pi, s, e, k, v);
    s1.Some? && exists i: nat :: i < |ps| && StaysAt(c, pi, s1.value, k, v, ps, i)
  }

  /** Some edge holds the key with another value. */
  ghost predicate Differs(s: State, k: Key, v: Value) {
    exists a: Edge {:trigger Copy(s, a, k)} :: Copy(s, a, k).Some? && Copy(s, a, k) != Some(v)
  }

  /** What a request has done to a copy: it is gone, or as it was, or new and then of the request's key and value. */
  ghost predicate CopiedAt(s: State, s': State, k: Key, v: Value, a: Edge, j: Key) {
    || Copy(s', a, j).None?
    || Copy(s', a, j) == Copy(s, a, j)
    || (j == k && Copy(s, a, j).None? && Copy(s', a, j) == Some(v))
  }

  /** Validation takes copies away, none of the key it is about if the edge goes on to a search. */
  lemma Validated(c: Config, pi: Policy, s: State, e: Edge, k: Key, v: Value, s1: State, a: Edge)
    requires Inv(c, s) && e < |s.edges| && a < |s.edges| && Validate(c, pi, s, e, k, v) == Done(s1)
    ensures |s1.edges| == |s.edges| && FewerCopies(s.edges[a], s1.edges[a])
    ensures k in s1.edges[e].tracked ==> CopyIn(s1.edges[a], k) == CopyIn(s.edges[a], k)
  {
    var s' := ValidateCopies(c, pi, s, e, k, v);
    if a != e {
      assert SameCopies(s.edges[a], s1.edges[a]);
    }
    assert CopyIn(s1.edges[a], k) == CopyIn(s.edges[a], k) || CopyIn(s1.edges[a], k).None?;
  }

  /** Cache management without a search changes no copy; with one it deploys. */
  lemma ManageCopies(c: Config, pi: Policy, s: State, e: Edge, k: Key, v: Value) returns (s': State, ps: seq<Edge>)
    requires Inv(c, s) && e < |s.edges| && e in s.evict && c.topk >= 1
    requires k in s.edges[e].tracked ==> Admissible(c.limits, k, v)
    requires Manage(c, pi, s, e, k, v).Done?
    ensures Manage(c, pi, s, e, k, v) == Done(s') && |s'.edges| == |s.edges|
    ensures k !in s.edges[e].tracked ==> ps == [] && s'.edges == s.edges
    ensures k in s.edges[e].tracked ==>
              var s1 := Aggregate(s, e, k);
              && Place(c, pi, s1, k).Done? && ps == Arrange(pi, Place(c, pi, s1, k).value)
              && Candidates(s1, k, ps) && s1.edges == s.edges
              && DeployedAll(c, pi, s1, s', k, v, ps, |ps|)
  {
    var s1 := Aggregate(s, e, k);
    AggregateKeeps(c, s, e, k);
    s', ps := Manage(c, pi, s, e, k, v).value, [];
    if k in s.edges[e].tracked {
      PlaceKeeps(c, pi, s1, k);
      ps := Arrange(pi, Place(c, pi, s1, k).value);
      ArrangeCandidates(s1, k, Place(c, pi, s1, k).value, ps);
      s' := DeployCopies(c, pi, s1, k, v, ps);
    }
  }

  /** One edge of a deployment: an old copy of the key stays, and a new one is there exactly if placed and kept. */
  lemma DeployedCopies(c: Config, pi: Policy, s1: State, s': State, k: Key, v: Value, ps: seq<Edge>, a: Edge)
    requires a < |s1.edges| == |s'.edges| && Candidates(s1, k, ps) && DeployedAt(c, pi, s1, s', k, v, ps, |ps|, a)
    ensures forall j {:trigger CopyIn(s'.edges[a], j)} :: j != k ==>
              CopyIn(s'.edges[a], j).None? || CopyIn(s'.edges[a], j) == CopyIn(s1.edges[a], j)
    ensures CopyIn(s1.edges[a], k).Some? ==> CopyIn(s'.edges[a], k) == CopyIn(s1.edges[a], k)
    ensures CopyIn(s1.edges[a], k).None? ==>
              CopyIn(s'.edges[a], k) ==
              if exists i: nat :: i < |ps| && ps[i] == a && StaysAt(c, pi, s1, k, v, ps, i) then Some(v) else None
  {
    var x, x' := s1.edges[a], s'.edges[a];
    assert ps[..|ps|] == ps;
    if a in ps {
      var i: nat :| i < |ps| && ps[i] == a;
      assert Candidate(s1, k, ps[i]);
      assert AdmittedAt(x, x', k, v, StaysAt(c, pi, s1, k, v, ps, i));
    } else {
      assert SameCopies(x, x');
      assert CopyIn(x', k) == CopyIn(x, k);
    }
  }

  /** What the request does to copies: the three facts everything below rests on. */
  ghost predicate Effect(s: State, s': State, k: Key, v: Value, deploys: bool) {
    && (forall a: Edge, j: Key {:trigger CopiedAt(s, s', k, v, a, j)} :: CopiedAt(s, s', k, v, a, j))
    && (deploys ==> forall a: Edge {:trigger Copy(s', a, k)} :: Copy(s, a, k).Some? ==> Copy(s', a, k) == Copy(s, a, k))
    && (deploys <==> exists a: Edge {:trigger Copy(s', a, k)} :: Copy(s, a, k).None? && Copy(s', a, k).Some?)
  }

  lemma NoSearchEffect(c: Config, pi: Policy, s: State, e: Edge, k: Key, v: Value, s1: State, s': State)
    requires Inv(c, s) && e < |s.edges| && Validate(c, pi, s, e, k, v) == Done(s1) && s'.edges == s1.edges
    ensures Effect(s, s', k, v, false)
  {
    forall a: Edge, j: Key
      ensures CopiedAt(s, s', k, v, a, j) && (Copy(s', a, j).None? || Copy(s', a, j) == Copy(s, a, j))
    {
      if a < |s.edges| {
        Validated(c, pi, s, e, k, v, s1, a);
        assert CopyIn(s'.edges[a], j).None? || CopyIn(s'.edges[a], j) == CopyIn(s.edges[a], j);
      }
    }
  }

  lemma SearchEffectAt(c: Config, pi: Policy, s: State, e: Edge, k: Key, v: Value, s1: State, s2: State, s': State,
                       ps: seq<Edge>, a: Edge, j: Key)
    requires Inv(c, s) && e < |s.edges| && Validate(c, pi, s, e, k, v) == Done(s1) && k in s1.edges[e].tracked
    requires s2.edges == s1.edges && |s'.edges| == |s.edges| && Candidates(s2, k, ps)
    requires a < |s.edges| == |s1.edges| && DeployedAt(c, pi, s2, s', k, v, ps, |ps|, a)
    ensures CopiedAt(s, s', k, v, a, j)
    ensures Copy(s, a, k).Some? ==> Copy(s', a, k) == Copy(s, a, k)
    ensures Copy(s, a, k).None? ==>
              (Copy(s', a, k).Some? <==> exists i: nat :: i < |ps| && ps[i] == a && StaysAt(c, pi, s2, k, v, ps, i))
  {
    Validated(c, pi, s, e, k, v, s1, a);
    DeployedCopies(c, pi, s2, s', k, v, ps, a);
    assert CopyIn(s1.edges[a], j).None? || CopyIn(s1.edges[a], j) == CopyIn(s.edges[a], j);
    assert j != k ==> CopyIn(s'.edges[a], j).None? || CopyIn(s'.edges[a], j) == CopyIn(s1.edges[a], j);
  }

  lemma SearchEffectAny(c: Config, pi: Policy, s: State, e: Edge, k: Key, v: Value, s1: State, s2: State, s': State,
                        ps: seq<Edge>, a: Edge, j: Key)
    requires Inv(c, s) && e < |s.edges| && Validate(c, pi, s, e, k, v) == Done(s1) && k in s1.edges[e].tracked
    requires s2.edges == s1.edges && |s'.edges| == |s.edges| && Candidates(s2, k, ps)
    requires a < |s1.edges| ==> DeployedAt(c, pi, s2, s', k, v, ps, |ps|, a)
    ensures CopiedAt(s, s', k, v, a, j)
    ensures Copy(s, a, k).Some? ==> Copy(s', a, k) == Copy(s, a, k)
  {
    if a < |s.edges| {
      SearchEffectAt(c, pi, s, e, k, v, s1, s2, s', ps, a, j);
    }
  }

  lemma SearchEffectAll(c: Config, pi: Policy, s: State, e: Edge, k: Key, v: Value, s1: State, s2: State, s': State,
                        ps: seq<Edge>)
    requires Inv(c, s) && e < |s.edges| && Validate(c, pi, s, e, k, v) == Done(s1) && k in s1.edges[e].tracked
    requires s2.edges == s1.edges && |s'.edges| == |s.edges| && Candidates(s2, k, ps)
    requires DeployedAll(c, pi, s2, s', k, v, ps, |ps|)
    ensures forall a: Edge, j: Key {:trigger CopiedAt(s, s', k, v, a, j)} :: CopiedAt(s, s', k, v, a, j)
    ensures forall a: Edge {:trigger Copy(s', a, k)} :: Copy(s, a, k).Some? ==> Copy(s', a, k) == Copy(s, a, k)
  {
    forall a: Edge, j: Key
      ensures CopiedAt(s, s', k, v, a, j)
    {
      SearchEffectAny(c, pi, s, e, k, v, s1, s2, s', ps, a, j);
    }
    forall a: Edge | Copy(s, a, k).Some?
      ensures Copy(s', a, k) == Copy(s, a, k)
    {
      SearchEffectAny(c, pi, s, e, k, v, s1, s2, s', ps, a, k);
    }
  }

  lemma NewIsPlaced(c: Config, pi: Policy, s: State, e: Edge, k: Key, v: Value, s1: State, s2: State, s': State,
                    ps: seq<Edge>, a: Edge)
    requires Inv(c, s) && e < |s.edges| && Validate(c, pi, s, e, k, v) == Done(s1) && k in s1.edges[e].tracked
    requires s2.edges == s1.edges && |s'.edges| == |s.edges| && Candidates(s2, k, ps)
    requires DeployedAll(c, pi, s2, s', k, v, ps, |ps|) && Copy(s, a, k).None? && Copy(s', a, k).Some?
    ensures exists i: nat :: i < |ps| && StaysAt(c, pi, s2, k, v, ps, i)
  {
    assert DeployedAt(c, pi, s2, s', k, v, ps, |ps|, a);
    SearchEffectAt(c, pi, s, e, k, v, s1, s2, s', ps, a, k);
  }

  lemma PlacedIsNew(c: Config, pi: Policy, s: State, e: Edge, k: Key, v: Value, s1: State, s2: State, s': State,
                    ps: seq<Edge>, i: nat)
    requires Inv(c, s) && e < |s.edges| && Validate(c, pi, s, e, k, v) == Done(s1) && k in s1.edges[e].tracked
    requires s2.edges == s1.edges && |s'.edges| == |s.edges| && Candidates(s2, k, ps)
    requires DeployedAll(c, pi, s2, s', k, v, ps, |ps|) && i < |ps| && StaysAt(c, pi, s2, k, v, ps, i)
    ensures Copy(s, ps[i], k).None? && Copy(s', ps[i], k).Some?
  {
    assert Candidate(s2, k, ps[i]);
    Validated(c, pi, s, e, k, v, s1, ps[i]);
    assert DeployedAt(c, pi, s2, s', k, v, ps, |ps|, ps[i]);
    SearchEffectAt(c, pi, s, e, k, v, s1, s2, s', ps, ps[i], k);
  }

  lemma SearchEffect(c: Config, pi: Policy, s: State, e: Edge, k: Key, v: Value, s1: State, s2: State, s': State,
                     ps: seq<Edge>)
    requires Inv(c, s) && e < |s.edges| && Validate(c, pi, s, e, k, v) == Done(s1) && k in s1.edges[e].tracked
    requires s2.edges == s1.edges && |s'.edges| == |s.edges| && Candidates(s2, k, ps)
    requires DeployedAll(c, pi, s2, s', k, v, ps, |ps|)
    ensures Effect(s, s', k, v, exists i: nat :: i < |ps| && StaysAt(c, pi, s2, k, v, ps, i))
  {
    SearchEffectAll(c, pi, s, e, k, v, s1, s2, s', ps);
    if a: Edge :| Copy(s, a, k).None? && Copy(s', a, k).Some? {
      NewIsPlaced(c, pi, s, e, k, v, s1, s2, s', ps, a);
    } else if i: nat :| i < |ps| && StaysAt(c, pi, s2, k, v, ps, i) {
      PlacedIsNew(c, pi, s, e, k, v, s1, s2, s', ps, i);
    }
  }

  /**
   No request changes a copy in place. Its new copies are of its own key and value, they exist exactly if a placement
   edge keeps one, and then every older copy of the key is still there.
   */
  lemma FinishEffect(c: Config, pi: Policy, s: State, e: Edge, k: Key, v: Value, isWrite: bool)
    requires Inv(c, s) && e < |s.edges| && c.topk >= 1 && (v.deleted ==> c.limits.deletes)
    requires Finish(c, pi, s, e, k, v, isWrite).Done?
    ensures Effect(s, Finish(c, pi, s, e, k, v, isWrite).value, k, v, Deploys(c, pi, s, e, k, v))
  {
    ValidateKeeps(c, pi, s, e, k, v);
    var s1 := Validate(c, pi, s, e, k, v).value;
    var s', ps := ManageCopies(c, pi, s1, e, k, v);
    if k in s1.edges[e].tracked {
      SearchEffect(c, pi, s, e, k, v, s1, Aggregate(s1, e, k), s', ps);
    } else {
      NoSearchEffect(c, pi, s, e, k, v, s1, s');
    }
  }

  // ---- Agreement ------------------------------------------------------------------------------------

  lemma OthersAgree(s: State, s': State, k: Key, v: Value, deploys: bool, j: Key)
    requires Effect(s, s', k, v, deploys) && Agree(s, j) && j != k
    ensures Agree(s', j)
  {
    forall a: Edge, b: Edge | Copy(s', a, j).Some? && Copy(s', b, j).Some?
      ensures Copy(s', a, j) == Copy(s', b, j)
    {
      assert CopiedAt(s, s', k, v, a, j) && CopiedAt(s, s', k, v, b, j);
    }
  }

  lemma KeyAgreesIff(s: State, s': State, k: Key, v: Value, deploys: bool)
    requires Effect(s, s', k, v, deploys) && Agree(s, k)
    ensures Agree(s', k) <==> !(deploys && Differs(s, k, v))
  {
    if deploys && Differs(s, k, v) {
      var a :| Copy(s, a, k).None? && Copy(s', a, k).Some?;
      var b :| Copy(s, b, k).Some? && Copy(s, b, k) != Some(v);
      assert CopiedAt(s, s', k, v, a, k);
      assert Copy(s', b, k) == Copy(s, b, k);
    } else {
      forall a: Edge, b: Edge | Copy(s', a, k).Some? && Copy(s', b, k).Some?
        ensures Copy(s', a, k) == Copy(s', b, k)
      {
        assert CopiedAt(s, s', k, v, a, k) && CopiedAt(s, s', k, v, b, k);
      }
    }
  }

  /** Copies still agree unless the request has deployed its value beside a copy with another one. */
  lemma AgreeIff(s: State, s': State, k: Key, v: Value, deploys: bool)
    requires Effect(s, s', k, v, deploys) && AllAgree(s)
    ensures AllAgree(s') <==> !(deploys && Differs(s, k, v))
  {
    assert Agree(s, k);
    KeyAgreesIff(s, s', k, v, deploys);
    if Agree(s', k) {
      forall j
        ensures Agree(s', j)
      {
        assert Agree(s, j);
        if j != k {
          OthersAgree(s, s', k, v, deploys, j);
        }
      }
    }
  }

  /** The lookup's answer is the value of every copy there is. */
  lemma LookupAgrees(c: Config, pi: Policy, s: State, e: Edge, k: Key, cloud: Value) returns (r: Reply)
    requires Inv(c, s) && e < |s.edges| && AllAgree(s)
    ensures Lookup(c, pi, s, e, k, cloud) == Done(r) && Inv(c, r.state) && |r.state.edges| == |s.edges|
    ensures !Differs(s, k, r.value) && (r.value == cloud || Admissible(c.limits, k, r.value))
    ensures AllAgree(r.state) && forall v :: Differs(r.state, k, v) <==> Differs(s, k, v)
  {
    var at;
    r, at := LookupKeeps(c, pi, s, e, k, cloud);
    DirectoryIsCaches(c, s, k);
    assert Agree(s, k);
    assert r.hit != GlobalMiss ==> Copy(s, at, k) == Some(r.value);
    forall a: Edge, j: Key
      ensures Copy(r.state, a, j) == Copy(s, a, j)
    {
      LookupCopies(c, pi, s, e, k, cloud, a, j);
    }
    SameAgree(s, r.state);
  }

  /** Over agreeing copies every GET returns the value all copies have, and leaves them agreeing. */
  lemma GetAgrees(c: Config, pi: Policy, s: State, e: Edge, k: Key, cloud: Value)
    requires Inv(c, s) && e < |s.edges| && c.topk >= 1 && (cloud.deleted ==> c.limits.deletes)
    requires AllAgree(s) && Get(c, pi, s, e, k, cloud).Done?
    ensures AllAgree(Get(c, pi, s, e, k, cloud).value.state)
    ensures !Differs(s, k, Get(c, pi, s, e, k, cloud).value.value)
  {
    var r := LookupAgrees(c, pi, s, e, k, cloud);
    FinishEffect(c, pi, r.state, e, k, r.value, false);
    AgreeIff(r.state, Get(c, pi, s, e, k, cloud).value.state, k, r.value, Deploys(c, pi, r.state, e, k, r.value));
  }

  lemma SameAgree(s: State, s': State)
    requires AllAgree(s) && forall a: Edge, j: Key {:trigger Copy(s', a, j)} :: Copy(s', a, j) == Copy(s, a, j)
    ensures AllAgree(s')
  {
    forall k
      ensures Agree(s', k)
    {
      assert Agree(s, k);
    }
  }

  /** A write leaves copies disagreeing exactly if it deploys its value while some edge holds the key with another. */
  lemma WriteAgreesIff(c: Config, pi: Policy, s: State, e: Edge, k: Key, v: Value)
    requires Inv(c, s) && e < |s.edges| && c.topk >= 1 && (v.deleted ==> c.limits.deletes)
    requires AllAgree(s) && Write(c, pi, s, e, k, v).Done?
    ensures AllAgree(Write(c, pi, s, e, k, v).value) <==> !(Deploys(c, pi, s, e, k, v) && Differs(s, k, v))
  {
    FinishEffect(c, pi, s, e, k, v, true);
    AgreeIff(s, Write(c, pi, s, e, k, v).value, k, v, Deploys(c, pi, s, e, k, v));
  }

  // ---- What clients see -----------------------------------------------------------------------------

  ghost function Answer(c: Config, pi: Policy, s: State, e: Edge, k: Key, cloud: Value): Option<Value>
    requires e < |s.edges|
  {
    var r := Lookup(c, pi, s, e, k, cloud);
    if r.Done? then Some(r.value.value) else None
  }

  /** Copies of a cached key agree exactly if the clients of all edges get the same answer. */
  lemma SameAnswersIff(c: Config, pi: Policy, s: State, k: Key, cloud: Value)
    requires Inv(c, s) && k in s.dir
    ensures Agree(s, k) <==>
            forall e: Edge, f: Edge {:trigger Answer(c, pi, s, e, k, cloud), Answer(c, pi, s, f, k, cloud)} ::
              e < |s.edges| && f < |s.edges| ==> Answer(c, pi, s, e, k, cloud) == Answer(c, pi, s, f, k, cloud)
  {
    if Agree(s, k) {
      forall e: Edge, f: Edge | e < |s.edges| && f < |s.edges|
        ensures Answer(c, pi, s, e, k, cloud) == Answer(c, pi, s, f, k, cloud)
      {
        var a := AnswerIsCopy(c, pi, s, e, k, cloud);
        var b := AnswerIsCopy(c, pi, s, f, k, cloud);
      }
    } else {
      var a: Edge, b: Edge :| Copy(s, a, k).Some? && Copy(s, b, k).Some? && Copy(s, a, k) != Copy(s, b, k);
      var x := AnswerIsCopy(c, pi, s, a, k, cloud);
      var y := AnswerIsCopy(c, pi, s, b, k, cloud);
    }
  }

  /** An edge answers from its own copy, or else from another one. */
  lemma AnswerIsCopy(c: Config, pi: Policy, s: State, e: Edge, k: Key, cloud: Value) returns (a: Edge)
    requires Inv(c, s) && k in s.dir && e < |s.edges|
    ensures Copy(s, a, k).Some? && Answer(c, pi, s, e, k, cloud) == Copy(s, a, k)
    ensures Copy(s, e, k).Some? ==> Answer(c, pi, s, e, k, cloud) == Copy(s, e, k)
  {
    var r;
    r, a := LookupKeeps(c, pi, s, e, k, cloud);
    assert NodeOk(c, s, e);
    assert Copy(s, a, k) == Some(r.value);
  }

  // ---- Runs -----------------------------------------------------------------------------------------

  /** The request is a write that deploys its value while some edge holds the key with another. */
  ghost predicate Splits(c: Config, s: State, req: Request)
    requires req.e < |s.edges|
  {
    req.WriteRequest? && Deploys(c, req.pi, s, req.e, req.k, req.v) && Differs(s, req.k, req.v)
  }

  lemma ProcessAgreesIff(c: Config, n: nat, s: State, req: Request)
    requires c.topk >= 1 && Kept(c, n, s) && Admits(c, n, req) && AllAgree(s) && Process(c, s, req).Done?
    ensures AllAgree(Process(c, s, req).value) <==> !Splits(c, s, req)
  {
    match req
    case GetRequest(pi, e, k, cloud) => GetAgrees(c, pi, s, e, k, cloud);
    case WriteRequest(pi, e, k, v) => WriteAgreesIff(c, pi, s, e, k, v);
  }

  /** The run gets past its first `i` requests, and then copies agree. */
  ghost predicate AgreesAfter(c: Config, s: State, reqs: seq<Request>, i: nat)
    requires i <= |reqs|
  {
    var r := Run(c, s, reqs[..i]);
    r.Done? ==> AllAgree(r.value)
  }

  /** The run gets past request `i`, and that request splits the copies. */
  ghost predicate SplitsAt(c: Config, s: State, reqs: seq<Request>, i: nat)
    requires i < |reqs|
  {
    var r := Run(c, s, reqs[..i]);
    Run(c, s, reqs[..i + 1]).Done? && r.Done? && reqs[i].e < |r.value.edges| && Splits(c, r.value, reqs[i])
  }

  lemma StepAgreesIff(c: Config, n: nat, base: nat, reqs: seq<Request>, i: nat)
    requires c.topk >= 1 && i < |reqs| && forall j :: 0 <= j < |reqs| ==> Admits(c, n, reqs[j])
    requires AgreesAfter(c, Init(n, base), reqs, i)
    ensures AgreesAfter(c, Init(n, base), reqs, i + 1) <==> !SplitsAt(c, Init(n, base), reqs, i)
  {
    var s := Init(n, base);
    assert reqs[..i + 1][..i] == reqs[..i];
    assert forall j :: 0 <= j < i ==> reqs[..i][j] == reqs[j];
    RunKeeps(c, n, base, reqs[..i]);
    if Run(c, s, reqs[..i + 1]).Done? {
      ProcessAgreesIff(c, n, Run(c, s, reqs[..i]).value, reqs[i]);
    }
  }

  lemma {:induction false} AgreeUntil(c: Config, n: nat, base: nat, reqs: seq<Request>, i: nat)
    requires c.topk >= 1 && i <= |reqs| && forall j :: 0 <= j < |reqs| ==> Admits(c, n, reqs[j])
    requires forall j: nat :: j < |reqs| ==> !SplitsAt(c, Init(n, base), reqs, j)
    ensures AgreesAfter(c, Init(n, base), reqs, i)
  {
    if i > 0 {
      AgreeUntil(c, n, base, reqs, i - 1);
      StepAgreesIff(c, n, base, reqs, i - 1);
    }
  }

  /**
   Over every run, deleted values included: the copies of every key agree after each request exactly if no write deploys
   its value while some edge holds the key with another. Runs of GETs therefore never make copies differ.
   */
  lemma RunAgreesIff(c: Config, n: nat, base: nat, reqs: seq<Request>)
    requires c.topk >= 1 && forall j :: 0 <= j < |reqs| ==> Admits(c, n, reqs[j])
    ensures (forall i: nat :: i <= |reqs| ==> AgreesAfter(c, Init(n, base), reqs, i)) <==>
            (forall i: nat :: i < |reqs| ==> !SplitsAt(c, Init(n, base), reqs, i))
    ensures (forall i :: 0 <= i < |reqs| ==> reqs[i].GetRequest?) ==>
              forall i: nat :: i <= |reqs| ==> AgreesAfter(c, Init(n, base), reqs, i)
  {
    var s := Init(n, base);
    forall i: nat | i < |reqs| && (forall j: nat :: j <= |reqs| ==> AgreesAfter(c, s, reqs, j))
      ensures !SplitsAt(c, s, reqs, i)
    {
      assert AgreesAfter(c, s, reqs, i) && AgreesAfter(c, s, reqs, i + 1);
      StepAgreesIff(c, n, base, reqs, i);
    }
    if forall i: nat :: i < |reqs| ==> !SplitsAt(c, s, reqs, i) {
      forall i: nat | i <= |reqs|
        ensures AgreesAfter(c, s, reqs, i)
      {
        AgreeUntil(c, n, base, reqs, i);
      }
    }
  }
}
