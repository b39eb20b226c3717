/** The COVERED simulator as the program keeps it: edge caches, the directory, popularities and victim records. */
module CoveredSimulator {
  import opened Types
  import opened Directory
  import opened Victims
  import opened CoveredNode
  import opened CoveredSim
  import opened CoveredRuns
  import opened CoveredMargins
  import opened CoveredOutcomes
  import opened UncachedIndex
  import EvictionCost
  import Placement
  import P = PopularityIndex

  // ---- Local cache ----------------------------------------------------------------------------------

  method RankOf(rank: seq<Key>, k: Key) returns (i: nat)
    requires NoDup(rank) && k in rank
    ensures i == Pos(rank, k)
  {
    ghost var p := Pos(rank, k);
    i := 0;
    while rank[i] != k
      invariant i <= p
      decreases p - i
    {
      i := i + 1;
    }
  }

  /** Whether the key's entry is within the first `cnt` of the reward order. */
  method IsWithinTargetLeastRewardRank(rank: seq<Key>, k: Key, cnt: nat) returns (r: bool)
    requires NoDup(rank) && k in rank
    ensures r <==> Pos(rank, k) < cnt
  {
    ghost var p := Pos(rank, k);
    r := false;
    var i := 0;
    while i < cnt && i < |rank|
      invariant i <= p
    {
      if rank[i] == k {
        return true;
      }
      i := i + 1;
    }
  }

  method TouchNode(x: Node, k: Key, m: Move, cnt: nat, ghost lim: Limits) returns (y: Node, affect: bool)
    requires CoveredNode.Wf(x, lim) && k in x.objs
    ensures y == Touch(x, k, m) && (affect <==> TouchAffects(x, k, m, cnt))
  {
    var before := IsWithinTargetLeastRewardRank(x.rank, k, cnt);
    var i := RankOf(x.rank, k);
    y := x.(objs := x.objs[k := x.objs[k].(localPop := m.localPop, redirPop := m.redirPop)],
            rank := Shift(x.rank, i, m.pos));
    ShiftElems(x.rank, i, m.pos);
    var after := IsWithinTargetLeastRewardRank(y.rank, k, cnt);
    ShiftPos(x.rank, i, m.pos);
    affect := before || after;
  }

  lemma ShiftPos(s: seq<Key>, i: nat, p: nat)
    requires NoDup(s) && i < |s|
    ensures NoDup(Shift(s, i, p)) && s[i] in Shift(s, i, p) && Pos(Shift(s, i, p), s[i]) == Min(p, |s| - 1)
  {
    ShiftElems(s, i, p);
    assert Shift(s, i, p)[Min(p, |s| - 1)] == s[i];
  }

  /** Without one object and its place in the reward order. */
  ghost function Removed(x: Node, k: Key): Node
    requires k in x.rank
  {
    x.(objs := x.objs - {k}, rank := x.rank[..Pos(x.rank, k)] + x.rank[Pos(x.rank, k) + 1..])
  }

  /** Removes a victim, which must be there. */
  method EvictKey(x: Node, k: Key) returns (y: Node)
    requires NoDup(x.rank) && k in x.rank && k in x.objs
    ensures y == Removed(x, k)
  {
    var i := RankOf(x.rank, k);
    y := x.(objs := x.objs - {k}, rank := x.rank[..i] + x.rank[i + 1..]);
  }

  lemma DropFirst(x: Node)
    requires |x.rank| > 0
    ensures Drop(x, 1) == x.(objs := x.objs - {x.rank[0]}, rank := x.rank[1..])
  {
    assert forall k :: k in x.rank[..1] <==> k == x.rank[0];
  }

  lemma FirstPos(rank: seq<Key>)
    requires NoDup(rank) && |rank| > 0
    ensures Pos(rank, rank[0]) == 0 && rank[..0] + rank[1..] == rank[1..]
  {
  }

  lemma DropHead(d: Node)
    requires NoDup(d.rank) && |d.rank| > 0
    ensures Drop(d, 1) == Removed(d, d.rank[0])
  {
    DropFirst(d);
    FirstPos(d.rank);
  }

  lemma DropTwice(x: Node, a: nat, b: nat)
    requires a + b <= |x.rank|
    ensures Drop(Drop(x, a), b) == Drop(x, a + b)
  {
    assert x.rank[a..][b..] == x.rank[a + b..];
    assert x.rank[..a + b] == x.rank[..a] + x.rank[a..][..b];
  }

  lemma DropNext(x: Node, i: nat, y: Node, lim: Limits)
    requires CoveredNode.Wf(x, lim) && i < |x.rank| && y == Drop(x, i)
    ensures NoDup(y.rank) && x.rank[i] in y.rank && x.rank[i] in y.objs
    ensures Drop(x, i + 1) == Removed(y, x.rank[i])
  {
    DropWf(x, i, lim);
    assert y.rank[0] == x.rank[i];
    DropHead(y);
    DropTwice(x, i, 1);
  }

  method EvictNext(x: Node, i: nat, y: Node, ghost lim: Limits) returns (z: Node)
    requires CoveredNode.Wf(x, lim) && i < |x.rank| && y == Drop(x, i)
    ensures z == Drop(x, i + 1)
  {
    DropNext(x, i, y, lim);
    z := EvictKey(y, x.rank[i]);
  }

  /** Evicts the victims one by one; each is still cached when its turn comes. */
  method EvictVictims(x: Node, m: nat, ghost lim: Limits) returns (y: Node)
    requires CoveredNode.Wf(x, lim) && m <= |x.rank|
    ensures y == Drop(x, m)
  {
    y := x;
    assert x.rank[..0] == [];
    for i := 0 to m
      invariant y == Drop(x, i)
    {
      y := EvictNext(x, i, y, lim);
    }
  }

  method GetSizeForCapacity(x: Node) returns (used: nat)
    ensures used == Used(x)
  {
    var bytes := SumBytes(Infos(x));
    used := bytes + x.meta;
  }

  /** One round: victims for the excess, evicted one by one. */
  method EvictRound(x: Node, left: set<Key> -> nat, excess: nat, ghost lim: Limits) returns (r: Option<(Node, nat)>)
    requires CoveredNode.Wf(x, lim) && excess > 0
    ensures r.None? <==> Cover(Infos(x), excess).None?
    ensures r.Some? ==> Cover(Infos(x), excess) == Some(r.value.1) && 0 < r.value.1 <= |x.rank|
    ensures r.Some? ==> r.value.0 == Shrunk(x, r.value.1, left)
  {
    var taken := TakeVictims(Infos(x), excess);
    if taken.None? {
      return None;
    }
    CoverPositive(Infos(x), excess);
    var m := |taken.value|;
    var y := EvictVictims(x, m, lim);
    r := Some((y.(meta := Min(x.meta, left(y.objs.Keys))), m));
  }

  /** Evicts until the edge is within capacity, which one round achieves; no result when its objects run out. */
  method EvictToFit(x: Node, left: set<Key> -> nat, capacity: nat, ghost lim: Limits)
    returns (r: Option<Node>, victims: seq<Key>)
    requires CoveredNode.Wf(x, lim)
    ensures r.None? <==> EvictCount(x, capacity).None?
    ensures r.Some? ==> var m := EvictCount(x, capacity).value;
                        r.value == Shrunk(x, m, left) && victims == x.rank[..m]
  {
    var y, n := x, 0;
    while true
      invariant 0 <= n <= |x.rank| && LoopAt(x, left, capacity, y, n)
      decreases n == 0
    {
      var fits, round := EvictUnlessFits(x, left, capacity, y, n, lim);
      if fits {
        break;
      }
      if round.None? {
        return None, [];
      }
      y, n := round.value.0, round.value.1;
    }
    LoopEnds(x, left, capacity, y, n);
    r, victims := Some(y), x.rank[..n];
  }

  /** The body of the loop. */
  method EvictUnlessFits(x: Node, left: set<Key> -> nat, capacity: nat, y: Node, ghost n: nat, ghost lim: Limits)
    returns (fits: bool, round: Option<(Node, nat)>)
    requires CoveredNode.Wf(x, lim) && LoopAt(x, left, capacity, y, n)
    ensures fits <==> Used(y) <= capacity
    ensures !fits && round.None? ==> EvictCount(x, capacity).None?
    ensures !fits && round.Some? ==>
              n == 0 && 0 < round.value.1 <= |x.rank| && LoopAt(x, left, capacity, round.value.0, round.value.1)
  {
    var used := GetSizeForCapacity(y);
    fits, round := used <= capacity, None;
    if !fits {
      assert n == 0 && y == x;
      round := EvictRound(x, left, used - capacity, lim);
      if round.Some? {
        OneRound(x, capacity, left, round.value.1);
      }
    }
  }

  /** Nothing evicted yet, or everything that has to go. */
  ghost predicate LoopAt(x: Node, left: set<Key> -> nat, capacity: nat, y: Node, n: nat) {
    if n == 0 then y == x
    else n <= |x.rank| && EvictCount(x, capacity) == Some(n) && y == Shrunk(x, n, left) && Used(y) <= capacity
  }

  lemma LoopEnds(x: Node, left: set<Key> -> nat, capacity: nat, y: Node, n: nat)
    requires n <= |x.rank| && LoopAt(x, left, capacity, y, n) && Used(y) <= capacity
    ensures EvictCount(x, capacity) == Some(n) && y == Shrunk(x, n, left)
  {
  }

  /** How a method ended: all the way, at the exit of an edge whose objects ran out, or at a failing assertion. */
  type End = Outcome<()>

  ghost predicate Ended(end: End, s: State, r: Outcome<State>) {
    match end
    case Done(_) => r == Done(s)
    case Exhausted => r.Exhausted?
    case Failed(why) => r == Failed(why)
  }

  const DONE: End := Done(())

  ghost predicate Answered(end: End, reply: Reply, r: Outcome<Reply>) {
    match end
    case Done(_) => r == Done(reply)
    case Exhausted => r.Exhausted?
    case Failed(why) => r == Failed(why)
  }

  /** What follows the lookup ends here, or goes on with cache management unless a write does not find its key. */
  ghost predicate Goes(end: End, s': State, c: Config, pi: Policy, s: State, e: Edge, k: Key, v: Value, isWrite: bool)
    requires e < |s.edges|
  {
    var f := Finish(c, pi, s, e, k, v, isWrite);
    if !end.Done? then Ended(end, s', f)
    else if isWrite && k !in s'.dir then f == Failed(NoDirectoryEntry)
    else e < |s'.edges| && f == Manage(c, pi, s', e, k, v)
  }

  lemma FinishAfter(end: End, s': State, c: Config, pi: Policy, s: State, e: Edge, k: Key, v: Value, isWrite: bool)
    requires e < |s.edges| && Ended(end, s', Validate(c, pi, s, e, k, v))
    ensures Goes(end, s', c, pi, s, e, k, v, isWrite)
  {
  }

  lemma GetEnd(c: Config, pi: Policy, s: State, e: Edge, k: Key, cloud: Value, r: Reply, end: End, s': State)
    requires e < |s.edges| && Lookup(c, pi, s, e, k, cloud) == Done(r) && e < |r.state.edges|
    requires Ended(end, s', Finish(c, pi, r.state, e, k, r.value, false))
    ensures Answered(end, r.(state := s'), Get(c, pi, s, e, k, cloud))
  {
  }

  lemma RemoteMiss(c: Config, pi: Policy, s: State, e: Edge, k: Key, cloud: Value)
    requires Minus(Holders(s.dir, k), e) == []
    ensures Remote(c, pi, s, e, k, cloud) == Done(Reply(s, GlobalMiss, cloud))
  {
  }

  lemma RemoteHit(c: Config, pi: Policy, s: State, e: Edge, k: Key, cloud: Value, t: Edge)
    requires Minus(Holders(s.dir, k), e) != [] && t < |s.edges| && Hit(s, t, k)
    requires var others := Minus(Holders(s.dir, k), e); t == others[pi.pick % |others|]
    ensures Remote(c, pi, s, e, k, cloud) ==
            Done(Reply(TouchAt(c, pi, s, t, k), CooperativeHit, ValueOf(s.edges[t], k)))
  {
  }

  // ---- Global tables --------------------------------------------------------------------------------

  class Simulator {
    const c: Config
    const directory: PerkeyGlobalCachedObjinfo
    const index: PerkeyLocalUncachedObjinfo
    var edges: seq<Node>
    var evict: map<Edge, EvictInfo>

    ghost predicate Valid()
      reads this, directory, index, index.objs.Values
    {
      directory.Valid() && index.Valid()
    }

    ghost function View(): State
      reads this, directory, index
    {
      State(edges, directory.table, index.view, evict)
    }

    constructor (c: Config, n: nat, base: nat)
      ensures Valid() && View() == Init(n, base) && this.c == c && Kept(c, n, View())
      ensures fresh(directory) && fresh(index) && fresh(index.objs.Values)
    {
      this.c := c;
      directory := new PerkeyGlobalCachedObjinfo();
      index := new PerkeyLocalUncachedObjinfo();
      edges, evict := seq(n, i => Empty(base)), map[];
      new;
      InitInv(c, n, base);
    }

    /** A margin-only update needs the edge's record; callers show it is there. */
    method VictimSynchronization(e: Edge, affect: bool)
      requires e < |edges| && (affect || e in evict)
      modifies this`evict
      ensures Sync(c, old(View()), e, affect) == Done(View())
    {
      var used := GetSizeForCapacity(edges[e]);
      var margin := if c.limits.capacity >= used then c.limits.capacity - used else 0;
      if affect {
        evict := evict[e := EvictInfo(margin, Synced(edges[e], c.synced))];
      } else {
        evict := evict[e := evict[e].(margin := margin)];
      }
    }

    method TouchEdge(pi: Policy, e: Edge, k: Key)
      requires e < |edges| && NodeOk(c, View(), e) && k in edges[e].objs
      modifies this
      ensures View() == TouchAt(c, pi, old(View()), e, k)
    {
      var y, affect := TouchNode(edges[e], k, pi.touch(e, edges[e]), c.synced, c.limits);
      edges := edges[e := y];
      if affect {
        VictimSynchronization(e, true);
      }
    }

    method AccessClosestCache(pi: Policy, e: Edge, k: Key) returns (hit: Option<Value>)
      requires e < |edges| && NodeOk(c, View(), e)
      modifies this
      ensures View() == Access(c, pi, old(View()), e, k)
      ensures hit == if Hit(old(View()), e, k) then Some(ValueOf(old(edges[e]), k)) else None
    {
      var x := edges[e];
      hit := if k in x.objs && x.objs[k].valid then Some(x.objs[k].value) else None;
      if k in x.objs {
        TouchEdge(pi, e, k);
      } else {
        var m := pi.miss(e, x);
        edges := edges[e := Recall(x, m.(tracked := m.tracked - x.objs.Keys))];
      }
    }

    /** The other edges that cache the object, in directory order. */
    method OtherHolders(e: Edge, k: Key) returns (others: seq<Edge>)
      requires Valid()
      ensures others == Minus(Holders(directory.table, k), e)
    {
      var exists_, l := directory.GetEdgeNodeIdxes(k);
      var i := 0;
      while i < |l| && l[i] != e
        invariant i <= |l| && forall j :: 0 <= j < i ==> l[j] != e
      {
        i := i + 1;
      }
      others := if i < |l| then l[..i] + l[i + 1..] else l;
      if exists_ {
        assert NoDup(l);
      }
    }

    /** Tells the single remaining holder of each victim. */
    method DisableNeighbors(keys: seq<Key>)
      requires Valid()
      modifies this`edges
      ensures edges == Disable(old(edges), directory.table, keys)
    {
      assert keys[..0] == [];
      for i := 0 to |keys|
        invariant edges == Disable(old(edges), directory.table, keys[..i])
      {
        assert keys[..i + 1][..i] == keys[..i];
        var _, l := directory.GetEdgeNodeIdxes(keys[i]);
        if |l| == 1 && l[0] < |edges| {
          edges := edges[l[0] := SetNeighbor(edges[l[0]], keys[i], false)];
        }
      }
      assert keys[..|keys|] == keys;
    }

    method EvictForCapacity(pi: Policy, e: Edge) returns (end: End)
      requires Valid() && e < |edges| && NodeOk(c, View(), e)
      modifies this, directory
      ensures Valid() && Ended(end, View(), Settle(c, pi, old(View()), e))
    {
      var y, victims := EvictToFit(edges[e], pi.left(e), c.limits.capacity, c.limits);
      if y.None? {
        return Exhausted;
      }
      ApplyEviction(pi, e, y.value, victims, EvictCount(edges[e], c.limits.capacity).value);
      end := DONE;
    }

    method ApplyEviction(pi: Policy, e: Edge, y: Node, victims: seq<Key>, ghost m: nat)
      requires Valid() && e < |edges| && m <= |edges[e].rank|
      requires y == Shrunk(edges[e], m, pi.left(e)) && victims == edges[e].rank[..m]
      modifies this, directory
      ensures Valid() && View() == Settled(c, pi, old(View()), e, m)
    {
      ghost var s := View();
      edges := edges[e := y];
      RemoveVictims(directory, victims, e);
      assert View() == Evicted(pi, s, e, m);
      VictimSynchronization(e, true);
      ghost var s1 := View();
      assert s1 == SyncFull(c, Evicted(pi, s, e, m), e);
      DisableNeighbors(victims);
      assert View() == s1.(edges := Disable(s1.edges, s1.dir, victims));
    }

    /** Only an uncached object is looked at: every copy is valid. */
    method LearnFetchedValue(pi: Policy, e: Edge, k: Key, v: Value)
      requires Inv(c, View()) && e < |edges|
      modifies this`edges
      ensures View() == Replace(old(View()), e, Refresh(c, pi, old(edges[e]), e, k, v).0)
      ensures Inv(c, View()) && !Refresh(c, pi, old(edges[e]), e, k, v).1
    {
      ghost var s := View();
      var x := edges[e];
      assert NodeOk(c, s, e);
      RefreshKeeps(c, pi, s, e, k, v);
      if k !in x.objs {
        var rejected := if ValidObjsize(c.limits.capacity, k, v) then {} else {k};
        var m := pi.learn(e, x);
        x := Recall(x, m.(tracked := m.tracked - x.objs.Keys - rejected));
      }
      edges := edges[e := x];
      assert View() == Replace(s, e, x);
    }

    /** Eviction of an edge whose state is consistent. */
    method SettleEdge(pi: Policy, e: Edge) returns (end: End)
      requires Valid() && InvBut(c, View(), Some(e)) && e < |edges|
      modifies this, directory
      ensures Valid() && Ended(end, View(), Settle(c, pi, old(View()), e))
      ensures end.Done? ==> e in evict && |edges| == old(|edges|)
    {
      assert NodeOk(c, View(), e);
      SettleKeeps(c, pi, View(), e);
      end := EvictForCapacity(pi, e);
      assert end.Done? ==> e in View().evict.Keys;
    }

    /** Eviction unless the value is deleted, then a margin-only update, which needs the edge's record. */
    method SettleAndUpdateMargin(pi: Policy, e: Edge, deleted: bool) returns (end: End)
      requires Valid() && InvBut(c, View(), Some(e)) && e < |edges|
      modifies this, directory
      ensures Valid() && Ended(end, View(), SettleAndSync(c, pi, old(View()), e, deleted, false))
    {
      end := DONE;
      if !deleted {
        end := SettleEdge(pi, e);
      } else if e !in evict {
        end := Failed(NoEvictInfo);
      }
      if end.Done? {
        VictimSynchronization(e, false);
      }
    }

    method ValidateClosestEdge(pi: Policy, e: Edge, k: Key, v: Value) returns (end: End)
      requires Valid() && Inv(c, View()) && e < |edges|
      modifies this, directory
      ensures Valid() && Ended(end, View(), Validate(c, pi, old(View()), e, k, v))
    {
      LearnFetchedValue(pi, e, k, v);
      OpenHole(c, View(), e);
      end := SettleAndUpdateMargin(pi, e, v.deleted);
    }

    /** Tells the popularity tables what the closest edge tracks about the object. */
    method TryPopularityAggregation(e: Edge, k: Key) returns (tracked: bool)
      requires Valid() && e < |edges|
      modifies index, index.objs.Values
      ensures Valid() && View() == Aggregate(old(View()), e, k) && (tracked <==> k in old(edges[e]).tracked)
      ensures fresh(index.objs.Values - old(index.objs.Values))
    {
      tracked := k in edges[e].tracked;
      if tracked {
        index.AddLocalUncachedPopularity(k, e, edges[e].tracked[k]);
      } else {
        index.TryToRemove(k, e);
      }
    }

    /** The search runs on the top-k list; its assertions and its use of the victim records are safe. */
    method PlacementCalculation(pi: Policy, k: Key) returns (r: Placement.Choice)
      requires Valid() && Inv(c, View()) && k in index.view && c.topk >= 1
      ensures Place(c, pi, View(), k) ==
              (match r case Exit => Exhausted case Nothing => Done([]) case Place(ps) => Done(ps))
    {
      ProblemIsSolvable(c, pi, View(), k);
      NoSumFails(ProblemOf(c, pi, View(), k));
      P.TopKSize(index.view[k].pops, c.topk);
      var objsize, top := index.GetTopk(k, c.topk);
      var cached := directory.IsGlobalCached(k);
      var nodes := edges;
      var all := seq(|nodes|, i requires 0 <= i < |nodes| => Infos(nodes[i]));
      assert all == ContextOf(View()).all;
      var context := EvictionCost.Context(evict, all, directory.table);
      var p := Placement.Problem(context, top, objsize, cached, pi.weights);
      assert p == ProblemOf(c, pi, View(), k);
      r := Placement.PlacementCalculation(p);
    }

    /** Admission at a candidate edge: neither the early return nor a failing assertion is possible. */
    method AdmitIntoEdge(pi: Policy, k: Key, v: Value, p: Edge) returns (end: End)
      requires Valid() && Inv(c, View()) && Candidate(View(), k, p) && Admissible(c.limits, k, v)
      modifies this, directory, index, index.objs.Values
      ensures Valid() && fresh(index.objs.Values - old(index.objs.Values))
      ensures Ended(end, View(), AdmitInto(c, pi, old(View()), k, v, p))
    {
      ghost var s1 := AdmitIntoIs(c, pi, View(), k, v, p);
      AdmitAndNotify(pi, k, v, p);
      OpenHole(c, s1, p);
      end := SettleEdge(pi, p);
    }

    method AdmitAndNotify(pi: Policy, k: Key, v: Value, p: Edge)
      requires Valid() && p < |edges| && p in evict && p !in Holders(directory.table, k)
      modifies this, directory, index, index.objs.Values
      ensures Valid() && fresh(index.objs.Values - old(index.objs.Values))
      ensures Introduce(c, pi, old(View()), k, v, p) == Done(View())
    {
      var cached, orig := directory.GetEdgeNodeIdxes(k);
      AdmitAndSync(pi, k, v, p, cached);
      EnableNeighbor(orig, k);
    }

    method EnableNeighbor(orig: seq<Edge>, k: Key)
      modifies this`edges
      ensures View() == old(View()).(edges := Enable(old(edges), orig, k))
    {
      if |orig| == 1 && orig[0] < |edges| {
        edges := edges[orig[0] := SetNeighbor(edges[orig[0]], k, true)];
      }
    }

    method AdmitAndSync(pi: Policy, k: Key, v: Value, p: Edge, cached: bool)
      requires Valid() && p < |edges| && p in evict && p !in Holders(directory.table, k)
      requires cached <==> k in directory.table
      modifies this, directory, index, index.objs.Values
      ensures Valid() && fresh(index.objs.Values - old(index.objs.Values))
      ensures var affect := AdmitAffects(old(edges[p]), k, pi.admit(p, old(edges[p])), c.synced);
              Sync(c, Admitted(pi, old(View()), k, v, p), p, affect) == Done(View())
    {
      var x := edges[p];
      var m := pi.admit(p, x);
      ghost var s := View();
      edges := edges[p := Admit(x, k, v, cached, m, pi.grown(p, x))];
      directory.AddEdgeNode(k, p);
      index.TryToRemove(k, p);
      assert View() == Admitted(pi, s, k, v, p);
      VictimSynchronization(p, AdmitAffects(x, k, m, c.synced));
    }

    /** Admits at one placement edge after the other; every one is still a candidate when its turn comes. */
    method PlacementDeployment(pi: Policy, k: Key, v: Value, ps: seq<Edge>) returns (end: End)
      requires Valid() && Inv(c, View()) && Candidates(View(), k, ps) && Admissible(c.limits, k, v)
      modifies this, directory, index, index.objs.Values
      ensures Valid() && fresh(index.objs.Values - old(index.objs.Values))
      ensures Ended(end, View(), Deploy(c, pi, old(View()), k, v, ps))
    {
      ghost var s := View();
      assert ps[..0] == [];
      end := DONE;
      for i := 0 to |ps|
        invariant Valid() && fresh(index.objs.Values - old(index.objs.Values)) && end.Done?
        invariant Deploy(c, pi, s, k, v, ps[..i]) == Done(View())
      {
        end := DeployAt(pi, k, v, ps, i, s);
        if !end.Done? {
          return;
        }
      }
      assert ps[..|ps|] == ps;
    }

    method DeployAt(pi: Policy, k: Key, v: Value, ps: seq<Edge>, i: nat, ghost s: State) returns (end: End)
      requires Valid() && Inv(c, s) && Candidates(s, k, ps) && Admissible(c.limits, k, v) && i < |ps|
      requires Deploy(c, pi, s, k, v, ps[..i]) == Done(View())
      modifies this, directory, index, index.objs.Values
      ensures Valid() && fresh(index.objs.Values - old(index.objs.Values))
      ensures end.Done? ==> Deploy(c, pi, s, k, v, ps[..i + 1]) == Done(View())
      ensures !end.Done? ==> Ended(end, View(), Deploy(c, pi, s, k, v, ps))
    {
      ghost var s1 := View();
      DeployKeeps(c, pi, s, k, v, ps, i);
      end := AdmitIntoEdge(pi, k, v, ps[i]);
      DeployEnd(c, pi, s, k, v, ps, i, s1, end, View());
    }

    /** Aggregation, then placement and deployment if the closest edge tracks the object. */
    method TriggerCacheManagement(pi: Policy, e: Edge, k: Key, v: Value) returns (end: End)
      requires Valid() && Inv(c, View()) && e < |edges| && e in evict && c.topk >= 1
      requires k in edges[e].tracked ==> Admissible(c.limits, k, v)
      modifies this, directory, index, index.objs.Values
      ensures Valid() && fresh(index.objs.Values - old(index.objs.Values))
      ensures Ended(end, View(), Manage(c, pi, old(View()), e, k, v))
    {
      ghost var s := View();
      AggregateKeeps(c, s, e, k);
      var tracked := TryPopularityAggregation(e, k);
      end := DONE;
      if tracked {
        end := PlaceAndDeploy(pi, k, v);
      }
    }

    method PlaceAndDeploy(pi: Policy, k: Key, v: Value) returns (end: End)
      requires Valid() && Inv(c, View()) && c.topk >= 1 && k in index.view && Admissible(c.limits, k, v)
      modifies this, directory, index, index.objs.Values
      ensures Valid() && fresh(index.objs.Values - old(index.objs.Values))
      ensures Ended(end, View(), PlaceThenDeploy(c, pi, old(View()), k, v))
    {
      PlaceKeeps(c, pi, View(), k);
      var r := PlacementCalculation(pi, k);
      if r.Exit? {
        return Exhausted;
      }
      var ps := if r.Place? then r.edges else [];
      var qs := Arrange(pi, ps);
      ArrangeCandidates(View(), k, ps, qs);
      end := PlacementDeployment(pi, k, v, qs);
    }

    /** The redirection target; the assertion on its copy holds. */
    method RequestRedirection(pi: Policy, t: Edge, k: Key) returns (v: Value)
      requires t < |edges| && NodeOk(c, View(), t) && k in edges[t].objs
      modifies this
      ensures View() == TouchAt(c, pi, old(View()), t, k) && v == ValueOf(old(edges[t]), k)
    {
      v := edges[t].objs[k].value;
      TouchEdge(pi, t, k);
    }

    method LookupLocal(pi: Policy, e: Edge, k: Key) returns (hit: Option<Value>)
      requires Valid() && Inv(c, View()) && e < |edges|
      modifies this
      ensures Valid() && View() == Access(c, pi, old(View()), e, k) && Inv(c, View()) && e < |edges|
      ensures hit == if Hit(old(View()), e, k) then Some(ValueOf(old(edges[e]), k)) else None
      ensures hit.None? ==> k !in edges[e].objs
    {
      ghost var s := View();
      assert NodeOk(c, s, e);
      AccessKeeps(c, pi, s, e, k);
      hit := AccessClosestCache(pi, e, k);
    }

    /** Local access, then content discovery and redirection to one of the other holders. */
    method LookupValue(pi: Policy, e: Edge, k: Key, cloud: Value) returns (hit: Hitflag, v: Value)
      requires Valid() && Inv(c, View()) && e < |edges|
      modifies this
      ensures Valid() && Lookup(c, pi, old(View()), e, k, cloud) == Done(Reply(View(), hit, v))
    {
      var local := LookupLocal(pi, e, k);
      if local.Some? {
        hit, v := LocalHit, local.value;
      } else {
        hit, v := LookupRemote(pi, e, k, cloud);
      }
    }

    /** The redirection target: another holder, which has a valid copy; none if there is no other holder. */
    method PickTarget(pi: Policy, e: Edge, k: Key, ghost cloud: Value) returns (t: Option<Edge>)
      requires Valid() && Inv(c, View()) && e < |edges| && k !in edges[e].objs
      ensures t.None? ==> Remote(c, pi, View(), e, k, cloud) == Done(Reply(View(), GlobalMiss, cloud))
      ensures t.Some? ==> t.value < |edges| && NodeOk(c, View(), t.value) && k in edges[t.value].objs
      ensures t.Some? ==>
                Remote(c, pi, View(), e, k, cloud) ==
                Done(Reply(TouchAt(c, pi, View(), t.value, k), CooperativeHit, ValueOf(edges[t.value], k)))
    {
      ghost var at := TargetHolds(c, pi, View(), e, k);
      var others := OtherHolders(e, k);
      if |others| == 0 {
        RemoteMiss(c, pi, View(), e, k, cloud);
        return None;
      }
      t := Some(others[pi.pick % |others|]);
      RemoteHit(c, pi, View(), e, k, cloud, at);
    }

    method LookupRemote(pi: Policy, e: Edge, k: Key, cloud: Value) returns (hit: Hitflag, v: Value)
      requires Valid() && Inv(c, View()) && e < |edges| && k !in edges[e].objs
      modifies this
      ensures Valid() && Remote(c, pi, old(View()), e, k, cloud) == Done(Reply(View(), hit, v))
    {
      var t := PickTarget(pi, e, k, cloud);
      if t.None? {
        return GlobalMiss, cloud;
      }
      v := RequestRedirection(pi, t.value, k);
      hit := CooperativeHit;
    }

    /** A GET. */
    method ProcessGetRequest(pi: Policy, e: Edge, k: Key, cloud: Value) returns (end: End, hit: Hitflag, v: Value)
      requires Valid() && Inv(c, View()) && e < |edges| && c.topk >= 1 && (cloud.deleted ==> c.limits.deletes)
      modifies this, directory, index, index.objs.Values
      ensures Valid() && fresh(index.objs.Values - old(index.objs.Values))
      ensures Answered(end, Reply(View(), hit, v), Get(c, pi, old(View()), e, k, cloud))
    {
      ghost var s := View();
      hit, v := LookupForManagement(pi, e, k, cloud);
      ghost var r := Reply(View(), hit, v);
      end := FinishRequest(pi, e, k, v, false);
      GetEnd(c, pi, s, e, k, cloud, r, end, View());
    }

    method LookupForManagement(pi: Policy, e: Edge, k: Key, cloud: Value) returns (hit: Hitflag, v: Value)
      requires Valid() && Inv(c, View()) && e < |edges| && (cloud.deleted ==> c.limits.deletes)
      modifies this
      ensures Valid() && Inv(c, View()) && e < |edges| && (v.deleted ==> c.limits.deletes)
      ensures Lookup(c, pi, old(View()), e, k, cloud) == Done(Reply(View(), hit, v))
    {
      ghost var r, at := LookupKeeps(c, pi, View(), e, k, cloud);
      hit, v := LookupValue(pi, e, k, cloud);
    }

    /** Validation leaves the state cache management needs. */
    method ValidateAndKeep(pi: Policy, e: Edge, k: Key, v: Value) returns (end: End)
      requires Valid() && Inv(c, View()) && e < |edges| && (v.deleted ==> c.limits.deletes)
      modifies this, directory
      ensures Valid() && Ended(end, View(), Validate(c, pi, old(View()), e, k, v))
      ensures end.Done? ==> Inv(c, View()) && e < |edges| && e in evict
      ensures end.Done? && k in edges[e].tracked ==> Admissible(c.limits, k, v)
    {
      ValidateKeeps(c, pi, View(), e, k, v);
      end := ValidateClosestEdge(pi, e, k, v);
    }

    method ValidateForManagement(pi: Policy, e: Edge, k: Key, v: Value, ghost isWrite: bool) returns (end: End)
      requires Valid() && Inv(c, View()) && e < |edges| && (v.deleted ==> c.limits.deletes)
      modifies this, directory
      ensures Valid()
      ensures end.Done? ==> Inv(c, View()) && e < |edges| && e in evict
      ensures end.Done? && k in edges[e].tracked ==> Admissible(c.limits, k, v)
      ensures Goes(end, View(), c, pi, old(View()), e, k, v, isWrite)
    {
      ghost var s := View();
      end := ValidateAndKeep(pi, e, k, v);
      FinishAfter(end, View(), c, pi, s, e, k, v, isWrite);
    }

    /** A write looks its key up again, without a check. */
    method LookUpAgain(e: Edge, k: Key, isWrite: bool) returns (known: bool)
      ensures known <==> (isWrite ==> k in directory.table)
    {
      known := true;
      if isWrite {
        known := directory.IsGlobalCached(k);
        if known {
          var neighbor := directory.IsNeighborCached(k, e);
        }
      }
    }

    method FinishRequest(pi: Policy, e: Edge, k: Key, v: Value, isWrite: bool) returns (end: End)
      requires Valid() && Inv(c, View()) && e < |edges| && c.topk >= 1 && (v.deleted ==> c.limits.deletes)
      modifies this, directory, index, index.objs.Values
      ensures Valid() && fresh(index.objs.Values - old(index.objs.Values))
      ensures Ended(end, View(), Finish(c, pi, old(View()), e, k, v, isWrite))
    {
      end := ValidateForManagement(pi, e, k, v, isWrite);
      if end.Done? {
        end := ManageIfKnown(pi, e, k, v, isWrite);
      }
    }

    method ManageIfKnown(pi: Policy, e: Edge, k: Key, v: Value, isWrite: bool) returns (end: End)
      requires Valid() && Inv(c, View()) && e < |edges| && e in evict && c.topk >= 1
      requires k in edges[e].tracked ==> Admissible(c.limits, k, v)
      modifies this, directory, index, index.objs.Values
      ensures Valid() && fresh(index.objs.Values - old(index.objs.Values))
      ensures Ended(end, View(), if isWrite && k !in old(directory.table) then Failed(NoDirectoryEntry)
                                 else Manage(c, pi, old(View()), e, k, v))
    {
      var known := LookUpAgain(e, k, isWrite);
      if known {
        end := TriggerCacheManagement(pi, e, k, v);
      } else {
        end := Failed(NoDirectoryEntry);
      }
    }

    /** A PUT, or a DEL when the value is deleted; the directory entry is used before and after validation. */
    method ProcessWriteRequest(pi: Policy, e: Edge, k: Key, v: Value) returns (end: End)
      requires Valid() && Inv(c, View()) && e < |edges| && c.topk >= 1 && (v.deleted ==> c.limits.deletes)
      modifies this, directory, index, index.objs.Values
      ensures Valid() && fresh(index.objs.Values - old(index.objs.Values))
      ensures Ended(end, View(), Write(c, pi, old(View()), e, k, v))
    {
      var known := directory.IsGlobalCached(k);
      if known {
        var neighbor := directory.IsNeighborCached(k, e);
        end := FinishRequest(pi, e, k, v, true);
      } else {
        end := Failed(NoDirectoryEntry);
      }
    }

    method ProcessRequest(req: Request) returns (end: End)
      requires Valid() && Inv(c, View()) && c.topk >= 1 && Admits(c, |edges|, req)
      modifies this, directory, index, index.objs.Values
      ensures Valid() && fresh(index.objs.Values - old(index.objs.Values))
      ensures Ended(end, View(), Process(c, old(View()), req))
    {
      match req {
        case GetRequest(pi, e, k, cloud) =>
          var hit, v;
          end, hit, v := ProcessGetRequest(pi, e, k, cloud);
        case WriteRequest(pi, e, k, v) =>
          end := ProcessWriteRequest(pi, e, k, v);
      }
    }

    /** Any run ends as the model's run ends. */
    method Simulate(reqs: seq<Request>) returns (end: End)
      requires Valid() && Kept(c, |edges|, View()) && c.topk >= 1
      requires forall i :: 0 <= i < |reqs| ==> Admits(c, |edges|, reqs[i])
      modifies this, directory, index, index.objs.Values
      ensures Valid() && Ended(end, View(), Run(c, old(View()), reqs))
      ensures end.Done? ==> Kept(c, old(|edges|), View())
    {
      ghost var s, n := View(), |edges|;
      assert reqs[..0] == [];
      end := DONE;
      for i := 0 to |reqs|
        invariant Valid() && Kept(c, n, View()) && fresh(index.objs.Values - old(index.objs.Values))
        invariant end.Done? && Run(c, s, reqs[..i]) == Done(View())
      {
        end := SimulateOne(reqs, i, s);
        if !end.Done? {
          return;
        }
      }
      assert reqs[..|reqs|] == reqs;
    }

    method SimulateOne(reqs: seq<Request>, i: nat, ghost s: State) returns (end: End)
      requires Valid() && Kept(c, |edges|, View()) && c.topk >= 1 && i < |reqs| && Admits(c, |edges|, reqs[i])
      requires Run(c, s, reqs[..i]) == Done(View())
      modifies this, directory, index, index.objs.Values
      ensures Valid() && fresh(index.objs.Values - old(index.objs.Values))
      ensures end.Done? ==> Kept(c, old(|edges|), View()) && Run(c, s, reqs[..i + 1]) == Done(View())
      ensures !end.Done? ==> Ended(end, View(), Run(c, s, reqs))
    {
      ghost var s1 := View();
      end := ProcessRequest(reqs[i]);
      RunEnd(c, s, reqs, i, s1, end, View());
    }
  }

  lemma RunEnd(c: Config, s: State, reqs: seq<Request>, i: nat, s1: State, end: End, s2: State)
    requires Kept(c, |s1.edges|, s1) && c.topk >= 1 && i < |reqs| && Admits(c, |s1.edges|, reqs[i])
    requires Run(c, s, reqs[..i]) == Done(s1) && Ended(end, s2, Process(c, s1, reqs[i]))
    ensures end.Done? ==> Run(c, s, reqs[..i + 1]) == Done(s2) && Kept(c, |s1.edges|, s2)
    ensures !end.Done? ==> Ended(end, s2, Run(c, s, reqs))
  {
    ProcessKeeps(c, |s1.edges|, s1, reqs[i]);
    RunNext(c, s, reqs, i, s1);
  }

  lemma RunNext(c: Config, s: State, reqs: seq<Request>, i: nat, s1: State)
    requires i < |reqs| && Run(c, s, reqs[..i]) == Done(s1) && reqs[i].e < |s1.edges|
    ensures Run(c, s, reqs[..i + 1]) == Process(c, s1, reqs[i])
    ensures !Process(c, s1, reqs[i]).Done? ==> Run(c, s, reqs) == Process(c, s1, reqs[i])
  {
    assert reqs[..i + 1][..i] == reqs[..i];
    if !Process(c, s1, reqs[i]).Done? {
      RunStops(c, s, reqs, i + 1, Process(c, s1, reqs[i]));
    }
  }

  lemma DeployEnd(c: Config, pi: Policy, s: State, k: Key, v: Value, ps: seq<Edge>, i: nat, s1: State, end: End,
                  s2: State)
    requires i < |ps| && Deploy(c, pi, s, k, v, ps[..i]) == Done(s1)
    requires Ended(end, s2, AdmitInto(c, pi, s1, k, v, ps[i]))
    ensures end.Done? ==> Deploy(c, pi, s, k, v, ps[..i + 1]) == Done(s2)
    ensures !end.Done? ==> Ended(end, s2, Deploy(c, pi, s, k, v, ps))
  {
    DeployStep(c, pi, s, k, v, ps, i, s1);
    if !end.Done? {
      DeployStops(c, pi, s, k, v, ps, i + 1, AdmitInto(c, pi, s1, k, v, ps[i]));
    }
  }
}
