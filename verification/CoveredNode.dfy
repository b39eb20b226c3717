/**
 One edge's COVERED cache as its contract: cached objects ranked by ascending reward, tracked uncached objects and the
 bytes of all metadata. Where rewards put an object, its popularities, what is tracked and how many bytes the metadata
 takes are inputs; but accesses and flags leave the bytes alone, and an eviction does not add any.
 */
module CoveredNode {
  import opened Types
  import opened Victims

  datatype Obj = Obj(value: Value, valid: bool, neighbor: bool, localPop: real, redirPop: real)

  datatype Tracked = Tracked(pop: Popularity, objsize: nat)

  datatype Node = Node(objs: map<Key, Obj>, rank: seq<Key>, tracked: map<Key, Tracked>, meta: nat)

  /** What is tracked, and the metadata bytes that come with it. */
  datatype Memory = Memory(tracked: map<Key, Tracked>, meta: nat)

  /** Outcome of a reward calculation: the new position in the reward order and the new popularities. */
  datatype Move = Move(pos: nat, localPop: real, redirPop: real)

  /** What may be cached: objects below the capacity, and deleted values only if the workload has them. */
  datatype Limits = Limits(capacity: nat, deletes: bool)

  predicate Admissible(lim: Limits, k: Key, v: Value) {
    ValidObjsize(lim.capacity, k, v) && (v.deleted ==> lim.deletes)
  }

  function Empty(meta: nat): Node {
    Node(map[], [], map[], meta)
  }

  /** The ranking names every cached object once, nothing cached is tracked, all is valid and of admissible size. */
  ghost predicate Wf(x: Node, lim: Limits) {
    && NoDup(x.rank)
    && (forall i :: 0 <= i < |x.rank| ==> x.rank[i] in x.objs)
    && (forall k :: k in x.objs ==> k in x.rank)
    && (forall k :: k in x.objs ==> k !in x.tracked)
    && (forall k :: k in x.objs ==> x.objs[k].valid && Admissible(lim, k, x.objs[k].value))
  }

  function Info(x: Node, k: Key): VictimInfo {
    if k in x.objs then
      VictimInfo(k, |k| + x.objs[k].value.size, x.objs[k].localPop, x.objs[k].redirPop)
    else VictimInfo(k, 0, 0.0, 0.0)
  }

  /** Victim information of all cached objects, least reward first. */
  function Infos(x: Node): (r: seq<VictimInfo>)
    ensures |r| == |x.rank| && forall i :: 0 <= i < |r| ==> r[i] == Info(x, x.rank[i])
  {
    seq(|x.rank|, i requires 0 <= i < |x.rank| => Info(x, x.rank[i]))
  }

  /** The part of it that is synchronised. */
  function Synced(x: Node, cnt: nat): seq<VictimInfo> {
    if |x.rank| <= cnt then Infos(x) else Infos(x)[..cnt]
  }

  function Min(a: nat, b: nat): nat {
    if a < b then a else b
  }

  // ---- Access ---------------------------------------------------------------------------------------

  ghost function Pos(s: seq<Key>, k: Key): (i: nat)
    requires k in s
    ensures i < |s| && s[i] == k
  {
    var i :| 0 <= i < |s| && s[i] == k;
    i
  }

  function Shift(s: seq<Key>, i: nat, p: nat): seq<Key>
    requires i < |s|
  {
    var rest := s[..i] + s[i + 1..];
    rest[..Min(p, |rest|)] + [s[i]] + rest[Min(p, |rest|)..]
  }

  ghost function Touch(x: Node, k: Key, m: Move): Node {
    if k in x.objs && k in x.rank then
      x.(objs := x.objs[k := x.objs[k].(localPop := m.localPop, redirPop := m.redirPop)],
         rank := Shift(x.rank, Pos(x.rank, k), m.pos))
    else x
  }

  /** Whether the object is among the synchronised ones before or after. */
  ghost predicate TouchAffects(x: Node, k: Key, m: Move, cnt: nat) {
    k in x.rank && (Pos(x.rank, k) < cnt || Min(m.pos, |x.rank| - 1) < cnt)
  }

  lemma InsertElems(s: seq<Key>, k: Key, p: nat)
    requires NoDup(s) && k !in s && p <= |s|
    ensures NoDup(s[..p] + [k] + s[p..])
    ensures forall j :: j in s[..p] + [k] + s[p..] <==> j in s || j == k
  {
    var t := s[..p] + [k] + s[p..];
    assert forall j :: 0 <= j < |t| ==> t[j] == if j < p then s[j] else if j == p then k else s[j - 1];
    assert t[p] == k;
    forall j | j in s
      ensures j in t
    {
      assert s == s[..p] + s[p..];
    }
  }

  lemma ShiftElems(s: seq<Key>, i: nat, p: nat)
    requires i < |s| && NoDup(s)
    ensures NoDup(Shift(s, i, p)) && |Shift(s, i, p)| == |s|
    ensures forall k :: k in Shift(s, i, p) <==> k in s
  {
    var rest := s[..i] + s[i + 1..];
    assert forall j :: 0 <= j < |rest| ==> rest[j] == s[if j < i then j else j + 1];
    assert s == s[..i] + [s[i]] + s[i + 1..];
    assert forall k :: k in s <==> k in rest || k == s[i];
    InsertElems(rest, s[i], Min(p, |rest|));
  }

  lemma TouchWf(x: Node, k: Key, m: Move, lim: Limits)
    requires Wf(x, lim)
    ensures Wf(Touch(x, k, m), lim)
    ensures Touch(x, k, m).objs.Keys == x.objs.Keys && Touch(x, k, m).tracked == x.tracked
    ensures forall j :: j in x.objs ==> Touch(x, k, m).objs[j].neighbor == x.objs[j].neighbor
    ensures forall j :: j in x.objs ==> Touch(x, k, m).objs[j].value == x.objs[j].value
  {
    if k in x.objs {
      ShiftElems(x.rank, Pos(x.rank, k), m.pos);
      assert forall i :: 0 <= i < |Touch(x, k, m).rank| ==> Touch(x, k, m).rank[i] in x.rank;
    }
  }

  lemma ShiftPrefix(s: seq<Key>, i: nat, p: nat, cnt: nat)
    requires cnt <= i < |s| && cnt <= p
    ensures |Shift(s, i, p)| == |s| && forall j :: 0 <= j < cnt ==> Shift(s, i, p)[j] == s[j]
  {
  }

  /** An access that does not affect the synchronised victims leaves them exactly as they were. */
  lemma TouchSynced(x: Node, k: Key, m: Move, cnt: nat, lim: Limits)
    requires Wf(x, lim) && k in x.objs && !TouchAffects(x, k, m, cnt)
    ensures Synced(Touch(x, k, m), cnt) == Synced(x, cnt)
  {
    var y := Touch(x, k, m);
    var i := Pos(x.rank, k);
    ShiftPrefix(x.rank, i, m.pos, cnt);
    assert y.rank == Shift(x.rank, i, m.pos);
    forall j | 0 <= j < cnt
      ensures Info(y, y.rank[j]) == Info(x, x.rank[j])
    {
      assert y.rank[j] == x.rank[j] && x.rank[j] != k;
    }
  }

  // ---- Admission ------------------------------------------------------------------------------------

  function Admit(x: Node, k: Key, v: Value, neighbor: bool, m: Move, meta: nat): Node {
    if k in x.objs then x
    else
      var p := Min(m.pos, |x.rank|);
      x.(objs := x.objs[k := Obj(v, true, neighbor, m.localPop, m.redirPop)],
         rank := x.rank[..p] + [k] + x.rank[p..],
         tracked := x.tracked - {k},
         meta := meta)
  }

  predicate AdmitAffects(x: Node, k: Key, m: Move, cnt: nat) {
    k !in x.objs && Min(m.pos, |x.rank|) < cnt
  }

  lemma AdmitWf(x: Node, k: Key, v: Value, neighbor: bool, m: Move, meta: nat, lim: Limits)
    requires Wf(x, lim) && k !in x.objs && Admissible(lim, k, v)
    ensures Wf(Admit(x, k, v, neighbor, m, meta), lim)
  {
    var y := Admit(x, k, v, neighbor, m, meta);
    InsertElems(x.rank, k, Min(m.pos, |x.rank|));
    forall i | 0 <= i < |y.rank|
      ensures y.rank[i] in y.objs
    {
      assert y.rank[i] in y.rank;
      assert y.rank[i] in x.rank || y.rank[i] == k;
    }
  }

  lemma AdmitSynced(x: Node, k: Key, v: Value, neighbor: bool, m: Move, meta: nat, cnt: nat, lim: Limits)
    requires Wf(x, lim) && k !in x.objs && !AdmitAffects(x, k, m, cnt)
    ensures Synced(Admit(x, k, v, neighbor, m, meta), cnt) == Synced(x, cnt)
  {
    var y := Admit(x, k, v, neighbor, m, meta);
    forall j | 0 <= j < cnt
      ensures Infos(y)[j] == Infos(x)[j]
    {
      assert y.rank[j] == x.rank[j] && x.rank[j] in x.objs;
    }
  }

  // ---- Neighbour flag -------------------------------------------------------------------------------

  function SetNeighbor(x: Node, k: Key, flag: bool): Node {
    if k in x.objs then x.(objs := x.objs[k := x.objs[k].(neighbor := flag)]) else x
  }

  /** The two differ at most in neighbour flags, which carry no reward. */
  ghost predicate SameButFlags(x: Node, y: Node) {
    && x.rank == y.rank && x.tracked == y.tracked && x.meta == y.meta && x.objs.Keys == y.objs.Keys
    && forall k :: k in x.objs ==> y.objs[k] == x.objs[k].(neighbor := y.objs[k].neighbor)
  }

  lemma SameButFlagsWf(x: Node, y: Node, lim: Limits, cnt: nat)
    requires Wf(x, lim) && SameButFlags(x, y)
    ensures Wf(y, lim) && Synced(y, cnt) == Synced(x, cnt) && Infos(x) == Infos(y) && Used(x) == Used(y)
  {
    forall k | k in x.objs
      ensures Info(x, k) == Info(y, k) && k in y.objs
      ensures y.objs[k].valid == x.objs[k].valid && y.objs[k].value == x.objs[k].value
    {
      assert k in y.objs.Keys;
    }
  }

  function Recall(x: Node, m: Memory): Node {
    x.(tracked := m.tracked, meta := m.meta)
  }

  /** Metadata of uncached objects does not touch the cached ones. */
  lemma RecallWf(x: Node, m: Memory, lim: Limits, cnt: nat)
    requires Wf(x, lim) && forall k :: k in x.objs ==> k !in m.tracked
    ensures Wf(Recall(x, m), lim) && Synced(Recall(x, m), cnt) == Synced(x, cnt)
  {
    var y := Recall(x, m);
    assert forall i :: 0 <= i < |x.rank| ==> Infos(y)[i] == Infos(x)[i];
  }

  // ---- Eviction -------------------------------------------------------------------------------------

  /** Without its `m` least rewarding objects. */
  function Drop(x: Node, m: nat): Node
    requires m <= |x.rank|
  {
    x.(objs := map k | k in x.objs && k !in x.rank[..m] :: x.objs[k], rank := x.rank[m..])
  }

  /** Bytes charged for capacity. */
  function Used(x: Node): nat {
    Bytes(Infos(x)) + x.meta
  }

  /** The edge after an eviction, which may free metadata as well; `left` are the bytes it takes for the keys left. */
  function Shrunk(x: Node, m: nat, left: set<Key> -> nat): Node
    requires m <= |x.rank|
  {
    if m == 0 then x
    else
      var y := Drop(x, m);
      y.(meta := Min(x.meta, left(y.objs.Keys)))
  }

  lemma CoverPositive(s: seq<VictimInfo>, required: nat)
    requires required > 0 && Cover(s, required).Some?
    ensures 0 < Cover(s, required).value <= |s|
  {
    var m: nat := Cover(s, required).value;
    assert Covers(s, required, m);
    assert s[..0] == [];
  }

  /**
   How many objects go: none while the edge is within capacity, else the shortest prefix of the reward order that
   covers the excess. No result stands for the exit when the objects run out.
   */
  ghost function EvictCount(x: Node, capacity: nat): (r: Option<nat>)
    ensures r.Some? ==> r.value <= |x.rank|
  {
    if Used(x) <= capacity then Some(0)
    else
      var m := Cover(Infos(x), Used(x) - capacity);
      if m.Some? then
        CoverPositive(Infos(x), Used(x) - capacity);
        m
      else m
  }

  /** The objects run out exactly when the metadata alone exceeds the capacity. */
  lemma EvictCountExists(x: Node, capacity: nat)
    ensures EvictCount(x, capacity).None? <==> x.meta > capacity
  {
    if Used(x) > capacity {
      CoverExists(Infos(x), Used(x) - capacity);
    }
  }

  lemma DropWf(x: Node, m: nat, lim: Limits)
    requires Wf(x, lim) && m <= |x.rank|
    ensures Wf(Drop(x, m), lim)
    ensures Drop(x, m).objs.Keys == x.objs.Keys - Elems(x.rank[..m])
    ensures NoDup(x.rank[..m]) && forall k :: k in x.rank[..m] ==> k in x.objs
  {
    var y := Drop(x, m);
    forall k | k in y.objs
      ensures k in y.rank
    {
      var i :| 0 <= i < |x.rank| && x.rank[i] == k;
      assert forall j :: 0 <= j < m ==> x.rank[..m][j] == x.rank[j];
      assert y.rank[i - m] == k;
    }
    forall i | 0 <= i < |y.rank|
      ensures y.rank[i] in y.objs
    {
      assert y.rank[i] == x.rank[m + i];
      assert forall j :: 0 <= j < m ==> x.rank[..m][j] != x.rank[m + i];
    }
  }

  lemma DropInfos(x: Node, m: nat)
    requires NoDup(x.rank) && m <= |x.rank|
    ensures Infos(Drop(x, m)) == Infos(x)[m..]
  {
    var y := Drop(x, m);
    forall i | 0 <= i < |y.rank|
      ensures Info(y, y.rank[i]) == Info(x, x.rank[m + i])
    {
      assert y.rank[i] == x.rank[m + i];
      assert forall j :: 0 <= j < m ==> x.rank[..m][j] != x.rank[m + i];
    }
  }

  /** One round is enough: what remains fits. */
  lemma EvictCountFits(x: Node, capacity: nat, left: set<Key> -> nat)
    requires NoDup(x.rank) && EvictCount(x, capacity).Some?
    ensures Used(Shrunk(x, EvictCount(x, capacity).value, left)) <= capacity
  {
    var m: nat := EvictCount(x, capacity).value;
    if Used(x) > capacity {
      assert Covers(Infos(x), Used(x) - capacity, m);
      CoverPositive(Infos(x), Used(x) - capacity);
      ShrunkBytes(x, m, left);
    }
  }

  /** What the first round of the loop finds is the whole answer. */
  lemma OneRound(x: Node, capacity: nat, left: set<Key> -> nat, m: nat)
    requires NoDup(x.rank) && Used(x) > capacity && Cover(Infos(x), Used(x) - capacity) == Some(m)
    ensures EvictCount(x, capacity) == Some(m) && 0 < m <= |x.rank| && Used(Shrunk(x, m, left)) <= capacity
  {
    CoverPositive(Infos(x), Used(x) - capacity);
    EvictCountFits(x, capacity, left);
  }

  lemma ShrunkBytes(x: Node, m: nat, left: set<Key> -> nat)
    requires NoDup(x.rank) && 0 < m <= |x.rank|
    ensures Used(Shrunk(x, m, left)) + Bytes(Infos(x)[..m]) <= Used(x)
  {
    var y := Shrunk(x, m, left);
    DropInfos(x, m);
    BytesSplit(Infos(x), m);
    assert Infos(y) == Infos(Drop(x, m)) by {
      assert forall i :: 0 <= i < |y.rank| ==> Infos(y)[i] == Infos(Drop(x, m))[i];
    }
  }

  lemma ShrunkWf(x: Node, m: nat, left: set<Key> -> nat, lim: Limits)
    requires Wf(x, lim) && m <= |x.rank|
    ensures Wf(Shrunk(x, m, left), lim)
    ensures Shrunk(x, m, left).objs.Keys == x.objs.Keys - Elems(x.rank[..m])
    ensures NoDup(x.rank[..m]) && forall k :: k in x.rank[..m] ==> k in x.objs
  {
    DropWf(x, m, lim);
    if m == 0 {
      assert x.rank[..0] == [];
    }
  }

  /** An object is evicted exactly when those ranked before it do not cover the excess. */
  lemma EvictedIff(x: Node, capacity: nat, i: nat)
    requires i < |x.rank| && x.meta <= capacity
    ensures EvictCount(x, capacity).Some?
    ensures i < EvictCount(x, capacity).value <==> Bytes(Infos(x)[..i]) + capacity < Used(x)
  {
    EvictCountExists(x, capacity);
    var s := Infos(x);
    if Used(x) > capacity {
      var required := Used(x) - capacity;
      var m: nat := EvictCount(x, capacity).value;
      assert Covers(s, required, m);
      if m <= i {
        BytesMonotone(s, m, i);
      }
    }
  }

  // ---- Bytes do not depend on the order -------------------------------------------------------------

  function KeyBytes(x: Node, keys: seq<Key>): nat {
    if keys == [] then 0 else KeyBytes(x, keys[..|keys| - 1]) + Info(x, keys[|keys| - 1]).size
  }

  lemma {:induction false} InfosBytes(x: Node, n: nat)
    requires n <= |x.rank|
    ensures Bytes(Infos(x)[..n]) == KeyBytes(x, x.rank[..n])
  {
    if n > 0 {
      InfosBytes(x, n - 1);
      assert Infos(x)[..n][..n - 1] == Infos(x)[..n - 1];
      assert x.rank[..n][..n - 1] == x.rank[..n - 1];
    }
  }

  lemma {:induction false} KeyBytesInsert(x: Node, s: seq<Key>, p: nat, k: Key)
    requires p <= |s|
    ensures KeyBytes(x, s[..p] + [k] + s[p..]) == KeyBytes(x, s) + Info(x, k).size
  {
    var t := s[..p] + [k] + s[p..];
    var n := |s|;
    if p == n {
      assert t[..n] == s;
    } else {
      KeyBytesInsert(x, s[..n - 1], p, k);
      assert t[..n] == s[..n - 1][..p] + [k] + s[..n - 1][p..];
    }
  }

  lemma {:induction false} KeyBytesSame(x: Node, y: Node, keys: seq<Key>)
    requires forall k :: Info(x, k).size == Info(y, k).size
    ensures KeyBytes(x, keys) == KeyBytes(y, keys)
  {
    if keys != [] {
      KeyBytesSame(x, y, keys[..|keys| - 1]);
    }
  }

  lemma ShiftBytes(x: Node, s: seq<Key>, i: nat, p: nat)
    requires i < |s|
    ensures KeyBytes(x, Shift(s, i, p)) == KeyBytes(x, s)
  {
    var rest := s[..i] + s[i + 1..];
    KeyBytesInsert(x, rest, i, s[i]);
    KeyBytesInsert(x, rest, Min(p, |rest|), s[i]);
    assert rest[..i] + [s[i]] + rest[i..] == s;
  }

  /** An access moves one object and keeps its size, so the bytes used stay. */
  lemma TouchUsed(x: Node, k: Key, m: Move)
    ensures Used(Touch(x, k, m)) == Used(x)
  {
    if k in x.objs && k in x.rank {
      var y := Touch(x, k, m);
      ShiftBytes(x, x.rank, Pos(x.rank, k), m.pos);
      KeyBytesSame(x, y, y.rank);
      InfosBytes(x, |x.rank|);
      InfosBytes(y, |y.rank|);
      assert x.rank[..|x.rank|] == x.rank && y.rank[..|y.rank|] == y.rank;
      assert Infos(x)[..|x.rank|] == Infos(x) && Infos(y)[..|y.rank|] == Infos(y);
    }
  }

  lemma {:induction false} BytesSplit(s: seq<VictimInfo>, m: nat)
    requires m <= |s|
    ensures Bytes(s) == Bytes(s[..m]) + Bytes(s[m..])
  {
    if m == |s| {
      assert s[..m] == s;
    } else {
      var n := |s| - 1;
      BytesSplit(s[..n], m);
      assert s[..n][..m] == s[..m];
      assert s[m..][..n - m] == s[..n][m..];
    }
  }
}
