/**
 What cached objects are worth: the local weight for requests at an edge that holds a copy, the cooperative weight for
 requests served by a copy elsewhere, nothing for requests no copy can serve. The eviction cost is the value that goes
 with the selected copies, and the gain of a placement is the value after it minus the value before.
 */
module HitValue {
  import opened Types
  import opened Directory
  import opened Victims
  import opened EvictionCost
  import Placement
  import P = PopularityIndex

  // ---- The value of all copies ----------------------------------------------------------------------

  /** Some copy of the key is left when the copies in `gone` are. */
  ghost predicate Served(all: seq<Pair>, gone: seq<Pair>, k: Key) {
    exists i :: 0 <= i < |all| && all[i].info.key == k && all[i] !in gone
  }

  /** Requests of the copy's own clients, and requests redirected to it. */
  function CopyValue(w: Weights, x: VictimInfo, kept: bool, served: bool): real {
    (if kept then w.local * x.localPop else if served then w.cooperative * x.localPop else 0.0) +
    (if served then w.cooperative * x.redirectedPop else 0.0)
  }

  function SumOf(s: seq<real>): real {
    if s == [] then 0.0 else SumOf(s[..|s| - 1]) + s[|s| - 1]
  }

  /** What each copy is worth when those in `gone` are not there. */
  ghost function Values(all: seq<Pair>, gone: seq<Pair>, w: Weights): (r: seq<real>)
    ensures |r| == |all|
    ensures forall i :: 0 <= i < |r| ==>
              r[i] == CopyValue(w, all[i].info, all[i] !in gone, Served(all, gone, all[i].info.key))
  {
    seq(|all|, i requires 0 <= i < |all| =>
      CopyValue(w, all[i].info, all[i] !in gone, Served(all, gone, all[i].info.key)))
  }

  ghost function Value(all: seq<Pair>, gone: seq<Pair>, w: Weights): real {
    SumOf(Values(all, gone, w))
  }

  /**
   What the clamped weight difference adds at each selected copy whose requests another copy can serve: the program
   counts no loss there, although the cooperative weight is the higher one and serving them elsewhere is a profit.
   */
  ghost function Excesses(all: seq<Pair>, gone: seq<Pair>, last: set<Key>, w: Weights): (r: seq<real>)
    ensures |r| == |all|
    ensures forall i :: 0 <= i < |r| ==> r[i] == ExcessAt(all[i], gone, last, w)
  {
    seq(|all|, i requires 0 <= i < |all| => ExcessAt(all[i], gone, last, w))
  }

  ghost function ExcessAt(x: Pair, gone: seq<Pair>, last: set<Key>, w: Weights): real {
    if x in gone && x.info.key !in last then NonnegMinus(w.cooperative, w.local) * x.info.localPop else 0.0
  }

  ghost function Excess(all: seq<Pair>, gone: seq<Pair>, last: set<Key>, w: Weights): real {
    SumOf(Excesses(all, gone, last, w))
  }

  lemma {:induction false} SumZero(s: seq<real>)
    requires forall i :: 0 <= i < |s| ==> s[i] == 0.0
    ensures SumOf(s) == 0.0
  {
    if s != [] {
      SumZero(s[..|s| - 1]);
    }
  }

  /** There is no excess where the local weight is not below the cooperative one. */
  lemma NoExcess(all: seq<Pair>, gone: seq<Pair>, last: set<Key>, w: Weights)
    requires w.cooperative <= w.local
    ensures Excess(all, gone, last, w) == 0.0
  {
    forall i | 0 <= i < |all|
      ensures Excesses(all, gone, last, w)[i] == 0.0
    {
    }
    SumZero(Excesses(all, gone, last, w));
  }

  lemma {:induction false} SumPositive(s: seq<real>)
    requires forall i :: 0 <= i < |s| ==> s[i] >= 0.0
    ensures SumOf(s) >= 0.0 && (SumOf(s) == 0.0 <==> forall i :: 0 <= i < |s| ==> s[i] == 0.0)
  {
    if s != [] {
      var n := |s| - 1;
      SumPositive(s[..n]);
      assert forall i :: 0 <= i < n ==> s[..n][i] == s[i];
    }
  }

  /** Otherwise there is one exactly if some selected copy that is not the last has requests of its own. */
  lemma ExcessIff(all: seq<Pair>, gone: seq<Pair>, last: set<Key>, w: Weights)
    requires w.local < w.cooperative && forall i :: 0 <= i < |all| ==> all[i].info.localPop >= 0.0
    ensures Excess(all, gone, last, w) >= 0.0
    ensures Excess(all, gone, last, w) > 0.0 <==>
            exists i :: 0 <= i < |all| && all[i] in gone && all[i].info.key !in last && all[i].info.localPop > 0.0
  {
    var s := Excesses(all, gone, last, w);
    forall i | 0 <= i < |all|
      ensures s[i] >= 0.0
      ensures s[i] == 0.0 <==> !(all[i] in gone && all[i].info.key !in last && all[i].info.localPop > 0.0)
    {
      ExcessSign(w, all[i].info.localPop);
    }
    SumPositive(s);
  }

  lemma ExcessSign(w: Weights, pop: real)
    requires w.local < w.cooperative && pop >= 0.0
    ensures NonnegMinus(w.cooperative, w.local) * pop >= 0.0
    ensures NonnegMinus(w.cooperative, w.local) * pop == 0.0 <==> pop == 0.0
  {
  }

  /** Two copies, one selected, a cooperative weight above the local one: cost zero, and the value rises by three. */
  lemma LossNotCost(k: Key)
    ensures var x := VictimInfo(k, 1, 3.0, 0.0);
            var all, gone, w := [Pair(0, x), Pair(1, x)], [Pair(0, x)], Weights(1.0, 2.0);
            FlatCost(gone, {}, w) == 0.0 && Value(all, [], w) - Value(all, gone, w) == -3.0
  {
    var x := VictimInfo(k, 1, 3.0, 0.0);
    var all, gone, w := [Pair(0, x), Pair(1, x)], [Pair(0, x)], Weights(1.0, 2.0);
    assert gone[..0] == [];
    assert all[1] !in gone && all[1].info.key == k;
    assert Served(all, gone, k) && Served(all, [], k);
    var before, after := Values(all, [], w), Values(all, gone, w);
    assert before == [3.0, 3.0] && after == [6.0, 3.0];
    assert before[..1] == [3.0] && after[..1] == [6.0] && [3.0][..0] == [] && [6.0][..0] == [];
    assert SumOf([3.0]) == 3.0 && SumOf([6.0]) == 6.0;
  }

  /** What each copy costs if it is selected. */
  ghost function Costs(xs: seq<Pair>, gone: seq<Pair>, last: set<Key>, w: Weights): (r: seq<real>)
    ensures |r| == |xs|
    ensures forall i :: 0 <= i < |r| ==>
              r[i] == if xs[i] in gone then Reward(w, xs[i].info, xs[i].info.key in last) else 0.0
  {
    seq(|xs|, i requires 0 <= i < |xs| =>
      if xs[i] in gone then Reward(w, xs[i].info, xs[i].info.key in last) else 0.0)
  }

  /** The selected copies, in the order of all copies. */
  ghost function Picked(xs: seq<Pair>, gone: seq<Pair>): seq<Pair> {
    if xs == [] then []
    else
      var x := xs[|xs| - 1];
      var rest := Picked(xs[..|xs| - 1], gone);
      if x in gone then rest + [x] else rest
  }

  /** Selected keys are last copies exactly if nothing serves them any more. */
  ghost predicate LastIs(all: seq<Pair>, gone: seq<Pair>, last: set<Key>) {
    forall i :: 0 <= i < |gone| ==> (gone[i].info.key in last <==> !Served(all, gone, gone[i].info.key))
  }

  lemma Distribute(t: real, a: real, b: real)
    ensures t * (a + b) == t * a + t * b
  {
  }

  /** The clamped difference of two weights, applied to some popularity. */
  lemma Clamped(l: real, c: real, x: real)
    ensures NonnegMinus(l, c) * x == l * x - c * x + NonnegMinus(c, l) * x
  {
  }

  /** What one copy loses. */
  lemma CopyLoss(w: Weights, x: VictimInfo, gone: bool, served: bool)
    requires !gone ==> served
    ensures (if gone then Reward(w, x, !served) else 0.0) ==
            CopyValue(w, x, true, true) - CopyValue(w, x, !gone, served) +
            (if gone && served then NonnegMinus(w.cooperative, w.local) * x.localPop else 0.0)
  {
    Clamped(w.local, w.cooperative, x.localPop);
  }

  lemma {:induction false} SumLinear(f: seq<real>, a: seq<real>, b: seq<real>, d: seq<real>)
    requires |f| == |a| == |b| == |d| && forall i :: 0 <= i < |f| ==> f[i] == a[i] - b[i] + d[i]
    ensures SumOf(f) == SumOf(a) - SumOf(b) + SumOf(d)
  {
    if f != [] {
      var n := |f| - 1;
      SumLinear(f[..n], a[..n], b[..n], d[..n]);
    }
  }

  lemma {:induction false} PickedSum(xs: seq<Pair>, gone: seq<Pair>, last: set<Key>, w: Weights)
    ensures FlatCost(Picked(xs, gone), last, w) == SumOf(Costs(xs, gone, last, w))
  {
    if xs != [] {
      var n := |xs| - 1;
      PickedSum(xs[..n], gone, last, w);
      assert Costs(xs, gone, last, w)[..n] == Costs(xs[..n], gone, last, w);
      var rest := Picked(xs[..n], gone);
      assert (rest + [xs[n]])[..|rest|] == rest;
    }
  }

  lemma LossOver(all: seq<Pair>, gone: seq<Pair>, last: set<Key>, w: Weights)
    requires LastIs(all, gone, last)
    ensures FlatCost(Picked(all, gone), last, w) ==
            Value(all, [], w) - Value(all, gone, w) + Excess(all, gone, last, w)
  {
    PickedSum(all, gone, last, w);
    var f, a, b := Costs(all, gone, last, w), Values(all, [], w), Values(all, gone, w);
    var d := Excesses(all, gone, last, w);
    forall i | 0 <= i < |all|
      ensures f[i] == a[i] - b[i] + d[i]
    {
      LossAt(all, i, gone, last, w);
    }
    SumLinear(f, a, b, d);
  }

  lemma LossAt(all: seq<Pair>, i: nat, gone: seq<Pair>, last: set<Key>, w: Weights)
    requires i < |all| && LastIs(all, gone, last)
    ensures Costs(all, gone, last, w)[i] ==
            Values(all, [], w)[i] - Values(all, gone, w)[i] + Excesses(all, gone, last, w)[i]
  {
    var x := all[i];
    var served := Served(all, gone, x.info.key);
    assert Served(all, [], x.info.key);
    assert x !in gone ==> served;
    assert x in gone ==> (x.info.key in last <==> !served);
    CopyLoss(w, x.info, x in gone, served);
  }

  lemma {:induction false} PickedElems(xs: seq<Pair>, gone: seq<Pair>)
    requires NoDup(xs)
    ensures NoDup(Picked(xs, gone)) && forall x :: x in Picked(xs, gone) <==> x in xs && x in gone
  {
    if xs != [] {
      var n := |xs| - 1;
      PickedElems(xs[..n], gone);
      assert xs == xs[..n] + [xs[n]];
      assert xs[n] !in xs[..n];
    }
  }

  /** The flat cost of the selected copies is the value that goes with them. */
  lemma FlatIsLoss(all: seq<Pair>, gone: seq<Pair>, last: set<Key>, w: Weights)
    requires NoDup(all) && NoDup(gone) && (forall i :: 0 <= i < |gone| ==> gone[i] in all) && LastIs(all, gone, last)
    ensures FlatCost(gone, last, w) ==
            Value(all, [], w) - Value(all, gone, w) + Excess(all, gone, last, w)
  {
    LossOver(all, gone, last, w);
    PickedElems(all, gone);
    var picked := Picked(all, gone);
    NoDupMultiset(picked);
    NoDupMultiset(gone);
    assert Elems(picked) == Elems(gone);
    FlatPermutation(picked, gone, last, w);
  }

  // ---- The copies the directory lists ---------------------------------------------------------------

  /** All copies at the first `n` edges. */
  function Copies(c: Context, n: nat): seq<Pair>
    requires n <= |c.all|
  {
    if n == 0 then [] else Copies(c, n - 1) + PairUp(n - 1, c.all[n - 1])
  }

  predicate HasCopy(c: Context, e: Edge, k: Key) {
    e < |c.all| && exists i :: 0 <= i < |c.all[e]| && c.all[e][i].key == k
  }

  /** An edge names each of its objects once, and the directory lists exactly the edges that have a copy. */
  ghost predicate Whole(c: Context) {
    && (forall e: Edge :: e < |c.all| ==> DistinctKeys(c.all[e]))
    && (forall k: Key, e: Edge {:trigger HasCopy(c, e, k)} :: e in Holders(c.dir, k) <==> HasCopy(c, e, k))
  }

  lemma {:induction false} CopiesHas(c: Context, n: nat, x: Pair)
    requires n <= |c.all|
    ensures x in Copies(c, n) <==> x.edge < n && x.info in c.all[x.edge]
  {
    if n > 0 {
      CopiesHas(c, n - 1, x);
      var here := PairUp(n - 1, c.all[n - 1]);
      assert x in Copies(c, n) <==> x in Copies(c, n - 1) || x in here;
      if x.edge == n - 1 && x.info in c.all[n - 1] {
        var i :| 0 <= i < |c.all[n - 1]| && c.all[n - 1][i] == x.info;
        assert here[i] == x;
      }
    }
  }

  lemma {:induction false} CopiesDistinct(c: Context, n: nat)
    requires Whole(c) && n <= |c.all|
    ensures NoDup(Copies(c, n))
  {
    if n > 0 {
      CopiesDistinct(c, n - 1);
      var before, here := Copies(c, n - 1), PairUp(n - 1, c.all[n - 1]);
      forall i, j | 0 <= i < |before| && 0 <= j < |here|
        ensures before[i] != here[j]
      {
        CopiesHas(c, n - 1, before[i]);
      }
    }
  }

  lemma SameCopy(c: Context, x: Pair, y: Pair)
    requires Whole(c) && x.edge == y.edge < |c.all| && x.info in c.all[x.edge] && y.info in c.all[y.edge]
    requires x.info.key == y.info.key
    ensures x == y
  {
    var i :| 0 <= i < |c.all[x.edge]| && c.all[x.edge][i] == x.info;
    var j :| 0 <= j < |c.all[x.edge]| && c.all[x.edge][j] == y.info;
  }

  ghost predicate Taken(c: Context, gone: seq<Pair>) {
    forall i :: 0 <= i < |gone| ==> gone[i].edge < |c.all| && gone[i].info in c.all[gone[i].edge]
  }

  /** All holders give up their copies exactly if no copy is left. */
  lemma LastIsUnserved(c: Context, gone: seq<Pair>)
    requires Whole(c) && Taken(c, gone)
    ensures LastIs(Copies(c, |c.all|), gone, LastCopies(gone, c.dir))
  {
    var all := Copies(c, |c.all|);
    forall i | 0 <= i < |gone|
      ensures gone[i].info.key in LastCopies(gone, c.dir) <==> !Served(all, gone, gone[i].info.key)
    {
      var k := gone[i].info.key;
      assert k in SelectedKeys(gone);
      if Served(all, gone, k) {
        LeftOver(c, gone, k);
      } else {
        forall h | h in Holders(c.dir, k)
          ensures SelectedAt(gone, k, h)
        {
          AllTaken(c, gone, k, h);
        }
      }
    }
  }

  lemma LeftOver(c: Context, gone: seq<Pair>, k: Key)
    requires Whole(c) && Taken(c, gone) && Served(Copies(c, |c.all|), gone, k)
    ensures k !in LastCopies(gone, c.dir)
  {
    var all := Copies(c, |c.all|);
    var i :| 0 <= i < |all| && all[i].info.key == k && all[i] !in gone;
    var x := all[i];
    assert x in all;
    CopiesHas(c, |c.all|, x);
    assert HasCopy(c, x.edge, k);
    assert !SelectedAt(gone, k, x.edge) by {
      forall j | 0 <= j < |gone| && gone[j].edge == x.edge
        ensures gone[j].info.key != k
      {
        if gone[j].info.key == k {
          SameCopy(c, x, gone[j]);
        }
      }
    }
  }

  lemma AllTaken(c: Context, gone: seq<Pair>, k: Key, h: Edge)
    requires Whole(c) && Taken(c, gone) && !Served(Copies(c, |c.all|), gone, k) && h in Holders(c.dir, k)
    ensures SelectedAt(gone, k, h)
  {
    assert HasCopy(c, h, k);
    var i :| 0 <= i < |c.all[h]| && c.all[h][i].key == k;
    var x := Pair(h, c.all[h][i]);
    CopiesHas(c, |c.all|, x);
    var all := Copies(c, |c.all|);
    var j :| 0 <= j < |all| && all[j] == x;
    assert x in gone;
  }

  lemma {:induction false} PairsTaken(c: Context, placement: seq<Edge>, objsize: nat)
    requires Usable(c, placement) && InBounds(c, placement) && Pairs(c, placement, objsize).Some?
    ensures Taken(c, Pairs(c, placement, objsize).value)
  {
    if placement != [] {
      var n := |placement| - 1;
      var e := placement[n];
      assert EdgeUsable(c, e);
      assert forall x :: x in placement[..n] ==> x in placement;
      PairsTaken(c, placement[..n], objsize);
      SelectedUsable(c, e, objsize);
      var here := Selected(Recorded(c, e), c.all[e], objsize).value;
      assert forall i :: 0 <= i < |here| ==> here[i] == c.all[e][i];
    }
  }

  lemma DistinctIsNoDup(pairs: seq<Pair>)
    requires Distinct(pairs)
    ensures NoDup(pairs)
  {
  }

  /**
   The eviction cost of a placement is the value all copies have before minus the value they have without the selected
   ones. Where the cooperative weight exceeds the local one the program counts a copy that is not the last as no loss,
   and the cost is higher by exactly that.
   */
  lemma CostIsLoss(c: Context, placement: seq<Edge>, objsize: nat, w: Weights)
    requires Usable(c, placement) && InBounds(c, placement) && Whole(c) && Pairs(c, placement, objsize).Some?
    ensures var all, gone := Copies(c, |c.all|), Pairs(c, placement, objsize).value;
            CostOf(c, placement, objsize, w) ==
            Some(Value(all, [], w) - Value(all, gone, w) + Excess(all, gone, LastCopies(gone, c.dir), w))
  {
    var gone := Pairs(c, placement, objsize).value;
    PairsAreOk(c, placement, objsize);
    PairsTaken(c, placement, objsize);
    DistinctIsNoDup(gone);
    TakenLoss(c, gone, w);
  }

  lemma TakenLoss(c: Context, gone: seq<Pair>, w: Weights)
    requires Whole(c) && Taken(c, gone) && NoDup(gone)
    ensures var all, last := Copies(c, |c.all|), LastCopies(gone, c.dir);
            FlatCost(gone, last, w) ==
            Value(all, [], w) - Value(all, gone, w) + Excess(all, gone, last, w)
  {
    var all := Copies(c, |c.all|);
    CopiesDistinct(c, |c.all|);
    LastIsUnserved(c, gone);
    forall i | 0 <= i < |gone|
      ensures gone[i] in all
    {
      CopiesHas(c, |c.all|, gone[i]);
    }
    FlatIsLoss(all, gone, LastCopies(gone, c.dir), w);
  }

  // ---- The gain of a placement ----------------------------------------------------------------------

  /** What requests for the object are worth at the listed edges when the first `i` of them hold it. */
  function DemandValue(top: seq<P.Entry>, i: nat, elsewhere: bool, w: Weights, n: nat): real
    requires n <= |top|
  {
    if n == 0 then 0.0
    else
      DemandValue(top, i, elsewhere, w, n - 1) +
      if n - 1 < i then w.local * top[n - 1].pop
      else if elsewhere || i > 0 then w.cooperative * top[n - 1].pop
      else 0.0
  }

  lemma Grow(t: real, a: real, b: real, x: real)
    requires x == t * a
    ensures x + t * b == t * (a + b)
  {
  }

  lemma {:induction false} DemandBelow(top: seq<P.Entry>, i: nat, elsewhere: bool, w: Weights, n: nat)
    requires n <= i <= |top|
    ensures DemandValue(top, i, elsewhere, w, n) == w.local * Placement.Sum(top[..n])
  {
    if n > 0 {
      DemandBelow(top, i, elsewhere, w, n - 1);
      assert top[..n][..n - 1] == top[..n - 1];
      Grow(w.local, Placement.Sum(top[..n - 1]), top[n - 1].pop, DemandValue(top, i, elsewhere, w, n - 1));
    } else {
      assert top[..0] == [];
    }
  }

  /** The popularity at the listed edges from `i` to `n`. */
  function RestSum(top: seq<P.Entry>, i: nat, n: nat): real
    requires n <= |top|
  {
    if n <= i then 0.0 else RestSum(top, i, n - 1) + top[n - 1].pop
  }

  lemma {:induction false} RestIs(top: seq<P.Entry>, i: nat, n: nat)
    requires i <= n <= |top|
    ensures RestSum(top, i, n) == Placement.Sum(top[..n]) - Placement.Sum(top[..i])
  {
    if n > i {
      RestIs(top, i, n - 1);
      assert top[..n][..n - 1] == top[..n - 1];
    }
  }

  function Weighted(t: real, top: seq<P.Entry>, i: nat, n: nat): real
    requires n <= |top|
  {
    if n <= i then 0.0 else Weighted(t, top, i, n - 1) + t * top[n - 1].pop
  }

  lemma {:induction false} WeightedIs(t: real, top: seq<P.Entry>, i: nat, n: nat)
    requires n <= |top|
    ensures Weighted(t, top, i, n) == t * RestSum(top, i, n)
  {
    if n > i {
      WeightedIs(t, top, i, n - 1);
      Grow(t, RestSum(top, i, n - 1), top[n - 1].pop, Weighted(t, top, i, n - 1));
    }
  }

  lemma {:induction false} DemandAbove(top: seq<P.Entry>, i: nat, elsewhere: bool, w: Weights, n: nat)
    requires i <= n <= |top|
    ensures DemandValue(top, i, elsewhere, w, n) - DemandValue(top, i, elsewhere, w, i) ==
            if elsewhere || i > 0 then Weighted(w.cooperative, top, i, n) else 0.0
  {
    if n > i {
      DemandAbove(top, i, elsewhere, w, n - 1);
    }
  }

  /** All requests there are: for the cached objects, and for the new one at the listed edges. */
  ghost function WorthOf(p: Placement.Problem, i: nat, gone: seq<Pair>): real {
    Value(Copies(p.c, |p.c.all|), gone, p.w) + DemandValue(p.top, i, p.isGlobalCached, p.w, |p.top|)
  }

  /** What the clamped weight difference adds for an object that is cached elsewhere already. */
  function Moved(top: seq<P.Entry>, i: nat, elsewhere: bool, w: Weights): real
    requires i <= |top|
  {
    if i == 0 || !elsewhere then 0.0
    else Moved(top, i - 1, elsewhere, w) + NonnegMinus(w.cooperative, w.local) * top[i - 1].pop
  }

  lemma {:induction false} MovedIs(top: seq<P.Entry>, i: nat, elsewhere: bool, w: Weights)
    requires i <= |top|
    ensures Moved(top, i, elsewhere, w) ==
            if elsewhere then NonnegMinus(w.cooperative, w.local) * Placement.Sum(top[..i]) else 0.0
    ensures w.cooperative <= w.local ==> Moved(top, i, elsewhere, w) == 0.0
  {
    if i > 0 && elsewhere {
      MovedIs(top, i - 1, elsewhere, w);
      assert top[..i][..i - 1] == top[..i - 1];
      Distribute(NonnegMinus(w.cooperative, w.local), Placement.Sum(top[..i - 1]), top[i - 1].pop);
    } else {
      assert top[..0] == [];
    }
  }

  lemma BenefitReal(w: Weights, chosen: real, total: real, elsewhere: bool, after: real, before: real, more: real)
    requires chosen <= total
    requires after == w.local * chosen + w.cooperative * (total - chosen)
    requires before == if elsewhere then w.cooperative * total else 0.0
    requires more == if elsewhere then NonnegMinus(w.cooperative, w.local) * chosen else 0.0
    ensures Placement.Benefit(w, chosen, elsewhere, NonnegMinus(total, chosen)) == after - before + more
  {
    Distribute(w.cooperative, chosen, total - chosen);
    Clamped(w.local, w.cooperative, chosen);
  }

  lemma SumsOf(top: seq<P.Entry>, i: nat, elsewhere: bool, w: Weights) returns (chosen: real, total: real)
    requires 1 <= i <= |top| && Placement.Nonneg(top)
    ensures chosen == Placement.Sum(top[..i]) && total == Placement.Sum(top) && chosen <= total
    ensures DemandValue(top, i, elsewhere, w, |top|) == w.local * chosen + w.cooperative * (total - chosen)
    ensures DemandValue(top, 0, elsewhere, w, |top|) == if elsewhere then w.cooperative * total else 0.0
    ensures Moved(top, i, elsewhere, w) == if elsewhere then NonnegMinus(w.cooperative, w.local) * chosen else 0.0
  {
    chosen, total := Placement.Sum(top[..i]), Placement.Sum(top);
    Placement.SplitTotal(top, i);
    DemandAt(top, i, elsewhere, w);
    DemandBefore(top, elsewhere, w);
    MovedIs(top, i, elsewhere, w);
  }

  /** The benefit is the value the new object's requests gain. */
  lemma BenefitIsGain(top: seq<P.Entry>, i: nat, elsewhere: bool, w: Weights)
    requires 1 <= i <= |top| && Placement.Nonneg(top)
    ensures var chosen := Placement.Sum(top[..i]);
            Placement.Benefit(w, chosen, elsewhere, NonnegMinus(Placement.Sum(top), chosen)) ==
            DemandValue(top, i, elsewhere, w, |top|) - DemandValue(top, 0, elsewhere, w, |top|) +
            Moved(top, i, elsewhere, w)
  {
    var chosen, total := SumsOf(top, i, elsewhere, w);
    BenefitReal(w, chosen, total, elsewhere, DemandValue(top, i, elsewhere, w, |top|),
                DemandValue(top, 0, elsewhere, w, |top|), Moved(top, i, elsewhere, w));
  }

  lemma DemandBefore(top: seq<P.Entry>, elsewhere: bool, w: Weights)
    ensures DemandValue(top, 0, elsewhere, w, |top|) == if elsewhere then w.cooperative * Placement.Sum(top) else 0.0
  {
    DemandAt(top, 0, elsewhere, w);
    assert top[..0] == [];
  }

  lemma DemandAt(top: seq<P.Entry>, i: nat, elsewhere: bool, w: Weights)
    requires i <= |top|
    ensures DemandValue(top, i, elsewhere, w, |top|) ==
            w.local * Placement.Sum(top[..i]) +
            if elsewhere || i > 0 then w.cooperative * (Placement.Sum(top) - Placement.Sum(top[..i])) else 0.0
  {
    DemandBelow(top, i, elsewhere, w, i);
    DemandAbove(top, i, elsewhere, w, |top|);
    WeightedIs(w.cooperative, top, i, |top|);
    RestIs(top, i, |top|);
    assert top[..|top|] == top;
  }

  lemma GainParts(p: Placement.Problem, i: nat) returns (cost: real)
    requires Placement.Solvable(p) && 1 <= i <= |p.top| && Placement.Gain(p, i).Some?
    ensures InBounds(p.c, P.EdgesIn(p.top)[..i]) && CostOf(p.c, P.EdgesIn(p.top)[..i], p.objsize, p.w) == Some(cost)
    ensures Placement.Gain(p, i) ==
            Some(DemandValue(p.top, i, p.isGlobalCached, p.w, |p.top|) -
                 DemandValue(p.top, 0, p.isGlobalCached, p.w, |p.top|) + Moved(p.top, i, p.isGlobalCached, p.w) - cost)
  {
    Placement.UsablePrefix(p.c, P.EdgesIn(p.top), i);
    cost := CostOf(p.c, P.EdgesIn(p.top)[..i], p.objsize, p.w).value;
    BenefitIsGain(p.top, i, p.isGlobalCached, p.w);
  }

  /**
   The gain of caching the object at the first `i` listed edges is what everything is worth afterwards minus what it was
   worth before, but for the clamped weight difference, which is zero where the local weight is not below the
   cooperative one.
   */
  lemma GainIsWorth(p: Placement.Problem, i: nat)
    requires Placement.Solvable(p) && Whole(p.c) && 1 <= i <= |p.top| && Placement.Gain(p, i).Some?
    ensures InBounds(p.c, P.EdgesIn(p.top)[..i]) && Pairs(p.c, P.EdgesIn(p.top)[..i], p.objsize).Some?
    ensures var gone := Pairs(p.c, P.EdgesIn(p.top)[..i], p.objsize).value;
            var excess := Excess(Copies(p.c, |p.c.all|), gone, LastCopies(gone, p.c.dir), p.w);
            && Placement.Gain(p, i) ==
               Some(WorthOf(p, i, gone) - WorthOf(p, 0, []) + Moved(p.top, i, p.isGlobalCached, p.w) - excess)
            && (p.w.cooperative <= p.w.local ==> Placement.Gain(p, i) == Some(WorthOf(p, i, gone) - WorthOf(p, 0, [])))
  {
    var edges := P.EdgesIn(p.top)[..i];
    var cost := GainParts(p, i);
    Placement.UsablePrefix(p.c, P.EdgesIn(p.top), i);
    CostIsLoss(p.c, edges, p.objsize, p.w);
    if p.w.cooperative <= p.w.local {
      var gone := Pairs(p.c, edges, p.objsize).value;
      NoExcess(Copies(p.c, |p.c.all|), gone, LastCopies(gone, p.c.dir), p.w);
      MovedIs(p.top, i, p.isGlobalCached, p.w);
    }
  }
}
