/** The greedy search for a placement among the most popular edges of an uncached object. */
module Placement {
  import opened Types
  import opened PopularityIndex
  import opened EvictionCost
  import opened Victims

  /** What caching at the chosen edges gains; `rest` is the popularity left at the others. */
  function Benefit(w: Weights, chosen: real, isGlobalCached: bool, rest: real): real {
    if isGlobalCached then NonnegMinus(w.local, w.cooperative) * chosen
    else w.local * chosen + w.cooperative * rest
  }

  function Sum(s: seq<Entry>): real {
    if s == [] then 0.0 else Sum(s[..|s| - 1]) + s[|s| - 1].pop
  }

  // ---- Splitting the total popularity ---------------------------------------------------------------

  predicate Nonneg(s: seq<Entry>) {
    forall i :: 0 <= i < |s| ==> s[i].pop >= 0.0
  }

  lemma {:induction false} SumMonotone(s: seq<Entry>, i: nat, j: nat)
    requires Nonneg(s) && i <= j <= |s|
    ensures Sum(s[..i]) <= Sum(s[..j])
  {
    if i < j {
      SumMonotone(s, i, j - 1);
      assert s[..j][..j - 1] == s[..j - 1];
    }
  }

  lemma SplitTotal(s: seq<Entry>, i: nat)
    requires Nonneg(s) && i <= |s|
    ensures Sum(s[..i]) <= Sum(s)
    ensures Sum(s[..i]) + NonnegMinus(Sum(s), Sum(s[..i])) == Sum(s)
  {
    SumMonotone(s, i, |s|);
    assert s[..|s|] == s;
  }

  /** The assertion of every iteration: the popularity chosen so far is no more than the total. */
  predicate SumHolds(s: seq<Entry>, i: nat)
    requires i <= |s|
  {
    Sum(s[..i]) <= Sum(s)
  }

  /** On a descending list it holds at every prefix exactly when no popularity is negative. */
  lemma SumHoldsIff(s: seq<Entry>)
    requires Sorted(s)
    ensures (forall i: nat :: i <= |s| ==> SumHolds(s, i)) <==> Nonneg(s)
  {
    if Nonneg(s) {
      forall i: nat | i <= |s|
        ensures SumHolds(s, i)
      {
        SplitTotal(s, i);
      }
    } else {
      var n := |s| - 1;
      assert s[n].pop < 0.0;
      assert !SumHolds(s, n);
    }
  }

  // ---- The search as a maximum ----------------------------------------------------------------------

  /** Everything the gain of a prefix depends on. */
  datatype Problem = Problem(c: Context, top: seq<Entry>, objsize: nat, isGlobalCached: bool, w: Weights)

  ghost predicate Solvable(p: Problem) {
    Usable(p.c, EdgesIn(p.top)) && InBounds(p.c, EdgesIn(p.top)) && Nonneg(p.top)
  }

  /** Benefit minus eviction cost of caching at the first `i` edges. */
  ghost function Gain(p: Problem, i: nat): Option<real>
    requires InBounds(p.c, EdgesIn(p.top)) && i <= |p.top|
  {
    var chosen := Sum(p.top[..i]);
    var cost := CostOf(p.c, EdgesIn(p.top)[..i], p.objsize, p.w);
    if cost.None? then None
    else Some(Benefit(p.w, chosen, p.isGlobalCached, NonnegMinus(Sum(p.top), chosen)) - cost.value)
  }

  /** The gains of the prefixes of one edge, two edges and so on. */
  ghost function Gains(p: Problem): (g: seq<Option<real>>)
    requires InBounds(p.c, EdgesIn(p.top))
    ensures |g| == |p.top| && forall i :: 0 <= i < |g| ==> g[i] == Gain(p, i + 1)
  {
    seq(|p.top|, i requires 0 <= i < |p.top| => Gain(p, i + 1))
  }

  /** Entry `n` is the first of the greatest gains. */
  predicate FirstMax(g: seq<Option<real>>, n: nat) {
    && n < |g|
    && (forall j :: 0 <= j < |g| ==> g[j].Some?)
    && (forall j :: 0 <= j < n ==> g[j].value < g[n].value)
    && (forall j :: 0 <= j < |g| ==> g[j].value <= g[n].value)
  }

  lemma FirstMaxUnique(g: seq<Option<real>>, n: nat, m: nat)
    requires FirstMax(g, n) && FirstMax(g, m)
    ensures n == m
  {
    var a, b := g[n], g[m];
  }

  /** One more gain: it takes over only if it is strictly greater. */
  lemma FirstMaxStep(g: seq<Option<real>>, i: nat, n: nat)
    requires i < |g| && FirstMax(g[..i], n) && g[i].Some?
    ensures FirstMax(g[..i + 1], if g[i].value > g[n].value then i else n)
  {
    assert g[..i + 1][..i] == g[..i];
  }

  lemma {:induction false} FirstMaxExists(g: seq<Option<real>>) returns (n: nat)
    requires g != [] && forall j :: 0 <= j < |g| ==> g[j].Some?
    ensures FirstMax(g, n)
  {
    if |g| == 1 {
      n := 0;
    } else {
      n := FirstMaxExists(g[..|g| - 1]);
      if g[|g| - 1].value > g[n].value {
        n := |g| - 1;
      }
    }
  }

  /** How the search ends: with an exit, without a placement, or with one. */
  datatype Choice = Exit | Nothing | Place(edges: seq<Edge>)

  /** The placement is the smallest prefix of maximal gain, and there is one exactly when that gain is positive. */
  ghost predicate IsChoice(g: seq<Option<real>>, edges: seq<Edge>, r: Choice)
    requires |g| == |edges|
  {
    match r
    case Exit => exists j :: 0 <= j < |g| && g[j].None?
    case Nothing => forall j :: 0 <= j < |g| ==> g[j].Some? && g[j].value <= 0.0
    case Place(chosen) => exists n: nat :: FirstMax(g, n) && g[n].value > 0.0 && chosen == edges[..n + 1]
  }

  /** The three ways exclude each other and a placement is unique. */
  lemma ChoiceUnique(g: seq<Option<real>>, edges: seq<Edge>, a: Choice, b: Choice)
    requires |g| == |edges| && IsChoice(g, edges, a) && IsChoice(g, edges, b)
    ensures a == b
  {
    if a.Place? && b.Place? {
      var n: nat :| FirstMax(g, n) && g[n].value > 0.0 && a.edges == edges[..n + 1];
      var m: nat :| FirstMax(g, m) && g[m].value > 0.0 && b.edges == edges[..m + 1];
      FirstMaxUnique(g, n, m);
    }
  }

  lemma ChoiceExists(g: seq<Option<real>>, edges: seq<Edge>)
    requires |g| == |edges|
    ensures exists r :: IsChoice(g, edges, r)
  {
    if j :| 0 <= j < |g| && g[j].None? {
      assert IsChoice(g, edges, Exit);
    } else if g == [] {
      assert IsChoice(g, edges, Nothing);
    } else {
      var n := FirstMaxExists(g);
      assert if g[n].value > 0.0 then IsChoice(g, edges, Place(edges[..n + 1])) else IsChoice(g, edges, Nothing);
    }
  }

  lemma ChoiceIs(g: seq<Option<real>>, edges: seq<Edge>, n: nat, r: Choice)
    requires |g| == |edges| && (g == [] || FirstMax(g, n))
    requires r == if g != [] && g[n].value > 0.0 then Place(edges[..n + 1]) else Nothing
    ensures IsChoice(g, edges, r)
  {
  }

  ghost function Choose(p: Problem): (r: Choice)
    requires InBounds(p.c, EdgesIn(p.top))
    ensures IsChoice(Gains(p), EdgesIn(p.top), r)
  {
    ChoiceExists(Gains(p), EdgesIn(p.top));
    var r :| IsChoice(Gains(p), EdgesIn(p.top), r);
    r
  }

  /** The search exits exactly when some edge of the list cannot be covered. */
  lemma ChooseExitIff(p: Problem)
    requires InBounds(p.c, EdgesIn(p.top))
    ensures Choose(p).Exit? <==>
            exists i :: 0 <= i < |p.top| &&
                        Selected(Recorded(p.c, p.top[i].edge), p.c.all[p.top[i].edge], p.objsize).None?
  {
    var edges, g := EdgesIn(p.top), Gains(p);
    assert edges[..|edges|] == edges;
    PairsExitIff(p.c, edges, p.objsize);
    if g != [] && g[|g| - 1].None? {
      ChoiceUnique(g, edges, Exit, Choose(p));
    }
    forall j | 0 <= j < |g| && g[j].None?
      ensures Pairs(p.c, edges, p.objsize).None?
    {
      NoPairs(p.c, edges, p.objsize, j + 1);
    }
  }

  // ---- As the program does it -----------------------------------------------------------------------

  lemma UsablePrefix(c: Context, edges: seq<Edge>, i: nat)
    requires Usable(c, edges) && InBounds(c, edges) && i <= |edges|
    ensures Usable(c, edges[..i]) && InBounds(c, edges[..i])
  {
    forall e | e in edges[..i]
      ensures EdgeUsable(c, e)
    {
      assert e in edges;
    }
  }

  method SumAll(s: seq<Entry>) returns (sum: real)
    ensures sum == Sum(s)
  {
    sum := 0.0;
    assert s[..0] == [];
    for i := 0 to |s|
      invariant sum == Sum(s[..i])
    {
      assert s[..i + 1][..i] == s[..i];
      sum := sum + s[i].pop;
    }
    assert s[..|s|] == s;
  }

  ghost predicate GainAt(p: Problem, g: seq<Option<real>>, i: nat)
    requires InBounds(p.c, EdgesIn(p.top)) && |g| == |p.top|
  {
    i < |g| && g[i] == Gain(p, i + 1)
  }

  ghost predicate AreGains(p: Problem, g: seq<Option<real>>) {
    Solvable(p) && |g| == |p.top| && forall i: nat {:trigger GainAt(p, g, i)} :: i < |g| ==> GainAt(p, g, i)
  }

  method CalcGain(p: Problem, i: nat, placement: set<Edge>, chosen: real, total: real, ghost g: seq<Option<real>>)
    returns (gain: Option<real>)
    requires AreGains(p, g) && i < |p.top| && chosen == Sum(p.top[..i + 1]) && total == Sum(p.top)
    requires placement == Elems(EdgesIn(p.top)[..i + 1])
    ensures gain == g[i]
  {
    var rest := NonnegMinus(total, chosen);
    var benefit := Benefit(p.w, chosen, p.isGlobalCached, rest);
    UsablePrefix(p.c, EdgesIn(p.top), i + 1);
    var cost := CalcEvictionCost(p.c, placement, p.objsize, p.w, EdgesIn(p.top)[..i + 1]);
    gain := if cost.None? then None else Some(benefit - cost.value);
    assert GainAt(p, g, i);
  }

  lemma MoreEdges(top: seq<Entry>, i: nat)
    requires i < |top|
    ensures Elems(EdgesIn(top)[..i + 1]) == Elems(EdgesIn(top)[..i]) + {top[i].edge}
  {
    assert EdgesIn(top)[..i + 1] == EdgesIn(top)[..i] + [top[i].edge];
  }

  method PlacementCalculation(p: Problem) returns (r: Choice)
    requires Solvable(p)
    ensures r == Choose(p)
  {
    r := SearchPrefixes(p, Gains(p));
    ChoiceUnique(Gains(p), EdgesIn(p.top), r, Choose(p));
  }

  method SearchPrefixes(p: Problem, ghost g: seq<Option<real>>) returns (r: Choice)
    requires AreGains(p, g)
    ensures IsChoice(g, EdgesIn(p.top), r)
  {
    var total := SumAll(p.top);
    var chosen, max, best := 0.0, 0.0, 0;
    var placement: set<Edge> := {};
    assert p.top[..0] == [];
    for i := 0 to |p.top|
      invariant placement == Elems(EdgesIn(p.top)[..i])
      invariant chosen == Sum(p.top[..i])
      invariant if i == 0 then max == 0.0 else FirstMax(g[..i], best) && g[best] == Some(max)
    {
      assert p.top[..i + 1][..i] == p.top[..i];
      placement := placement + {p.top[i].edge};
      MoreEdges(p.top, i);
      chosen := chosen + p.top[i].pop;
      SplitTotal(p.top, i + 1);
      assert chosen <= total;
      var gain := CalcGain(p, i, placement, chosen, total, g);
      if gain.None? {
        return Exit;
      }
      if i > 0 {
        FirstMaxStep(g, i, best);
      }
      if i == 0 || gain.value > max {
        max, best := gain.value, i;
      }
    }
    assert g[..|g|] == g;
    r := if max > 0.0 then Place(EdgesIn(p.top)[..best + 1]) else Nothing;
    ChoiceIs(g, EdgesIn(p.top), best, r);
  }
}
