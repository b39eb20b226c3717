/** Victim information of an edge and the choice of victims for a required number of bytes. */
module Victims {
  import opened Types

  datatype VictimInfo = VictimInfo(key: Key, size: nat, localPop: real, redirectedPop: real)

  /** What is on record for an edge: its free bytes and its least rewarding objects, in that order. */
  datatype EvictInfo = EvictInfo(margin: nat, victims: seq<VictimInfo>)

  function Bytes(s: seq<VictimInfo>): nat {
    if s == [] then 0 else Bytes(s[..|s| - 1]) + s[|s| - 1].size
  }

  lemma BytesStep(s: seq<VictimInfo>, i: nat)
    requires i < |s|
    ensures Bytes(s[..i + 1]) == Bytes(s[..i]) + s[i].size
  {
    assert s[..i + 1][..i] == s[..i];
  }

  lemma {:induction false} BytesMonotone(s: seq<VictimInfo>, i: nat, j: nat)
    requires i <= j <= |s|
    ensures Bytes(s[..i]) <= Bytes(s[..j])
  {
    if i < j {
      BytesMonotone(s, i, j - 1);
      assert s[..j][..j - 1] == s[..j - 1];
    }
  }

  /** The first `m` victims, and no fewer, cover the required bytes. */
  predicate Covers(s: seq<VictimInfo>, required: nat, m: nat) {
    && m <= |s|
    && Bytes(s[..m]) >= required
    && forall j :: 0 <= j < m ==> Bytes(s[..j]) < required
  }

  ghost function Cover(s: seq<VictimInfo>, required: nat): Option<nat> {
    if exists m: nat :: Covers(s, required, m) then
      var m: nat :| Covers(s, required, m);
      Some(m)
    else None
  }

  lemma CoverIs(s: seq<VictimInfo>, required: nat, m: nat)
    requires Covers(s, required, m)
    ensures Cover(s, required) == Some(m)
  {
    var n: nat :| Covers(s, required, n) && Cover(s, required) == Some(n);
    CoversUnique(s, required, n, m);
    CoversUnique(s, required, m, n);
  }

  lemma CoversUnique(s: seq<VictimInfo>, required: nat, n: nat, m: nat)
    requires Covers(s, required, n) && Covers(s, required, m)
    ensures n >= m
  {
    var bytes := Bytes(s[..n]);
  }

  lemma {:induction false} CoverExists(s: seq<VictimInfo>, required: nat)
    ensures Cover(s, required).Some? <==> Bytes(s) >= required
  {
    assert s[..|s|] == s;
    if Bytes(s) >= required {
      var m := Shortest(s, required, |s|);
      CoverIs(s, required, m);
    } else if Cover(s, required).Some? {
      var m: nat :| Covers(s, required, m);
      BytesMonotone(s, m, |s|);
    }
  }

  /** The length of the shortest covering prefix, found from a covering one downwards. */
  lemma {:induction false} Shortest(s: seq<VictimInfo>, required: nat, n: nat) returns (m: nat)
    requires n <= |s| && Bytes(s[..n]) >= required
    ensures Covers(s, required, m)
  {
    if n == 0 || Bytes(s[..n - 1]) < required {
      m := n;
      forall j | 0 <= j < n
        ensures Bytes(s[..j]) < required
      {
        BytesMonotone(s, j, n - 1);
      }
    } else {
      m := Shortest(s, required, n - 1);
    }
  }

  /** A prefix that is itself enough has the same shortest covering prefix as the whole. */
  lemma CoverPrefix(s: seq<VictimInfo>, n: nat, required: nat)
    requires n <= |s| && Bytes(s[..n]) >= required
    ensures Cover(s[..n], required) == Cover(s, required) && Cover(s, required).Some?
  {
    assert s[..n][..n] == s[..n];
    var m := Shortest(s[..n], required, n);
    forall j | 0 <= j <= m
      ensures s[..n][..j] == s[..j]
    {
    }
    CoverIs(s[..n], required, m);
    assert Covers(s, required, m);
    CoverIs(s, required, m);
  }

  function Required(objsize: nat, margin: nat): nat {
    if objsize > margin then objsize - margin else 0
  }

  /**
   Victims one edge must give up for an object: none if the margin is enough or nothing is on record; otherwise the
   shortest covering prefix of the recorded victims, or of freshly fetched ones when the record falls short.
   `all` is the edge's own reward order. No result stands for the exit when the whole edge falls short.
   */
  ghost function Selected(info: Option<EvictInfo>, all: seq<VictimInfo>, objsize: nat): Option<seq<VictimInfo>> {
    if info.None? || Required(objsize, info.value.margin) == 0 then Some([])
    else
      var required := Required(objsize, info.value.margin);
      if Bytes(info.value.victims) < required then
        var fetched := Cover(all, objsize);
        if fetched.None? then None else Take(all[..fetched.value], required)
      else Take(info.value.victims, required)
  }

  ghost function Take(s: seq<VictimInfo>, required: nat): Option<seq<VictimInfo>> {
    var m := Cover(s, required);
    if m.None? then None else Some(s[..m.value])
  }

  /**
   When the record is a prefix of the edge's own order, the selection is the shortest prefix of that order covering
   the required bytes, whether it came from the record or was fetched; the only failure is an edge that cannot
   cover the object after its record fell short.
   */
  lemma SelectedIsShortest(info: EvictInfo, all: seq<VictimInfo>, objsize: nat, n: nat)
    requires n <= |all| && info.victims == all[..n]
    ensures var required := Required(objsize, info.margin);
            && (Selected(Some(info), all, objsize).None? <==> Bytes(all[..n]) < required && Bytes(all) < objsize)
            && (Selected(Some(info), all, objsize).Some? ==>
                 exists m: nat :: Covers(all, required, m) && Selected(Some(info), all, objsize).value == all[..m])
  {
    var required := Required(objsize, info.margin);
    if required == 0 {
      assert Covers(all, 0, 0) && all[..0] == [];
    } else if Bytes(info.victims) < required {
      CoverExists(all, objsize);
      if Bytes(all) >= objsize {
        var m: nat := Cover(all, objsize).value;
        assert Covers(all, objsize, m);
        TakePrefix(all, m, required);
      }
    } else {
      TakePrefix(all, n, required);
    }
  }

  /** The selected victims and the free bytes together make room for the object, and fewer victims would not. */
  lemma SelectedMakesRoom(info: EvictInfo, all: seq<VictimInfo>, objsize: nat, n: nat)
    requires n <= |all| && info.victims == all[..n] && Selected(Some(info), all, objsize).Some?
    ensures var chosen := Selected(Some(info), all, objsize).value;
            && chosen <= all && info.margin + Bytes(chosen) >= objsize
            && forall j :: 0 <= j < |chosen| ==> info.margin + Bytes(chosen[..j]) < objsize
  {
    SelectedIsShortest(info, all, objsize, n);
    var chosen := Selected(Some(info), all, objsize).value;
    var m: nat :| Covers(all, Required(objsize, info.margin), m) && chosen == all[..m];
    forall j | 0 <= j < m
      ensures info.margin + Bytes(chosen[..j]) < objsize
    {
      assert chosen[..j] == all[..j];
    }
  }

  /**
   Fetching for the whole object asks for more than is required: three victims of 20 bytes could free the 30 bytes an
   object of 70 needs beside a margin of 40, and yet the edge exits.
   */
  lemma FetchAsksTooMuch(a: Key, b: Key, d: Key)
    ensures var all := [VictimInfo(a, 20, 0.0, 0.0), VictimInfo(b, 20, 0.0, 0.0), VictimInfo(d, 20, 0.0, 0.0)];
            && Selected(Some(EvictInfo(40, all[..1])), all, 70).None?
            && Cover(all, Required(70, 40)) == Some(2)
  {
    var all := [VictimInfo(a, 20, 0.0, 0.0), VictimInfo(b, 20, 0.0, 0.0), VictimInfo(d, 20, 0.0, 0.0)];
    assert all[..0] == [] && all[..3] == all;
    BytesStep(all, 0);
    BytesStep(all, 1);
    BytesStep(all, 2);
    SelectedIsShortest(EvictInfo(40, all[..1]), all, 70, 1);
    CoverIs(all, 30, 2);
  }

  lemma TakePrefix(all: seq<VictimInfo>, n: nat, required: nat)
    requires n <= |all| && Bytes(all[..n]) >= required
    ensures Take(all[..n], required).Some?
    ensures exists m: nat :: Covers(all, required, m) && Take(all[..n], required).value == all[..m]
  {
    CoverPrefix(all, n, required);
    var m: nat := Cover(all[..n], required).value;
    assert Covers(all, required, m) && Covers(all[..n], required, m);
    assert all[..n][..m] == all[..m];
  }

  // ---- As the program does it -----------------------------------------------------------------------

  /** Victims in order until they cover the bytes; no result when they run out. */
  method TakeVictims(s: seq<VictimInfo>, required: nat) returns (r: Option<seq<VictimInfo>>)
    ensures r == Take(s, required)
  {
    var m, saved := 0, 0;
    assert s[..0] == [];
    while saved < required
      invariant m <= |s| && saved == Bytes(s[..m])
      invariant forall j :: 0 <= j < m ==> Bytes(s[..j]) < required
      decreases |s| - m
    {
      if m == |s| {
        assert s[..m] == s;
        CoverExists(s, required);
        return None;
      }
      assert s[..m + 1][..m] == s[..m];
      saved := saved + s[m].size;
      m := m + 1;
    }
    CoverIs(s, required, m);
    r := Some(s[..m]);
  }

  method SumBytes(s: seq<VictimInfo>) returns (total: nat)
    ensures total == Bytes(s)
  {
    total := 0;
    assert s[..0] == [];
    for i := 0 to |s|
      invariant total == Bytes(s[..i])
    {
      assert s[..i + 1][..i] == s[..i];
      total := total + s[i].size;
    }
    assert s[..|s|] == s;
  }

  method SelectVictims(info: Option<EvictInfo>, all: seq<VictimInfo>, objsize: nat) returns (r: Option<seq<VictimInfo>>)
    ensures r == Selected(info, all, objsize)
  {
    if info.None? {
      return Some([]);
    }
    var required := Required(objsize, info.value.margin);
    if required == 0 {
      return Some([]);
    }
    var synced := SumBytes(info.value.victims);
    var final := info.value.victims;
    if synced < required {
      var extra := TakeVictims(all, objsize);
      if extra.None? {
        return None;
      }
      final := extra.value;
    }
    r := TakeVictims(final, required);
  }
}
