/** Keys, values and edge indexes shared by every component. */
module Types {
  datatype Option<+T> = None | Some(value: T)

  /** A key is its string; its length is charged to the cache. */
  type Key = string

  /** Index of an edge node, a client or any other peer. */
  type Edge = nat

  /** A value carries no content, only a deleted mark and a size in bytes. */
  datatype Value = Value(deleted: bool, size: nat)

  /** The value of a removed object: marked deleted and empty. */
  const DELETED := Value(true, 0)

  /** Object size checking: key plus value must stay strictly below the capacity. */
  predicate ValidObjsize(capacity: nat, k: Key, v: Value) {
    |k| + v.size < capacity
  }

  /** Where a GET finds the object. */
  datatype Hitflag = LocalHit | CooperativeHit | GlobalMiss

  type Popularity = r: real | r >= 0.0 witness 0.0

  /** Subtraction of popularities and weights, cut off at zero. */
  function NonnegMinus(a: real, b: real): real {
    if a < b then 0.0 else a - b
  }

  predicate NoDup<T(==)>(s: seq<T>) {
    forall i, j :: 0 <= i < j < |s| ==> s[i] != s[j]
  }

  /** The elements of a sequence, as a set. */
  function Elems<T(!new)>(s: seq<T>): (r: set<T>)
    ensures forall x :: x in r <==> x in s
  {
    set x | x in s
  }

  /** A duplicate-free sequence has as many positions as elements. */
  lemma {:induction false} NoDupCard<T(!new)>(s: seq<T>)
    requires NoDup(s)
    ensures |Elems(s)| == |s|
  {
    if s == [] {
      assert Elems(s) == {};
    } else {
      NoDupCard(s[1..]);
      assert s[0] !in s[1..];
      assert Elems(s) == {s[0]} + Elems(s[1..]);
    }
  }

  /** A duplicate-free sequence is one order of the set of its elements. */
  lemma {:induction false} NoDupMultiset<T(!new)>(s: seq<T>)
    requires NoDup(s)
    ensures multiset(s) == multiset(Elems(s))
  {
    if s == [] {
      assert Elems(s) == {};
    } else {
      NoDupMultiset(s[1..]);
      assert s[0] !in s[1..];
      assert Elems(s) == {s[0]} + Elems(s[1..]);
      assert s == [s[0]] + s[1..];
    }
  }
}
