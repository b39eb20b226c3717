/** Dumping a cache wrapper into a snapshot and replaying the snapshot into an empty wrapper. */
module Snapshot {
  import opened Types
  import opened Wrapper
  import Lru

  /** One record of the snapshot file: key, value, validity and the beacon edge if there is one. */
  datatype Entry = Entry(k: Key, v: Value, valid: bool, beacon: Option<Edge>)

  ghost function EntryOf(w: State, k: Key): Entry
    requires Lru.Has(w.cache, k)
  {
    Entry(k, Lru.Stored(w.cache, k), IsValid(w, k), if k in w.beacon then Some(w.beacon[k]) else None)
  }

  /**
   The dump visits the keys of the validity map in the map's own iteration order and reads each through the local
   cache, so every visited key that is cached moves to the front.
   */
  ghost function Dump(w: State, order: seq<Key>): (State, seq<Entry>) {
    if order == [] then (w, [])
    else
      var k := order[|order| - 1];
      var (w', entries) := Dump(w, order[..|order| - 1]);
      (Get(w', k), if Lru.Has(w'.cache, k) then entries + [EntryOf(w', k)] else entries)
  }

  /** Loading forgets all beacon edges, then admits the records one by one. */
  function Load(w: State, entries: seq<Entry>): State {
    if entries == [] then w.(beacon := map[])
    else
      var e := entries[|entries| - 1];
      Admit(Load(w, entries[..|entries| - 1]), e.k, e.v, e.valid, e.beacon)
  }

  /** The records of a snapshot, newest first, are exactly the front of the list. */
  ghost predicate FrontIs(items: seq<Lru.Item>, entries: seq<Entry>) {
    && |entries| <= |items|
    && forall j :: 0 <= j < |entries| ==>
         var e := entries[|entries| - 1 - j]; items[j].key == e.k && items[j].value == e.v
  }

  lemma FrontAt(items: seq<Lru.Item>, entries: seq<Entry>, i: nat)
    requires FrontIs(items, entries) && i < |entries|
    ensures items[|entries| - 1 - i].key == entries[i].k && items[|entries| - 1 - i].value == entries[i].v
  {
  }

  // ---- The dump -------------------------------------------------------------------------------------

  lemma GetContents(w: State, k: Key, x: Key)
    requires Inv(w)
    ensures Lru.Has(Get(w, k).cache, x) <==> Lru.Has(w.cache, x)
    ensures Lru.Has(w.cache, x) ==> EntryOf(Get(w, k), x) == EntryOf(w, x)
  {
    if Lru.Has(w.cache, k) {
      TouchVisible(w, k, Lru.Stored(w.cache, k), x);
    }
  }

  lemma {:induction false} DumpContents(w: State, order: seq<Key>)
    requires Inv(w)
    ensures var (w', entries) := Dump(w, order);
            && Inv(w') && w'.valid == w.valid && w'.beacon == w.beacon && w'.capacity == w.capacity
            && (forall x :: Lru.Has(w'.cache, x) <==> Lru.Has(w.cache, x))
            && (forall x :: Lru.Has(w.cache, x) ==> EntryOf(w', x) == EntryOf(w, x))
            && (forall j :: 0 <= j < |entries| ==> entries[j].k in order && Lru.Has(w.cache, entries[j].k)
                                                   && entries[j] == EntryOf(w, entries[j].k))
  {
    if order != [] {
      var n := |order| - 1;
      var shorter := order[..n];
      DumpContents(w, shorter);
      var w' := Dump(w, shorter).0;
      GetInv(w', order[n]);
      forall x
        ensures Lru.Has(Get(w', order[n]).cache, x) <==> Lru.Has(w.cache, x)
        ensures Lru.Has(w.cache, x) ==> EntryOf(Get(w', order[n]), x) == EntryOf(w, x)
      {
        GetContents(w', order[n], x);
      }
    }
  }

  /** No cached key that is visited is missing from the records. */
  lemma {:induction false} DumpCovers(w: State, order: seq<Key>, k: Key)
    requires Inv(w) && k in order && Lru.Has(w.cache, k)
    ensures exists j :: 0 <= j < |Dump(w, order).1| && Dump(w, order).1[j].k == k
  {
    var n := |order| - 1;
    var shorter := order[..n];
    DumpContents(w, shorter);
    var all := Dump(w, order).1;
    if k == order[n] {
      assert all[|all| - 1].k == k;
    } else {
      DumpCovers(w, shorter, k);
      var entries := Dump(w, shorter).1;
      var j :| 0 <= j < |entries| && entries[j].k == k;
      assert all[j].k == k;
    }
  }

  lemma TouchFront(c: Lru.Cache, k: Key, entries: seq<Entry>, e: Entry)
    requires Lru.Wf(c) && Lru.Has(c, k) && FrontIs(c.items, entries)
    requires forall j :: 0 <= j < |entries| ==> entries[j].k != k
    requires e.k == k && e.v == Lru.Stored(c, k)
    ensures FrontIs(Lru.Get(c, k).items, entries + [e])
  {
    var p := Lru.Index(c.items, k);
    var m := |entries|;
    assert p >= m;
    var t := Lru.Get(c, k).items;
    var all := entries + [e];
    forall j | 0 <= j < |all|
      ensures t[j].key == all[m - j].k && t[j].value == all[m - j].v
    {
      if j > 0 {
        assert t[j] == c.items[j - 1];
        assert all[m - j] == entries[m - 1 - (j - 1)];
      }
    }
  }

  lemma {:induction false} DumpFront(w: State, order: seq<Key>)
    requires Inv(w) && NoDup(order)
    ensures FrontIs(Dump(w, order).0.cache.items, Dump(w, order).1)
  {
    if order != [] {
      var n := |order| - 1;
      var shorter := order[..n];
      DumpFront(w, shorter);
      DumpContents(w, shorter);
      var (w', entries) := Dump(w, shorter);
      if Lru.Has(w'.cache, order[n]) {
        TouchFront(w'.cache, order[n], entries, EntryOf(w', order[n]));
      }
    }
  }

  lemma InFront(items: seq<Lru.Item>, entries: seq<Entry>, k: Key)
    requires FrontIs(items, entries) && exists j :: 0 <= j < |entries| && entries[j].k == k
    ensures exists i :: 0 <= i < |entries| && items[i].key == k
  {
    var j :| 0 <= j < |entries| && entries[j].k == k;
    FrontAt(items, entries, j);
  }

  /** Once every cached key was visited, the snapshot is the whole list, newest first. */
  lemma DumpWhole(w: State, order: seq<Key>)
    requires Inv(w) && NoDup(order) && Lru.Keys(w.cache) <= Elems(order)
    ensures |Dump(w, order).1| == |Dump(w, order).0.cache.items|
  {
    DumpFront(w, order);
    DumpContents(w, order);
    var (w', entries) := Dump(w, order);
    if |entries| < |w'.cache.items| {
      var k := w'.cache.items[|entries|].key;
      assert Lru.Has(w'.cache, k);
      Lru.HasIsKey(w.cache, k);
      assert k in order;
      DumpCovers(w, order, k);
      InFront(w'.cache.items, entries, k);
    }
  }

  // ---- The load -------------------------------------------------------------------------------------

  predicate Loadable(entries: seq<Entry>, capacity: nat) {
    && (forall i, j :: 0 <= i < j < |entries| ==> entries[i].k != entries[j].k)
    && (forall i :: 0 <= i < |entries| ==> ValidObjsize(capacity, entries[i].k, entries[i].v))
  }

  ghost predicate LoadedFlags(w: State, entries: seq<Entry>) {
    forall j :: 0 <= j < |entries| ==>
      && entries[j].k in w.valid && w.valid[entries[j].k] == entries[j].valid
      && (entries[j].k in w.beacon <==> entries[j].beacon.Some?)
      && (entries[j].beacon.Some? ==> w.beacon[entries[j].k] == entries[j].beacon.value)
  }

  ghost predicate Loaded(w: State, entries: seq<Entry>) {
    && Inv(w)
    && |w.cache.items| == |entries|
    && FrontIs(w.cache.items, entries)
    && w.valid.Keys == Lru.Keys(w.cache)
    && LoadedFlags(w, entries)
  }

  lemma LoadOneFresh(w: State, entries: seq<Entry>, e: Entry)
    requires Loaded(w, entries)
    requires forall j :: 0 <= j < |entries| ==> entries[j].k != e.k
    ensures !Lru.Has(w.cache, e.k) && e.k !in w.valid && e.k !in w.beacon
  {
    assert !Lru.Has(w.cache, e.k);
    Lru.HasIsKey(w.cache, e.k);
  }

  lemma LoadOneItems(c: Lru.Cache, entries: seq<Entry>, e: Entry)
    requires !Lru.Has(c, e.k) && FrontIs(c.items, entries) && |c.items| == |entries|
    ensures FrontIs(Lru.Admit(c, e.k, e.v).items, entries + [e])
  {
    var t, all := Lru.Admit(c, e.k, e.v).items, entries + [e];
    forall j | 0 <= j < |all|
      ensures t[j].key == all[|entries| - j].k && t[j].value == all[|entries| - j].v
    {
      if j > 0 {
        assert t[j] == c.items[j - 1];
        assert all[|entries| - j] == entries[|entries| - 1 - (j - 1)];
      }
    }
  }

  lemma LoadOne(w: State, entries: seq<Entry>, e: Entry)
    requires Loaded(w, entries) && ValidObjsize(w.capacity, e.k, e.v)
    requires forall j :: 0 <= j < |entries| ==> entries[j].k != e.k
    ensures Loaded(Admit(w, e.k, e.v, e.valid, e.beacon), entries + [e])
  {
    LoadOneFresh(w, entries, e);
    LoadOneItems(w.cache, entries, e);
    AdmitInv(w, e.k, e.v, e.valid, e.beacon);
    Lru.AdmitWf(w.cache, e.k, e.v);
  }

  lemma {:induction false} LoadIntoEmpty(capacity: nat, entries: seq<Entry>)
    requires Loadable(entries, capacity)
    ensures Loaded(Load(Init(capacity), entries), entries) && Load(Init(capacity), entries).capacity == capacity
  {
    if entries == [] {
      assert Lru.Keys(Lru.EMPTY) == {};
    } else {
      var n := |entries| - 1;
      LoadIntoEmpty(capacity, entries[..n]);
      LoadOne(Load(Init(capacity), entries[..n]), entries[..n], entries[n]);
      assert entries[..n] + [entries[n]] == entries;
    }
  }

  // ---- Two wrappers no caller can tell apart --------------------------------------------------------

  /** Same keys and values in the same LRU order, same flags for cached keys, same beacons; times may differ. */
  ghost predicate Same(a: State, b: State) {
    && a.capacity == b.capacity
    && SameItems(a.cache.items, b.cache.items)
    && SameFlags(a.cache.items, a, b)
    && a.beacon == b.beacon
  }

  ghost predicate SameItems(s: seq<Lru.Item>, t: seq<Lru.Item>) {
    && |s| == |t|
    && forall i :: 0 <= i < |s| ==> s[i].key == t[i].key && s[i].value == t[i].value
  }

  ghost predicate SameFlags(s: seq<Lru.Item>, a: State, b: State) {
    forall i :: 0 <= i < |s| ==> IsValid(a, s[i].key) == IsValid(b, s[i].key)
  }

  lemma SameLookup(a: State, b: State, k: Key)
    requires Inv(a) && Inv(b) && Same(a, b)
    ensures Lru.Has(a.cache, k) <==> Lru.Has(b.cache, k)
    ensures Lru.Has(a.cache, k) ==>
              Lru.Index(a.cache.items, k) == Lru.Index(b.cache.items, k)
              && Lru.Stored(a.cache, k) == Lru.Stored(b.cache, k)
  {
    if Lru.Has(a.cache, k) {
      var i := Lru.Index(a.cache.items, k);
      assert b.cache.items[i].key == k;
      Lru.StoredAt(b.cache, i);
    }
    if Lru.Has(b.cache, k) {
      assert a.cache.items[Lru.Index(b.cache.items, k)].key == k;
    }
  }

  lemma SameTouch(a: State, b: State, k: Key, v: Value)
    requires Inv(a) && Inv(b) && Same(a, b) && Lru.Has(a.cache, k)
    ensures SameItems(Lru.Touch(a.cache, k, v).items, Lru.Touch(b.cache, k, v).items)
    ensures SameFlags(Lru.Touch(a.cache, k, v).items, a, b)
  {
    SameLookup(a, b, k);
    var p := Lru.Index(a.cache.items, k);
    var s, t := Lru.Touch(a.cache, k, v).items, Lru.Touch(b.cache, k, v).items;
    forall i | 0 < i < |s|
      ensures s[i].key == t[i].key && s[i].value == t[i].value && IsValid(a, s[i].key) == IsValid(b, s[i].key)
    {
      var j := if i - 1 < p then i - 1 else i;
      assert s[i] == a.cache.items[j] && t[i] == b.cache.items[j];
    }
    assert IsValid(a, a.cache.items[p].key) == IsValid(b, a.cache.items[p].key);
  }

  lemma SameUpdate(a: State, b: State, k: Key, v: Value)
    requires Inv(a) && Inv(b) && Same(a, b)
    ensures Same(Update(a, k, v), Update(b, k, v))
  {
    SameLookup(a, b, k);
    if Lru.Has(a.cache, k) && ValidObjsize(a.capacity, k, v) {
      SameTouch(a, b, k, v);
    }
  }

  lemma SameGet(a: State, b: State, k: Key)
    requires Inv(a) && Inv(b) && Same(a, b)
    ensures Same(Get(a, k), Get(b, k)) && Visible(a, k) == Visible(b, k)
  {
    SameLookup(a, b, k);
    if Lru.Has(a.cache, k) {
      SameTouch(a, b, k, Lru.Stored(a.cache, k));
      assert IsValid(a, a.cache.items[Lru.Index(a.cache.items, k)].key) == IsValid(b, k);
    }
  }

  lemma SameAdmitItems(c: Lru.Cache, d: Lru.Cache, k: Key, v: Value)
    requires SameItems(c.items, d.items) && (Lru.Has(c, k) <==> Lru.Has(d, k))
    ensures SameItems(Lru.Admit(c, k, v).items, Lru.Admit(d, k, v).items)
  {
  }

  lemma SameAdmitFlags(a: State, b: State, k: Key, v: Value, isValid: bool, beacon: Option<Edge>)
    requires SameFlags(a.cache.items, a, b)
    ensures SameFlags(Lru.Admit(a.cache, k, v).items, Admit(a, k, v, isValid, beacon), Admit(b, k, v, isValid, beacon))
  {
    var s := Lru.Admit(a.cache, k, v).items;
    forall i | 0 <= i < |s| && s[i].key != k
      ensures IsValid(a, s[i].key) == IsValid(b, s[i].key)
    {
      if !Lru.Has(a.cache, k) {
        assert s[i] == a.cache.items[i - 1];
      }
    }
  }

  lemma SameAdmit(a: State, b: State, k: Key, v: Value, isValid: bool, beacon: Option<Edge>)
    requires Inv(a) && Inv(b) && Same(a, b)
    ensures Same(Admit(a, k, v, isValid, beacon), Admit(b, k, v, isValid, beacon))
  {
    SameLookup(a, b, k);
    SameAdmitItems(a.cache, b.cache, k, v);
    SameAdmitFlags(a, b, k, v, isValid, beacon);
  }

  lemma SameEvict(a: State, b: State)
    requires Inv(a) && Inv(b) && Same(a, b)
    ensures Evict(a).Some? <==> Evict(b).Some?
    ensures Evict(a).Some? ==> Same(Evict(a).value, Evict(b).value) && Lru.Tail(a.cache) == Lru.Tail(b.cache)
  {
    EvictInv(a);
    EvictInv(b);
    if a.cache.items != [] {
      Lru.EvictTail(a.cache);
      Lru.EvictTail(b.cache);
    }
  }

  lemma {:induction false} SameBytes(s: seq<Lru.Item>, t: seq<Lru.Item>)
    requires SameItems(s, t)
    ensures Lru.Bytes(s) == Lru.Bytes(t)
  {
    if s != [] {
      SameBytes(s[1..], t[1..]);
    }
  }

  /** The same flags, those of uncached keys included, stay the same. */
  lemma SameValid(a: State, b: State, op: Op)
    requires Inv(a) && Inv(b) && Same(a, b) && a.valid == b.valid
    ensures Step(a, op).0.valid == Step(b, op).0.valid
  {
    match op
    case OpUpdate(k, v) => SameLookup(a, b, k);
    case OpGetrsp(k, v) => SameLookup(a, b, k);
    case OpEvict => SameEvict(a, b);
    case _ =>
  }

  lemma SameReads(a: State, b: State, op: Op)
    requires Inv(a) && Inv(b) && Same(a, b) && (op.OpSize? ==> a.valid == b.valid)
    requires op.OpGet? || op.OpInvalidate? || op.OpClearBeacons? || op.OpSize?
    ensures Step(a, op).1 == Step(b, op).1 && Same(Step(a, op).0, Step(b, op).0)
  {
    match op
    case OpGet(k) => SameGet(a, b, k);
    case OpSize => SameBytes(a.cache.items, b.cache.items);
    case _ =>
  }

  lemma SameWrites(a: State, b: State, op: Op)
    requires Inv(a) && Inv(b) && Same(a, b) && (op.OpUpdate? || op.OpGetrsp?)
    ensures Step(a, op).1 == Step(b, op).1 && Same(Step(a, op).0, Step(b, op).0)
  {
    SameLookup(a, b, op.k);
    SameGet(a, b, op.k);
    SameUpdate(a, b, op.k, op.v);
  }

  lemma SameStep(a: State, b: State, op: Op)
    requires Inv(a) && Inv(b) && Same(a, b) && Legal(a.capacity, op) && (op.OpSize? ==> a.valid == b.valid)
    ensures Step(a, op).1 == Step(b, op).1
    ensures Same(Step(a, op).0, Step(b, op).0)
  {
    if op.OpUpdate? || op.OpGetrsp? {
      SameWrites(a, b, op);
    } else if op.OpAdmit? {
      SameAdmit(a, b, op.k, op.v, op.isValid, op.beacon);
    } else if op.OpEvict? {
      SameEvict(a, b);
    } else {
      SameReads(a, b, op);
    }
  }

  predicate AsksSize(ops: seq<Op>) {
    exists i :: 0 <= i < |ops| && ops[i].OpSize?
  }

  lemma {:induction false} SameRun(a: State, b: State, ops: seq<Op>)
    requires Inv(a) && Inv(b) && Same(a, b) && (AsksSize(ops) ==> a.valid == b.valid)
    requires forall i :: 0 <= i < |ops| ==> Legal(a.capacity, ops[i])
    ensures Run(a, ops).1 == Run(b, ops).1
    ensures var (a', b') := (Run(a, ops).0, Run(b, ops).0);
            && Inv(a') && Inv(b') && Same(a', b') && a'.capacity == a.capacity
            && (a.valid == b.valid ==> a'.valid == b'.valid)
  {
    if ops != [] {
      var n := |ops| - 1;
      assert forall i :: 0 <= i < n ==> ops[..n][i] == ops[i];
      SameRun(a, b, ops[..n]);
      var (a', b') := (Run(a, ops[..n]).0, Run(b, ops[..n]).0);
      SameStep(a', b', ops[n]);
      StepInv(a', ops[n]);
      StepInv(b', ops[n]);
      if a.valid == b.valid {
        SameValid(a', b', ops[n]);
      }
    }
  }

  // ---- The round trip -------------------------------------------------------------------------------

  lemma LoadedSame(w: State, w': State, w2: State, entries: seq<Entry>)
    requires Inv(w') && w'.valid == w.valid && w'.beacon == w.beacon
    requires w2.capacity == w'.capacity && Loaded(w2, entries)
    requires FrontIs(w'.cache.items, entries) && |entries| == |w'.cache.items|
    requires forall j :: 0 <= j < |entries| ==> Lru.Has(w.cache, entries[j].k) && entries[j] == EntryOf(w, entries[j].k)
    ensures Same(w', w2)
  {
    forall i | 0 <= i < |entries|
      ensures var k := w'.cache.items[i].key;
              && IsValid(w', k) == IsValid(w2, k)
              && (k in w'.beacon <==> k in w2.beacon)
              && (k in w'.beacon ==> w'.beacon[k] == w2.beacon[k])
    {
      var e := entries[|entries| - 1 - i];
      assert e == EntryOf(w, e.k);
    }
    LoadedBeacons(w', w2);
  }

  lemma LoadedBeacons(a: State, b: State)
    requires Inv(a) && Inv(b) && SameItems(a.cache.items, b.cache.items)
    requires forall i :: 0 <= i < |a.cache.items| ==>
               var k := a.cache.items[i].key;
               && (k in a.beacon <==> k in b.beacon)
               && (k in a.beacon ==> a.beacon[k] == b.beacon[k])
    ensures a.beacon == b.beacon
  {
    forall k
      ensures k in a.beacon ==> k in b.beacon && a.beacon[k] == b.beacon[k]
      ensures k in b.beacon ==> k in a.beacon
    {
      Lru.HasIsKey(a.cache, k);
      Lru.HasIsKey(b.cache, k);
    }
  }

  lemma DumpLoadable(w: State, order: seq<Key>)
    requires Inv(w) && NoDup(order) && Lru.Keys(w.cache) <= Elems(order)
    ensures Loadable(Dump(w, order).1, w.capacity)
  {
    DumpContents(w, order);
    DumpFront(w, order);
    var (w', entries) := Dump(w, order);
    forall i, j | 0 <= i < j < |entries|
      ensures entries[i].k != entries[j].k
    {
      FrontAt(w'.cache.items, entries, i);
      FrontAt(w'.cache.items, entries, j);
    }
    forall i | 0 <= i < |entries|
      ensures ValidObjsize(w.capacity, entries[i].k, entries[i].v)
    {
      FrontAt(w'.cache.items, entries, i);
    }
  }

  /**
   Round trip: dump in any iteration order of the validity map, load into an empty wrapper of equal capacity. The
   loaded wrapper holds the same keys, values, flags and beacons as before the dump, in the LRU order the dump
   left behind.
   */
  lemma RoundTrip(w: State, order: seq<Key>)
    requires Inv(w) && NoDup(order) && Elems(order) == w.valid.Keys
    ensures var (w', entries) := Dump(w, order);
            var w2 := Load(Init(w.capacity), entries);
            && Inv(w') && Inv(w2) && Same(w', w2)
            && w2.beacon == w.beacon
            && w2.valid.Keys == Lru.Keys(w2.cache) == Lru.Keys(w.cache)
            && forall k :: Lru.Has(w.cache, k) ==> Lru.Has(w2.cache, k) && EntryOf(w2, k) == EntryOf(w, k)
  {
    DumpContents(w, order);
    DumpFront(w, order);
    DumpWhole(w, order);
    DumpLoadable(w, order);
    var (w', entries) := Dump(w, order);
    LoadIntoEmpty(w.capacity, entries);
    var w2 := Load(Init(w.capacity), entries);
    LoadedSame(w, w', w2, entries);
    SameContents(w, w', w2);
  }

  lemma SameContents(w: State, w': State, w2: State)
    requires Inv(w') && Inv(w2) && Same(w', w2)
    requires forall x :: Lru.Has(w'.cache, x) <==> Lru.Has(w.cache, x)
    requires forall x :: Lru.Has(w.cache, x) ==> EntryOf(w', x) == EntryOf(w, x)
    ensures Lru.Keys(w2.cache) == Lru.Keys(w.cache)
    ensures forall k :: Lru.Has(w.cache, k) ==> Lru.Has(w2.cache, k) && EntryOf(w2, k) == EntryOf(w, k)
  {
    forall k
      ensures Lru.Has(w2.cache, k) <==> Lru.Has(w.cache, k)
      ensures Lru.Has(w.cache, k) ==> EntryOf(w2, k) == EntryOf(w, k)
    {
      SameLookup(w', w2, k);
      if Lru.Has(w.cache, k) {
        assert IsValid(w', w'.cache.items[Lru.Index(w'.cache.items, k)].key) == IsValid(w2, k);
      }
    }
    Lru.HasIsKeyAll(w2.cache);
    Lru.HasIsKeyAll(w.cache);
  }

  // ---- What a caller can still tell -----------------------------------------------------------------

  /** Dumped and loaded. */
  ghost function Copies(w: State, order: seq<Key>): (State, State) {
    (Dump(w, order).0, Load(Init(w.capacity), Dump(w, order).1))
  }

  /** The flags of uncached keys are lost, and with them their bytes: sizes agree exactly when there are none. */
  lemma SizeIff(w: State, order: seq<Key>)
    requires Inv(w) && NoDup(order) && Elems(order) == w.valid.Keys
    ensures var (w', w2) := Copies(w, order);
            && (SizeForCapacity(w') == SizeForCapacity(w2) <==> w.valid.Keys == Lru.Keys(w.cache))
            && (w.valid.Keys == Lru.Keys(w.cache) ==> w'.valid == w2.valid)
  {
    RoundTrip(w, order);
    DumpContents(w, order);
    var (w', w2) := Copies(w, order);
    SameBytes(w'.cache.items, w2.cache.items);
    assert |w.valid| == |w.valid.Keys| && |w2.valid| == |w2.valid.Keys|;
    SubsetCard(w2.valid.Keys, w.valid.Keys);
    if w.valid.Keys == Lru.Keys(w.cache) {
      LoadedValid(w, w', w2);
    }
  }

  lemma SubsetCard(a: set<Key>, b: set<Key>)
    requires a <= b
    ensures |a| == |b| <==> a == b
  {
    assert b == a + (b - a);
    assert |b| == |a| + |b - a|;
  }

  lemma LoadedValid(w: State, w': State, w2: State)
    requires Inv(w') && w'.valid == w.valid && w.valid.Keys == w2.valid.Keys == Lru.Keys(w.cache)
    requires forall k :: Lru.Has(w.cache, k) ==> Lru.Has(w2.cache, k) && EntryOf(w2, k) == EntryOf(w, k)
    ensures w'.valid == w2.valid
  {
    forall k | k in w.valid
      ensures w.valid[k] == w2.valid[k]
    {
      Lru.HasIsKey(w.cache, k);
      assert EntryOf(w2, k) == EntryOf(w, k);
    }
  }

  /**
   After a dump and a load every get, update, admission and eviction gives the same answer, so in particular both
   wrappers evict the same victims in the same order; and if there were no flags of uncached keys, sizes agree as well.
   */
  lemma LoadedSameAnswers(w: State, order: seq<Key>, ops: seq<Op>)
    requires Inv(w) && NoDup(order) && Elems(order) == w.valid.Keys
    requires AsksSize(ops) ==> w.valid.Keys == Lru.Keys(w.cache)
    requires forall i :: 0 <= i < |ops| ==> Legal(w.capacity, ops[i])
    ensures var (w', w2) := Copies(w, order); Run(w', ops).1 == Run(w2, ops).1
  {
    RoundTrip(w, order);
    DumpContents(w, order);
    SizeIff(w, order);
    var (w', w2) := Copies(w, order);
    SameRun(w', w2, ops);
  }

  /** The two are alike for every sequence of operations exactly when no uncached key has a flag. */
  lemma IndistinguishableIff(w: State, order: seq<Key>)
    requires Inv(w) && NoDup(order) && Elems(order) == w.valid.Keys
    ensures var (w', w2) := Copies(w, order);
            (forall ops: seq<Op> :: (forall i :: 0 <= i < |ops| ==> Legal(w.capacity, ops[i])) ==>
               Run(w', ops).1 == Run(w2, ops).1)
            <==> w.valid.Keys == Lru.Keys(w.cache)
  {
    var (w', w2) := Copies(w, order);
    if w.valid.Keys == Lru.Keys(w.cache) {
      forall ops: seq<Op> | forall i :: 0 <= i < |ops| ==> Legal(w.capacity, ops[i])
        ensures Run(w', ops).1 == Run(w2, ops).1
      {
        LoadedSameAnswers(w, order, ops);
      }
    } else {
      SizeIff(w, order);
      AskOnce(w');
      AskOnce(w2);
      var ask := [OpSize];
      assert forall i :: 0 <= i < |ask| ==> Legal(w.capacity, ask[i]);
      assert Run(w', ask).1[0] != Run(w2, ask).1[0];
    }
  }

  lemma AskOnce(w: State)
    ensures Run(w, [OpSize]).1 == [Sized(SizeForCapacity(w))]
  {
    assert [OpSize][..0] == [];
  }

  /** A wrapper that was only told to invalidate one key counts its flag; after dump and load it does not. */
  lemma FlagForgotten(capacity: nat, k: Key)
    ensures var w := Invalidate(Init(capacity), k);
            var (w', w2) := Copies(w, [k]);
            Inv(w) && SizeForCapacity(w') == FLAG_BYTES && SizeForCapacity(w2) == 0
  {
    var w := Invalidate(Init(capacity), k);
    assert Lru.Keys(Lru.EMPTY) == {};
    assert !Lru.Has(w.cache, k);
    assert [k][..0] == [];
    var (w', w2) := Copies(w, [k]);
    assert Dump(w, [k][..0]) == (w, []);
    assert Dump(w, [k]) == (Get(w, k), []);
    assert w'.valid == map[k := false] && w'.cache.items == [];
    assert w2 == Init(capacity);
  }

  // ---- Victim times ---------------------------------------------------------------------------------

  /** What the dump has visited carries a stamp from the dump. */
  lemma {:induction false} DumpStamps(w: State, order: seq<Key>)
    requires Inv(w) && NoDup(order)
    ensures var (w', entries) := Dump(w, order);
            && w'.cache.clock >= w.cache.clock && |entries| <= |w'.cache.items|
            && forall i :: 0 <= i < |entries| ==> w'.cache.items[i].vtime >= w.cache.clock
  {
    if order != [] {
      var n := |order| - 1;
      var shorter := order[..n];
      DumpStamps(w, shorter);
      DumpContents(w, shorter);
      DumpFront(w, shorter);
      var (w', entries) := Dump(w, shorter);
      if Lru.Has(w'.cache, order[n]) {
        TouchStamps(w'.cache, order[n], entries, w.cache.clock);
      }
    }
  }

  lemma TouchStamps(c: Lru.Cache, k: Key, entries: seq<Entry>, t: nat)
    requires Lru.Wf(c) && Lru.Has(c, k) && FrontIs(c.items, entries) && c.clock >= t
    requires forall j :: 0 <= j < |entries| ==> entries[j].k != k
    requires forall i :: 0 <= i < |entries| ==> c.items[i].vtime >= t
    ensures var c' := Lru.Get(c, k);
            |entries| < |c'.items| && forall i :: 0 <= i <= |entries| ==> c'.items[i].vtime >= t
  {
    var p := Lru.Index(c.items, k);
    var m := |entries|;
    assert p >= m;
    var c' := Lru.Get(c, k);
    assert forall i :: 0 < i <= m ==> c'.items[i] == c.items[i - 1];
  }

  lemma {:induction false} LoadStamps(capacity: nat, entries: seq<Entry>)
    requires Loadable(entries, capacity)
    ensures Lru.VictimVtime(Load(Init(capacity), entries).cache) == 0
    ensures entries == [] ==> Load(Init(capacity), entries).cache == Lru.EMPTY
  {
    if entries != [] {
      var n := |entries| - 1;
      LoadStamps(capacity, entries[..n]);
      LoadIntoEmpty(capacity, entries[..n]);
      LoadOneFresh(Load(Init(capacity), entries[..n]), entries[..n], entries[n]);
    }
  }

  /** Loading starts the clock anew, so the victim time survives exactly when nothing is cached. */
  lemma VictimTimeIff(w: State, order: seq<Key>)
    requires Inv(w) && NoDup(order) && Elems(order) == w.valid.Keys
    ensures var (w', w2) := Copies(w, order);
            Lru.VictimVtime(w'.cache) == Lru.VictimVtime(w2.cache) <==> w.cache.items == []
  {
    DumpContents(w, order);
    DumpWhole(w, order);
    DumpStamps(w, order);
    DumpLoadable(w, order);
    var (w', entries) := Dump(w, order);
    LoadStamps(w.capacity, entries);
    if w.cache.items != [] {
      assert Lru.Has(w.cache, w.cache.items[0].key);
    }
  }
}
