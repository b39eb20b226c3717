/**
 The specification of a cache wrapper over the BestGuess local cache: the local cache, a validity flag per key
 and the beacon edge of each admitted key. Operations are atomic; a history is a sequence of them.
 */
module Wrapper {
  import opened Types
  import Lru

  datatype State = State(cache: Lru.Cache, valid: map<Key, bool>, beacon: map<Key, Edge>, capacity: nat)

  function Init(capacity: nat): State {
    State(Lru.EMPTY, map[], map[], capacity)
  }

  predicate SizesValid(s: seq<Lru.Item>, capacity: nat) {
    forall i :: 0 <= i < |s| ==> ValidObjsize(capacity, s[i].key, s[i].value)
  }

  /** Every cached key has a validity flag, and only cached keys have a beacon edge. */
  ghost predicate Inv(w: State) {
    && Lru.Wf(w.cache)
    && Lru.Keys(w.cache) <= w.valid.Keys
    && w.beacon.Keys <= Lru.Keys(w.cache)
    && SizesValid(w.cache.items, w.capacity)
  }

  predicate IsValid(w: State, k: Key) {
    k in w.valid && w.valid[k]
  }

  /** What a get returns for a key, if it is a hit. */
  ghost function Visible(w: State, k: Key): Option<Value> {
    if Lru.Has(w.cache, k) && IsValid(w, k) then Some(Lru.Stored(w.cache, k)) else None
  }

  // ---- Operations -----------------------------------------------------------------------------------

  ghost function Get(w: State, k: Key): State {
    w.(cache := Lru.Get(w.cache, k))
  }

  /** A cached key becomes valid exactly when the new value has a valid object size. */
  ghost function Update(w: State, k: Key, v: Value): State {
    var w' := w.(cache := Lru.Update(w.cache, w.capacity, k, v));
    if Lru.Has(w.cache, k) then w'.(valid := w.valid[k := ValidObjsize(w.capacity, k, v)]) else w'
  }

  ghost predicate CachedAndInvalid(w: State, k: Key) {
    Lru.Has(w.cache, k) && !IsValid(w, k)
  }

  /** The value of a get response reaches the cache only where the key is cached and invalid. */
  ghost function UpdateIfInvalid(w: State, k: Key, v: Value): State {
    if Lru.Has(w.cache, k) && IsValid(w, k) then w else Update(w, k, v)
  }

  function Invalidate(w: State, k: Key): State {
    w.(valid := w.valid[k := false])
  }

  /** Admission writes the flag even for a key that was cached already and kept its old value. */
  function Admit(w: State, k: Key, v: Value, isValid: bool, beacon: Option<Edge>): State {
    w.(cache := Lru.Admit(w.cache, k, v),
       valid := w.valid[k := isValid],
       beacon := if beacon.Some? && k !in w.beacon then w.beacon[k := beacon.value] else w.beacon)
  }

  /** Eviction of the LRU tail; the process exits when there is no victim or the victim has no flag. */
  ghost function Evict(w: State): Option<State> {
    if w.cache.items == [] then None
    else
      var k := Lru.Tail(w.cache);
      if k !in w.valid then None
      else Some(State(Lru.Evict(w.cache, k), w.valid - {k}, w.beacon - {k}, w.capacity))
  }

  const FLAG_BYTES := 1

  /** Bytes charged for capacity: the local cache and one flag per entry of the validity map. */
  function SizeForCapacity(w: State): nat {
    Lru.Bytes(w.cache.items) + FLAG_BYTES * |w.valid|
  }

  // ---- Histories ------------------------------------------------------------------------------------

  datatype Op =
    | OpGet(k: Key)
    | OpUpdate(k: Key, v: Value)
    | OpGetrsp(k: Key, v: Value)
    | OpInvalidate(k: Key)
    | OpAdmit(k: Key, v: Value, isValid: bool, beacon: Option<Edge>)
    | OpEvict
    | OpClearBeacons
    | OpSize

  /** What a caller observes of one operation. */
  datatype Event =
    | Got(k: Key, hit: Option<Value>)
    | Updated(k: Key, v: Value, cached: bool)
    | Refreshed(k: Key, v: Value, wasInvalid: bool)
    | Invalidated(k: Key)
    | Admitted(k: Key, v: Value, isValid: bool)
    | Evicted(k: Key)
    | Exited
    | Cleared
    | Sized(bytes: nat)

  ghost function Step(w: State, op: Op): (State, Event) {
    match op
    case OpGet(k) => (Get(w, k), Got(k, Visible(w, k)))
    case OpUpdate(k, v) => (Update(w, k, v), Updated(k, v, Lru.Has(w.cache, k)))
    case OpGetrsp(k, v) => (UpdateIfInvalid(w, k, v), Refreshed(k, v, CachedAndInvalid(w, k)))
    case OpInvalidate(k) => (Invalidate(w, k), Invalidated(k))
    case OpAdmit(k, v, isValid, beacon) => (Admit(w, k, v, isValid, beacon), Admitted(k, v, isValid))
    case OpEvict => if Evict(w).Some? then (Evict(w).value, Evicted(Lru.Tail(w.cache))) else (w, Exited)
    case OpClearBeacons => (w.(beacon := map[]), Cleared)
    case OpSize => (w, Sized(SizeForCapacity(w)))
  }

  /** Admission is only called for valid object sizes: the local cache asserts it. */
  predicate Legal(capacity: nat, op: Op) {
    op.OpAdmit? ==> ValidObjsize(capacity, op.k, op.v)
  }

  ghost function Run(w: State, ops: seq<Op>): (r: (State, seq<Event>))
    ensures |r.1| == |ops|
  {
    if ops == [] then (w, [])
    else
      var (w', events) := Run(w, ops[..|ops| - 1]);
      var (w'', event) := Step(w', ops[|ops| - 1]);
      (w'', events + [event])
  }

  // ---- The representation invariant holds in every history ------------------------------------------

  lemma TouchSizes(c: Lru.Cache, capacity: nat, k: Key, v: Value)
    requires SizesValid(c.items, capacity) && ValidObjsize(capacity, k, v)
    ensures SizesValid(Lru.Touch(c, k, v).items, capacity)
  {
  }

  lemma UpdateInv(w: State, k: Key, v: Value)
    requires Inv(w)
    ensures Inv(Update(w, k, v))
    ensures Lru.Keys(Update(w, k, v).cache) == Lru.Keys(w.cache)
  {
    if Lru.Has(w.cache, k) {
      Lru.HasIsKey(w.cache, k);
      if ValidObjsize(w.capacity, k, v) {
        Lru.TouchWf(w.cache, k, v);
        TouchSizes(w.cache, w.capacity, k, v);
      }
    }
  }

  lemma GetInv(w: State, k: Key)
    requires Inv(w)
    ensures Inv(Get(w, k))
    ensures Lru.Keys(Get(w, k).cache) == Lru.Keys(w.cache)
  {
    if Lru.Has(w.cache, k) {
      Lru.HasIsKey(w.cache, k);
      Lru.TouchWf(w.cache, k, Lru.Stored(w.cache, k));
      TouchSizes(w.cache, w.capacity, k, Lru.Stored(w.cache, k));
    }
  }

  lemma AdmitInv(w: State, k: Key, v: Value, isValid: bool, beacon: Option<Edge>)
    requires Inv(w) && ValidObjsize(w.capacity, k, v)
    ensures Inv(Admit(w, k, v, isValid, beacon))
  {
    Lru.AdmitWf(w.cache, k, v);
  }

  /** The victim of an eviction always has a flag, so the process exits only on an empty cache. */
  lemma EvictInv(w: State)
    requires Inv(w)
    ensures Evict(w).None? <==> w.cache.items == []
    ensures Evict(w).Some? ==> Inv(Evict(w).value)
  {
    if w.cache.items != [] {
      var k := Lru.Tail(w.cache);
      assert Lru.Has(w.cache, k) by {
        assert w.cache.items[|w.cache.items| - 1].key == k;
      }
      Lru.HasIsKey(w.cache, k);
      Lru.EvictWf(w.cache, k);
      Lru.EvictTail(w.cache);
    }
  }

  lemma StepInv(w: State, op: Op)
    requires Inv(w) && Legal(w.capacity, op)
    ensures Inv(Step(w, op).0) && Step(w, op).0.capacity == w.capacity
    ensures Step(w, op).1.Exited? ==> op.OpEvict? && w.cache.items == []
  {
    match op
    case OpGet(k) => GetInv(w, k);
    case OpUpdate(k, v) => UpdateInv(w, k, v);
    case OpGetrsp(k, v) => UpdateInv(w, k, v);
    case OpInvalidate(k) =>
    case OpAdmit(k, v, isValid, beacon) => AdmitInv(w, k, v, isValid, beacon);
    case OpEvict => EvictInv(w);
    case OpClearBeacons =>
    case OpSize =>
  }

  /** In every history every cached key has a flag and only cached keys have a beacon. */
  lemma {:induction false} HistoryInv(capacity: nat, ops: seq<Op>)
    requires forall i :: 0 <= i < |ops| ==> Legal(capacity, ops[i])
    ensures var w := Run(Init(capacity), ops).0; Inv(w) && w.capacity == capacity
  {
    if ops != [] {
      var n := |ops| - 1;
      assert forall i :: 0 <= i < n ==> ops[..n][i] == ops[i];
      HistoryInv(capacity, ops[..n]);
      StepInv(Run(Init(capacity), ops[..n]).0, ops[n]);
    }
  }

  // ---- No stale value is ever returned --------------------------------------------------------------

  /** How one observed event changes what is known about a key. */
  function Effect(event: Event, capacity: nat, k: Key, before: Option<Value>): Option<Value> {
    match event
    case Updated(k', v, cached) =>
      if k' == k && cached then (if ValidObjsize(capacity, k, v) then Some(v) else None) else before
    case Refreshed(k', v, wasInvalid) =>
      if k' == k && wasInvalid then (if ValidObjsize(capacity, k, v) then Some(v) else None) else before
    case Invalidated(k') => if k' == k then None else before
    case Admitted(k', v, isValid) => if k' == k then (if isValid then Some(v) else None) else before
    case Evicted(k') => if k' == k then None else before
    case _ => before
  }

  /**
   The value of the last effective admission or update of a key, none when an invalidation, an eviction or a
   failed update came later. It reads the observed events only, never the cache.
   */
  function LastWrite(events: seq<Event>, capacity: nat, k: Key): Option<Value> {
    if events == [] then None
    else Effect(events[|events| - 1], capacity, k, LastWrite(events[..|events| - 1], capacity, k))
  }

  /** Admissions target uncached keys only. */
  ghost predicate AdmitsFresh(w: State, ops: seq<Op>) {
    forall i :: 0 <= i < |ops| && ops[i].OpAdmit? ==> !Lru.Has(Run(w, ops[..i]).0.cache, ops[i].k)
  }

  lemma TouchVisible(w: State, k: Key, v: Value, k': Key)
    requires Inv(w) && Lru.Has(w.cache, k)
    ensures var c := Lru.Touch(w.cache, k, v);
            && (Lru.Has(c, k') <==> Lru.Has(w.cache, k'))
            && (Lru.Has(c, k') ==> Lru.Stored(c, k') == if k' == k then v else Lru.Stored(w.cache, k'))
  {
    if k' == k {
      Lru.TouchWf(w.cache, k, v);
    } else {
      Lru.TouchOthers(w.cache, k, v, k');
    }
  }

  lemma UpdateVisible(w: State, k: Key, v: Value, k': Key)
    requires Inv(w)
    ensures Visible(Update(w, k, v), k') ==
            Effect(Updated(k, v, Lru.Has(w.cache, k)), w.capacity, k', Visible(w, k'))
  {
    if Lru.Has(w.cache, k) && ValidObjsize(w.capacity, k, v) {
      TouchVisible(w, k, v, k');
    }
  }

  lemma EvictVisible(w: State, k': Key)
    requires Inv(w) && Evict(w).Some?
    ensures Visible(Evict(w).value, k') == if k' == Lru.Tail(w.cache) then None else Visible(w, k')
  {
    if k' != Lru.Tail(w.cache) {
      Lru.WithoutOthers(w.cache, Lru.Tail(w.cache), k');
    }
  }

  lemma AdmitVisible(w: State, k: Key, v: Value, isValid: bool, beacon: Option<Edge>, k': Key)
    requires Inv(w) && !Lru.Has(w.cache, k)
    ensures Visible(Admit(w, k, v, isValid, beacon), k') ==
            Effect(Admitted(k, v, isValid), w.capacity, k', Visible(w, k'))
  {
    Lru.PushWf(w.cache, k, v);
    var c := Lru.Admit(w.cache, k, v);
    Lru.HasIsKey(c, k');
    Lru.HasIsKey(w.cache, k');
  }

  lemma GetVisible(w: State, k: Key, k': Key)
    requires Inv(w)
    ensures Visible(Get(w, k), k') == Visible(w, k')
  {
    if Lru.Has(w.cache, k) {
      TouchVisible(w, k, Lru.Stored(w.cache, k), k');
    }
  }

  lemma GetrspVisible(w: State, k: Key, v: Value, k': Key)
    requires Inv(w)
    ensures Visible(UpdateIfInvalid(w, k, v), k') ==
            Effect(Refreshed(k, v, CachedAndInvalid(w, k)), w.capacity, k', Visible(w, k'))
  {
    UpdateVisible(w, k, v, k');
  }

  lemma EvictStepVisible(w: State, k': Key)
    requires Inv(w)
    ensures Visible(Step(w, OpEvict).0, k') == Effect(Step(w, OpEvict).1, w.capacity, k', Visible(w, k'))
  {
    if Evict(w).Some? {
      EvictVisible(w, k');
    }
  }

  lemma StepVisible(w: State, op: Op, k': Key)
    requires Inv(w) && Legal(w.capacity, op)
    requires op.OpAdmit? ==> !Lru.Has(w.cache, op.k)
    ensures Visible(Step(w, op).0, k') == Effect(Step(w, op).1, w.capacity, k', Visible(w, k'))
  {
    if op.OpGet? {
      GetVisible(w, op.k, k');
    } else if op.OpUpdate? {
      UpdateVisible(w, op.k, op.v, k');
    } else if op.OpGetrsp? {
      GetrspVisible(w, op.k, op.v, k');
    } else if op.OpAdmit? {
      AdmitVisible(w, op.k, op.v, op.isValid, op.beacon, k');
    } else if op.OpEvict? {
      EvictStepVisible(w, k');
    }
  }

  lemma {:induction false} HistoryVisible(capacity: nat, ops: seq<Op>, k: Key)
    requires forall i :: 0 <= i < |ops| ==> Legal(capacity, ops[i])
    requires AdmitsFresh(Init(capacity), ops)
    ensures var (w, events) := Run(Init(capacity), ops); Visible(w, k) == LastWrite(events, capacity, k)
  {
    if ops != [] {
      var n := |ops| - 1;
      var shorter := ops[..n];
      assert forall i :: 0 <= i <= n ==> shorter[..i] == ops[..i];
      HistoryVisible(capacity, shorter, k);
      HistoryInv(capacity, shorter);
      assert ops[..n] == shorter;
      StepVisible(Run(Init(capacity), shorter).0, ops[n], k);
      var events := Run(Init(capacity), ops).1;
      assert events[..n] == Run(Init(capacity), shorter).1;
    }
  }

  lemma {:induction false} EventsPrefix(w: State, ops: seq<Op>, i: nat)
    requires i <= |ops|
    ensures Run(w, ops).1[..i] == Run(w, ops[..i]).1
  {
    if i < |ops| {
      var n := |ops| - 1;
      EventsPrefix(w, ops[..n], i);
      assert ops[..n][..i] == ops[..i];
      assert Run(w, ops).1[..i] == Run(w, ops[..n]).1[..i];
    } else {
      assert ops[..i] == ops;
    }
  }

  /** Every event of a history is that of its operation in the state before it. */
  lemma EventAt(w: State, ops: seq<Op>, i: nat)
    requires i < |ops|
    ensures Run(w, ops).1[i] == Step(Run(w, ops[..i]).0, ops[i]).1
  {
    EventsPrefix(w, ops, i + 1);
    assert ops[..i + 1][..i] == ops[..i];
    assert Run(w, ops).1[i] == Run(w, ops).1[..i + 1][i];
  }

  lemma StepExits(w: State, op: Op)
    requires Inv(w)
    ensures Step(w, op).1.Exited? <==> op.OpEvict? && w.cache.items == []
  {
    EvictInv(w);
  }

  /** So the fatal victim-not-found exits are never taken: an eviction exits only on an empty cache. */
  lemma NoFatalExit(capacity: nat, ops: seq<Op>, i: nat)
    requires forall j :: 0 <= j < |ops| ==> Legal(capacity, ops[j])
    requires i < |ops|
    ensures Run(Init(capacity), ops).1[i].Exited? <==>
            ops[i].OpEvict? && Run(Init(capacity), ops[..i]).0.cache.items == []
  {
    EventAt(Init(capacity), ops, i);
    assert forall j :: 0 <= j < i ==> ops[..i][j] == ops[j];
    HistoryInv(capacity, ops[..i]);
    StepExits(Run(Init(capacity), ops[..i]).0, ops[i]);
  }

  /**
   Refinement to a map of last writes: in every history whose admissions target uncached keys, a get anywhere in
   the history hits with a value exactly when that value came from the last effective admission or update of the
   key with no later invalidation, eviction or failed update.
   */
  lemma NoStaleRead(capacity: nat, ops: seq<Op>, i: nat)
    requires forall j :: 0 <= j < |ops| ==> Legal(capacity, ops[j])
    requires AdmitsFresh(Init(capacity), ops)
    requires i < |ops| && ops[i].OpGet?
    ensures var events := Run(Init(capacity), ops).1;
            events[i] == Got(ops[i].k, LastWrite(events[..i], capacity, ops[i].k))
  {
    var prefix := ops[..i];
    assert forall j :: 0 <= j <= i ==> prefix[..j] == ops[..j];
    HistoryVisible(capacity, prefix, ops[i].k);
    EventsPrefix(Init(capacity), ops, i);
    EventAt(Init(capacity), ops, i);
  }

  /**
   Why admissions must target uncached keys: admitting a cached key keeps the old value and still sets its flag.
   The next get is right exactly when the key was uncached, or is left invalid, or held that very value.
   */
  lemma AdmitFreshIff(w: State, k: Key, v: Value, isValid: bool, beacon: Option<Edge>)
    requires Inv(w)
    ensures Visible(Admit(w, k, v, isValid, beacon), k) == Effect(Admitted(k, v, isValid), w.capacity, k, Visible(w, k))
            <==> !Lru.Has(w.cache, k) || !isValid || Lru.Stored(w.cache, k) == v
  {
    if !Lru.Has(w.cache, k) {
      AdmitVisible(w, k, v, isValid, beacon, k);
    }
  }

  lemma RunSnoc(w: State, ops: seq<Op>, op: Op)
    ensures var (w', events) := Run(w, ops);
            Run(w, ops + [op]) == (Step(w', op).0, events + [Step(w', op).1])
  {
    assert (ops + [op])[..|ops|] == ops;
  }

  /** A history that reads a stale value: admit, invalidate, admit the new value, get the old one. */
  lemma StaleAdmission(capacity: nat)
    requires capacity > 3
    ensures var ops := [OpAdmit("k", Value(false, 1), true, None), OpInvalidate("k"),
                        OpAdmit("k", Value(false, 2), true, None)];
            var (w, events) := Run(Init(capacity), ops);
            && LastWrite(events, capacity, "k") == Some(Value(false, 2))
            && Visible(w, "k") == Some(Value(false, 1))
  {
    var o1, o2 := OpAdmit("k", Value(false, 1), true, None), OpInvalidate("k");
    var o3 := OpAdmit("k", Value(false, 2), true, None);
    var w0 := Init(capacity);
    RunSnoc(w0, [], o1);
    RunSnoc(w0, [] + [o1], o2);
    RunSnoc(w0, [o1, o2], o3);
    assert [] + [o1] == [o1] && [o1] + [o2] == [o1, o2] && [o1, o2] + [o3] == [o1, o2, o3];
    var w1 := Step(w0, o1).0;
    assert w1.cache.items[0] == Lru.Item("k", o1.v, 0);
    Lru.StoredAt(w1.cache, 0);
    var e := [Admitted("k", o1.v, true), Invalidated("k"), Admitted("k", o3.v, true)];
    assert Run(w0, [o1, o2, o3]).1 == e;
  }

  // ---- Flags and beacons ----------------------------------------------------------------------------

  /** The flag of a key after one event, cached or not: an eviction takes it away. */
  function FlagAfter(event: Event, capacity: nat, k: Key, before: Option<bool>): Option<bool> {
    match event
    case Updated(k', v, cached) => if k' == k && cached then Some(ValidObjsize(capacity, k, v)) else before
    case Refreshed(k', v, wasInvalid) => if k' == k && wasInvalid then Some(ValidObjsize(capacity, k, v)) else before
    case Invalidated(k') => if k' == k then Some(false) else before
    case Admitted(k', _, isValid) => if k' == k then Some(isValid) else before
    case Evicted(k') => if k' == k then None else before
    case _ => before
  }

  function LastFlag(events: seq<Event>, capacity: nat, k: Key): Option<bool> {
    if events == [] then None
    else FlagAfter(events[|events| - 1], capacity, k, LastFlag(events[..|events| - 1], capacity, k))
  }

  /** The beacon of a key: the first one an admission gave since the key was evicted or all beacons were cleared. */
  function BeaconAfter(op: Op, event: Event, k: Key, before: Option<Edge>): Option<Edge> {
    if op.OpAdmit? && op.k == k && before.None? then op.beacon
    else if op.OpClearBeacons? || event == Evicted(k) then None
    else before
  }

  function LastBeacon(ops: seq<Op>, events: seq<Event>, k: Key): Option<Edge>
    requires |events| == |ops|
  {
    if ops == [] then None
    else
      var n := |ops| - 1;
      BeaconAfter(ops[n], events[n], k, LastBeacon(ops[..n], events[..n], k))
  }

  function FlagOf(w: State, k: Key): Option<bool> {
    if k in w.valid then Some(w.valid[k]) else None
  }

  function BeaconOf(w: State, k: Key): Option<Edge> {
    if k in w.beacon then Some(w.beacon[k]) else None
  }

  lemma StepMaps(w: State, op: Op, k: Key)
    ensures FlagOf(Step(w, op).0, k) == FlagAfter(Step(w, op).1, w.capacity, k, FlagOf(w, k))
    ensures BeaconOf(Step(w, op).0, k) == BeaconAfter(op, Step(w, op).1, k, BeaconOf(w, k))
  {
  }

  /** In every history flags and beacons of all keys, cached or not, are what the operations and their events say. */
  lemma {:induction false} HistoryMaps(capacity: nat, ops: seq<Op>, k: Key)
    requires forall i :: 0 <= i < |ops| ==> Legal(capacity, ops[i])
    ensures var (w, events) := Run(Init(capacity), ops);
            FlagOf(w, k) == LastFlag(events, capacity, k) && BeaconOf(w, k) == LastBeacon(ops, events, k)
  {
    if ops != [] {
      var n := |ops| - 1;
      assert forall i :: 0 <= i < n ==> ops[..n][i] == ops[i];
      HistoryMaps(capacity, ops[..n], k);
      var w, events := Before(capacity, ops, n);
      StepMaps(w, ops[n], k);
      MapsMore(ops, events, Step(w, ops[n]).1, capacity, k);
    }
  }

  lemma Before(capacity: nat, ops: seq<Op>, n: nat) returns (w: State, events: seq<Event>)
    requires |ops| == n + 1 && forall i :: 0 <= i < n ==> Legal(capacity, ops[..n][i])
    ensures Run(Init(capacity), ops[..n]) == (w, events) && w.capacity == capacity && |events| == n
    ensures Run(Init(capacity), ops) == (Step(w, ops[n]).0, events + [Step(w, ops[n]).1])
  {
    HistoryInv(capacity, ops[..n]);
    w, events := Run(Init(capacity), ops[..n]).0, Run(Init(capacity), ops[..n]).1;
  }

  lemma MapsMore(ops: seq<Op>, events: seq<Event>, event: Event, capacity: nat, k: Key)
    requires |ops| == |events| + 1
    ensures LastFlag(events + [event], capacity, k) == FlagAfter(event, capacity, k, LastFlag(events, capacity, k))
    ensures LastBeacon(ops, events + [event], k) ==
            BeaconAfter(ops[|events|], event, k, LastBeacon(ops[..|events|], events, k))
  {
    assert (events + [event])[..|events|] == events;
  }
}
