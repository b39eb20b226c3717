/**
 Which key an eviction takes, told from the observed events of a history alone: the cached key whose last use is the
 oldest. A use is a get of a cached key, an update that succeeds, or the admission of an uncached key.
 */
module Recency {
  import opened Types
  import opened Wrapper
  import Lru

  /** Admitted, and not evicted since. */
  predicate CachedBy(events: seq<Event>, k: Key) {
    if events == [] then false
    else
      match events[|events| - 1]
      case Admitted(k', _, _) => k' == k || CachedBy(events[..|events| - 1], k)
      case Evicted(k') => k' != k && CachedBy(events[..|events| - 1], k)
      case _ => CachedBy(events[..|events| - 1], k)
  }

  /** Whether an event uses a key; `cached` tells whether the key was cached before it. */
  predicate Uses(event: Event, capacity: nat, k: Key, cached: bool) {
    match event
    case Got(k', _) => k' == k && cached
    case Updated(k', v, _) => k' == k && cached && ValidObjsize(capacity, k, v)
    case Refreshed(k', v, wasInvalid) => k' == k && wasInvalid && ValidObjsize(capacity, k, v)
    case Admitted(k', _, _) => k' == k && !cached
    case _ => false
  }

  /** One more than the position of the last event that uses the key; zero if none does. */
  function LastUse(events: seq<Event>, capacity: nat, k: Key): nat {
    if events == [] then 0
    else
      var before := events[..|events| - 1];
      if Uses(events[|events| - 1], capacity, k, CachedBy(before, k)) then |events| else LastUse(before, capacity, k)
  }

  lemma {:induction false} LastUseBound(events: seq<Event>, capacity: nat, k: Key)
    ensures LastUse(events, capacity, k) <= |events|
  {
    if events != [] {
      LastUseBound(events[..|events| - 1], capacity, k);
    }
  }

  lemma OneMore(events: seq<Event>, event: Event, capacity: nat, k: Key)
    ensures var cached := CachedBy(events, k);
            && LastUse(events + [event], capacity, k) ==
               (if Uses(event, capacity, k, cached) then |events| + 1 else LastUse(events, capacity, k))
            && CachedBy(events + [event], k) ==
               (match event
                case Admitted(k', _, _) => k' == k || cached
                case Evicted(k') => k' != k && cached
                case _ => cached)
  {
    assert (events + [event])[..|events|] == events;
  }

  // ---- The list is in the order of last uses --------------------------------------------------------

  predicate UsedBefore(a: Key, b: Key, events: seq<Event>, capacity: nat) {
    LastUse(events, capacity, a) < LastUse(events, capacity, b)
  }

  ghost predicate InUseOrder(items: seq<Lru.Item>, events: seq<Event>, capacity: nat) {
    forall i, j {:trigger UsedBefore(items[j].key, items[i].key, events, capacity)} ::
      0 <= i < j < |items| ==> UsedBefore(items[j].key, items[i].key, events, capacity)
  }

  ghost predicate SameKeys(c: Lru.Cache, events: seq<Event>) {
    forall k {:trigger Lru.Has(c, k)} :: Lru.Has(c, k) <==> CachedBy(events, k)
  }

  ghost predicate Follows(w: State, events: seq<Event>) {
    SameKeys(w.cache, events) && InUseOrder(w.cache.items, events, w.capacity)
  }

  /** An event that uses no cached key and moves none. */
  lemma NoUse(c: Lru.Cache, c': Lru.Cache, capacity: nat, events: seq<Event>, event: Event)
    requires SameKeys(c, events) && InUseOrder(c.items, events, capacity) && c'.items == c.items
    requires forall k :: CachedBy(events, k) ==> !Uses(event, capacity, k, true)
    requires !event.Evicted? && (event.Admitted? ==> CachedBy(events, event.k))
    ensures SameKeys(c', events + [event]) && InUseOrder(c'.items, events + [event], capacity)
  {
    forall k
      ensures Lru.Has(c', k) <==> CachedBy(events + [event], k)
    {
      OneMore(events, event, capacity, k);
      assert Lru.Has(c, k) <==> CachedBy(events, k);
    }
    forall i, j | 0 <= i < j < |c.items|
      ensures UsedBefore(c.items[j].key, c.items[i].key, events + [event], capacity)
    {
      assert UsedBefore(c.items[j].key, c.items[i].key, events, capacity);
      assert Lru.Has(c, c.items[i].key) && Lru.Has(c, c.items[j].key);
      StillUsed(c, capacity, events, event, i);
      StillUsed(c, capacity, events, event, j);
    }
  }

  lemma StillUsed(c: Lru.Cache, capacity: nat, events: seq<Event>, event: Event, i: nat)
    requires SameKeys(c, events) && i < |c.items| && !Uses(event, capacity, c.items[i].key, true)
    ensures LastUse(events + [event], capacity, c.items[i].key) == LastUse(events, capacity, c.items[i].key)
  {
    assert Lru.Has(c, c.items[i].key);
    OneMore(events, event, capacity, c.items[i].key);
  }

  /** What is left of the list without its item at `p`; all of it if there is none. */
  ghost predicate Left(items: seq<Lru.Item>, rest: seq<Lru.Item>, p: nat) {
    && p <= |items| && |rest| == (if p < |items| then |items| - 1 else |items|)
    && forall i :: 0 <= i < |rest| ==> rest[i] == items[if i < p then i else i + 1]
  }

  lemma WithoutLeft(c: Lru.Cache, k: Key) returns (p: nat)
    requires Lru.Ordered(c.items)
    ensures Left(c.items, Lru.Without(c.items, k), p)
    ensures forall i :: 0 <= i < |Lru.Without(c.items, k)| ==> Lru.Without(c.items, k)[i].key != k
  {
    Lru.WithoutOrdered(c, k);
    p := if Lru.Has(c, k) then Lru.Index(c.items, k) else |c.items|;
  }

  /** The used key comes first, and the others keep their order. */
  lemma UseFirst(c: Lru.Cache, x: Lru.Item, rest: seq<Lru.Item>, p: nat, capacity: nat, events: seq<Event>,
                 event: Event)
    requires InUseOrder(c.items, events, capacity) && Left(c.items, rest, p)
    requires forall i :: 0 <= i < |rest| ==> rest[i].key != x.key
    requires Uses(event, capacity, x.key, CachedBy(events, x.key))
    requires forall k, cached :: k != x.key ==> !Uses(event, capacity, k, cached)
    ensures InUseOrder([x] + rest, events + [event], capacity)
  {
    var items := [x] + rest;
    OneMore(events, event, capacity, x.key);
    forall i, j | 0 <= i < j < |items|
      ensures UsedBefore(items[j].key, items[i].key, events + [event], capacity)
    {
      assert items[j] == rest[j - 1];
      OneMore(events, event, capacity, items[j].key);
      if i == 0 {
        LastUseBound(events, capacity, items[j].key);
      } else {
        assert items[i] == rest[i - 1];
        OneMore(events, event, capacity, items[i].key);
        var a, b := if i - 1 < p then i - 1 else i, if j - 1 < p then j - 1 else j;
        assert UsedBefore(c.items[b].key, c.items[a].key, events, capacity);
      }
    }
  }

  lemma TouchFollows(w: State, k: Key, v: Value, events: seq<Event>, event: Event)
    requires Inv(w) && Follows(w, events) && Lru.Has(w.cache, k)
    requires Uses(event, w.capacity, k, true) && !event.Admitted? && !event.Evicted?
    requires forall j, cached :: j != k ==> !Uses(event, w.capacity, j, cached)
    ensures var c := Lru.Touch(w.cache, k, v);
            SameKeys(c, events + [event]) && InUseOrder(c.items, events + [event], w.capacity)
  {
    var c := Lru.Touch(w.cache, k, v);
    var p := WithoutLeft(w.cache, k);
    UseFirst(w.cache, Lru.Item(k, v, w.cache.clock), Lru.Without(w.cache.items, k), p, w.capacity, events, event);
    forall j
      ensures Lru.Has(c, j) <==> CachedBy(events + [event], j)
    {
      OneMore(events, event, w.capacity, j);
      TouchVisible(w, k, v, j);
      assert Lru.Has(w.cache, j) <==> CachedBy(events, j);
    }
  }

  lemma GetFollows(w: State, k: Key, events: seq<Event>)
    requires Inv(w) && Follows(w, events)
    ensures Follows(Get(w, k), events + [Got(k, Visible(w, k))])
  {
    var event := Got(k, Visible(w, k));
    if Lru.Has(w.cache, k) {
      TouchFollows(w, k, Lru.Stored(w.cache, k), events, event);
    } else {
      NoUse(w.cache, Get(w, k).cache, w.capacity, events, event);
    }
  }

  /** An update of a cached key by a value of valid size uses it, and no other update does. */
  lemma UpdateFollows(w: State, k: Key, v: Value, events: seq<Event>, event: Event)
    requires Inv(w) && Follows(w, events)
    requires event == Updated(k, v, Lru.Has(w.cache, k)) || (event == Refreshed(k, v, true) && Lru.Has(w.cache, k)) ||
             (event == Refreshed(k, v, false) && !Lru.Has(w.cache, k))
    ensures Follows(Update(w, k, v), events + [event])
  {
    assert Lru.Has(w.cache, k) <==> CachedBy(events, k);
    if Lru.Has(w.cache, k) && ValidObjsize(w.capacity, k, v) {
      TouchFollows(w, k, v, events, event);
    } else {
      NoUse(w.cache, Update(w, k, v).cache, w.capacity, events, event);
    }
  }

  lemma GetrspFollows(w: State, k: Key, v: Value, events: seq<Event>)
    requires Inv(w) && Follows(w, events)
    ensures Follows(UpdateIfInvalid(w, k, v), events + [Refreshed(k, v, CachedAndInvalid(w, k))])
  {
    if Lru.Has(w.cache, k) && IsValid(w, k) {
      NoUse(w.cache, w.cache, w.capacity, events, Refreshed(k, v, false));
    } else {
      UpdateFollows(w, k, v, events, Refreshed(k, v, CachedAndInvalid(w, k)));
    }
  }

  lemma AdmitFollows(w: State, k: Key, v: Value, isValid: bool, beacon: Option<Edge>, events: seq<Event>)
    requires Inv(w) && Follows(w, events)
    ensures Follows(Admit(w, k, v, isValid, beacon), events + [Admitted(k, v, isValid)])
  {
    var event := Admitted(k, v, isValid);
    assert Lru.Has(w.cache, k) <==> CachedBy(events, k);
    if Lru.Has(w.cache, k) {
      NoUse(w.cache, w.cache, w.capacity, events, event);
    } else {
      var p := WithoutLeft(w.cache, k);
      UseFirst(w.cache, Lru.Item(k, v, w.cache.clock), w.cache.items, p, w.capacity, events, event);
      Lru.PushWf(w.cache, k, v);
      var c := Lru.Admit(w.cache, k, v);
      forall j
        ensures Lru.Has(c, j) <==> CachedBy(events + [event], j)
      {
        OneMore(events, event, w.capacity, j);
        Lru.HasIsKey(c, j);
        Lru.HasIsKey(w.cache, j);
        assert Lru.Has(w.cache, j) <==> CachedBy(events, j);
      }
    }
  }

  lemma EvictFollows(w: State, events: seq<Event>)
    requires Inv(w) && Follows(w, events) && Evict(w).Some?
    ensures Follows(Evict(w).value, events + [Evicted(Lru.Tail(w.cache))])
  {
    var k := Lru.Tail(w.cache);
    var c, event := Evict(w).value.cache, Evicted(k);
    Lru.EvictTail(w.cache);
    Lru.EvictWf(w.cache, k);
    forall j
      ensures Lru.Has(c, j) <==> CachedBy(events + [event], j)
    {
      OneMore(events, event, w.capacity, j);
      Lru.HasIsKey(c, j);
      Lru.HasIsKey(w.cache, j);
      assert Lru.Has(w.cache, j) <==> CachedBy(events, j);
    }
    forall i, j | 0 <= i < j < |c.items|
      ensures UsedBefore(c.items[j].key, c.items[i].key, events + [event], w.capacity)
    {
      assert UsedBefore(w.cache.items[j].key, w.cache.items[i].key, events, w.capacity);
      OneMore(events, event, w.capacity, c.items[i].key);
      OneMore(events, event, w.capacity, c.items[j].key);
    }
  }

  lemma StepFollows(w: State, op: Op, events: seq<Event>)
    requires Inv(w) && Legal(w.capacity, op) && Follows(w, events)
    ensures Follows(Step(w, op).0, events + [Step(w, op).1])
  {
    match op
    case OpGet(k) => GetFollows(w, k, events);
    case OpUpdate(k, v) => UpdateFollows(w, k, v, events, Updated(k, v, Lru.Has(w.cache, k)));
    case OpGetrsp(k, v) => GetrspFollows(w, k, v, events);
    case OpAdmit(k, v, isValid, beacon) => AdmitFollows(w, k, v, isValid, beacon, events);
    case OpEvict =>
      if Evict(w).Some? {
        EvictFollows(w, events);
      } else {
        NoUse(w.cache, w.cache, w.capacity, events, Exited);
      }
    case OpInvalidate(k) => NoUse(w.cache, w.cache, w.capacity, events, Invalidated(k));
    case OpClearBeacons => NoUse(w.cache, w.cache, w.capacity, events, Cleared);
    case OpSize => NoUse(w.cache, w.cache, w.capacity, events, Sized(SizeForCapacity(w)));
  }

  /** In every history the list holds the keys the events say are cached, in the order of their last uses. */
  lemma {:induction false} HistoryFollows(capacity: nat, ops: seq<Op>)
    requires forall i :: 0 <= i < |ops| ==> Legal(capacity, ops[i])
    ensures var (w, events) := Run(Init(capacity), ops); Follows(w, events) && w.capacity == capacity
  {
    if ops != [] {
      var n := |ops| - 1;
      assert forall i :: 0 <= i < n ==> ops[..n][i] == ops[i];
      HistoryFollows(capacity, ops[..n]);
      HistoryInv(capacity, ops[..n]);
      var (w, events) := Run(Init(capacity), ops[..n]);
      StepFollows(w, ops[n], events);
      StepInv(w, ops[n]);
    }
  }

  /** A cached key, told from the events; the eviction takes one that was used before all others. */
  ghost predicate Oldest(events: seq<Event>, capacity: nat, k: Key) {
    CachedBy(events, k) && forall j :: CachedBy(events, j) && j != k ==> UsedBefore(k, j, events, capacity)
  }

  lemma TailIsOldest(w: State, events: seq<Event>)
    requires Inv(w) && Follows(w, events)
    ensures w.cache.items == [] ==> forall k :: !CachedBy(events, k)
    ensures w.cache.items != [] ==> Evict(w).Some? && Oldest(events, w.capacity, Lru.Tail(w.cache))
  {
    EvictInv(w);
    var items := w.cache.items;
    if items != [] {
      assert Lru.Has(w.cache, items[|items| - 1].key);
    }
    forall k | CachedBy(events, k)
      ensures items != [] && (k != Lru.Tail(w.cache) ==> UsedBefore(Lru.Tail(w.cache), k, events, w.capacity))
    {
      assert Lru.Has(w.cache, k);
      var i :| 0 <= i < |items| && items[i].key == k;
      if i < |items| - 1 {
        assert UsedBefore(items[|items| - 1].key, items[i].key, events, w.capacity);
      }
    }
  }

  lemma EvictionTakesOldest(w: State, events: seq<Event>)
    requires Inv(w) && Follows(w, events)
    ensures var event := Step(w, OpEvict).1;
            if event.Evicted? then Oldest(events, w.capacity, event.k)
            else event == Exited && forall k :: !CachedBy(events, k)
  {
    TailIsOldest(w, events);
    EvictInv(w);
  }

  /**
   Over every history, reading the events only: an eviction takes the cached key whose last use is the oldest, and finds
   none exactly if no key is cached.
   */
  lemma VictimIsLeastRecent(capacity: nat, ops: seq<Op>, i: nat)
    requires forall j :: 0 <= j < |ops| ==> Legal(capacity, ops[j])
    requires i < |ops| && ops[i].OpEvict?
    ensures var events := Run(Init(capacity), ops).1;
            if events[i].Evicted? then Oldest(events[..i], capacity, events[i].k)
            else events[i] == Exited && forall k :: !CachedBy(events[..i], k)
  {
    assert forall j :: 0 <= j < i ==> ops[..i][j] == ops[j];
    HistoryFollows(capacity, ops[..i]);
    HistoryInv(capacity, ops[..i]);
    EventAt(Init(capacity), ops, i);
    EventsPrefix(Init(capacity), ops, i);
    var (w, before) := Run(Init(capacity), ops[..i]);
    EvictionTakesOldest(w, before);
  }
}
