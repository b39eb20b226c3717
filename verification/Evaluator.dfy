/** The evaluator: one timeout-and-retry round, and the evaluation loops that string rounds together. */
module Evaluator {
  import opened Types
  import opened Protocol
  import opened Schedule
  import Runs = ProtocolRuns

  /** What one receive call yields. */
  datatype Event = Timeout | Message(response: Response)

  // ---- One round ------------------------------------------------------------------------------------

  /** The first answer of each node to the request with this number. */
  ghost function Acks(events: seq<Event>, num: nat, nodes: set<nat>): map<nat, Response> {
    if events == [] then map[]
    else
      var m := Acks(events[..|events| - 1], num, nodes);
      var e := events[|events| - 1];
      if e.Message? && e.response.num == num && e.response.from in nodes && e.response.from !in m
      then m[e.response.from := e.response] else m
  }

  lemma {:induction false} AcksSpec(events: seq<Event>, num: nat, nodes: set<nat>, n: nat)
    ensures n in Acks(events, num, nodes) <==>
            n in nodes && exists r :: Message(r) in events && r.num == num && r.from == n
    ensures n in Acks(events, num, nodes) ==>
            var r := Acks(events, num, nodes)[n]; Message(r) in events && r.num == num && r.from == n
  {
    if events != [] {
      var last := |events| - 1;
      AcksSpec(events[..last], num, nodes, n);
      assert events == events[..last] + [events[last]];
      if e :| e in events && e.Message? && e.response.num == num && e.response.from == n {
        assert Message(e.response) in events;
      }
    }
  }

  /** The round's bookkeeping is what the protocol's receive steps add up to. */
  lemma AcksAreReceived(s: System, events: seq<Event>, nodes: set<nat>, r: Response)
    requires s.log != [] && forall i: nat :: i in nodes <==> Target(s, s.log[|s.log| - 1], i)
    requires s.got == Acks(events, |s.log| - 1, nodes)
    ensures Received(s, r).got == Acks(events + [Message(r)], |s.log| - 1, nodes)
  {
    assert (events + [Message(r)])[..|events|] == events;
  }

  function Flagged(acked: map<nat, bool>): set<nat> {
    set n | n in acked && acked[n]
  }

  method ProcessMsgForAck(r: Response, acked: map<nat, bool>) returns (first: bool, acked': map<nat, bool>)
    ensures first <==> r.from in acked && !acked[r.from]
    ensures acked' == if first then acked[r.from := true] else acked
    ensures |Flagged(acked')| == |Flagged(acked)| + if first then 1 else 0
  {
    first := r.from in acked && !acked[r.from];
    acked' := if first then acked[r.from := true] else acked;
    if first {
      assert Flagged(acked') == Flagged(acked) + {r.from};
    }
  }

  method AckedFlags(nodes: set<nat>) returns (acked: map<nat, bool>)
    ensures acked.Keys == nodes && forall n :: n in nodes ==> !acked[n]
  {
    acked := map n | n in nodes :: false;
  }

  /** The type assertion fails on an event that is not stale. */
  predicate Mistyped(e: Event, num: nat, kind: Kind) {
    e.Message? && e.response.num == num && e.response.kind != kind
  }

  predicate Typed(events: seq<Event>, i: nat, j: nat, num: nat, kind: Kind)
    requires j <= |events|
  {
    forall q :: i <= q < j ==> !Mistyped(events[q], num, kind)
  }

  datatype Status = Status(acked: map<nat, bool>, count: nat, got: map<nat, Response>)

  /** Flags, counter and answers agree with the events received so far. */
  ghost predicate Standing(nodes: set<nat>, num: nat, events: seq<Event>, st: Status) {
    && st.acked.Keys == nodes
    && st.got == Acks(events, num, nodes)
    && Flagged(st.acked) == st.got.Keys
    && st.count == |Flagged(st.acked)|
  }

  /** The counter is the number of nodes that have answered, and reaches its bound exactly when all have. */
  lemma StandingCount(nodes: set<nat>, num: nat, events: seq<Event>, st: Status)
    requires Standing(nodes, num, events, st)
    ensures st.count == |Acks(events, num, nodes).Keys| <= |nodes|
    ensures st.count == |nodes| <==> Acks(events, num, nodes).Keys == nodes
  {
    var keys := Acks(events, num, nodes).Keys;
    assert keys <= nodes;
    assert nodes == keys + (nodes - keys);
  }

  /** A stale or useless event changes nothing. */
  lemma AcksSkip(events: seq<Event>, num: nat, nodes: set<nat>, i: nat)
    requires i < |events|
    requires events[i].Message? && events[i].response.num == num ==>
             events[i].response.from !in nodes || events[i].response.from in Acks(events[..i], num, nodes)
    ensures Acks(events[..i + 1], num, nodes) == Acks(events[..i], num, nodes)
  {
    assert events[..i + 1][..i] == events[..i];
  }

  lemma AcksTake(events: seq<Event>, num: nat, nodes: set<nat>, i: nat)
    requires i < |events| && events[i].Message? && events[i].response.num == num
    requires events[i].response.from in nodes && events[i].response.from !in Acks(events[..i], num, nodes)
    ensures var r := events[i].response;
            Acks(events[..i + 1], num, nodes) == Acks(events[..i], num, nodes)[r.from := r]
  {
    assert events[..i + 1][..i] == events[..i];
  }

  datatype Signal = Counted | TimedOut | Stale | Odd

  predicate IsStale(e: Event, num: nat) {
    e.Message? && e.response.num != num
  }

  /** One receive. */
  method ReceiveOne(nodes: set<nat>, num: nat, kind: Kind, events: seq<Event>, i: nat, st: Status)
    returns (st': Status, signal: Signal)
    requires i < |events| && Standing(nodes, num, events[..i], st)
    ensures signal != Odd ==> Standing(nodes, num, events[..i + 1], st')
    ensures st.count <= st'.count <= st.count + 1
    ensures signal == Odd <==> Mistyped(events[i], num, kind)
    ensures signal == TimedOut <==> events[i].Timeout?
    ensures signal == Stale <==> IsStale(events[i], num)
  {
    var event := events[i];
    st' := st;
    if event.Timeout? {
      AcksSkip(events, num, nodes, i);
      return st, TimedOut;
    }
    var r := event.response;
    if r.num != num {
      AcksSkip(events, num, nodes, i);
      return st, Stale;
    }
    if r.kind != kind {
      return st, Odd;
    }
    signal := Counted;
    var first, acked := ProcessMsgForAck(r, st.acked);
    assert r.from in nodes && st.acked[r.from] ==> r.from in Flagged(st.acked);
    if first {
      assert r.from !in Flagged(st.acked);
      AcksTake(events, num, nodes, i);
      st' := Status(acked, st.count + 1, st.got[r.from := r]);
      assert Flagged(acked) == Flagged(st.acked) + {r.from};
    } else {
      AcksSkip(events, num, nodes, i);
    }
  }

  /** No shorter sequence of events has brought all answers. */
  ghost predicate Early(nodes: set<nat>, num: nat, events: seq<Event>, i: nat) {
    i <= |events| && Acks(events[..i], num, nodes).Keys != nodes
  }

  ghost predicate AllEarly(nodes: set<nat>, num: nat, events: seq<Event>, i: nat, j: nat) {
    forall u: nat {:trigger Early(nodes, num, events, u)} :: i <= u < j ==> Early(nodes, num, events, u)
  }

  /** A receive with answers missing. */
  method ReceiveEarly(nodes: set<nat>, num: nat, kind: Kind, events: seq<Event>, start: nat, i: nat, st: Status)
    returns (st': Status, signal: Signal)
    requires start <= i < |events| && Standing(nodes, num, events[..i], st) && st.count < |nodes|
    requires AllEarly(nodes, num, events, start, i) && Typed(events, start, i, num, kind)
    ensures signal != Odd ==> Standing(nodes, num, events[..i + 1], st')
    ensures st'.count <= st.count + 1
    ensures AllEarly(nodes, num, events, start, i + 1)
    ensures signal == Odd <==> !Typed(events, start, i + 1, num, kind)
    ensures signal == TimedOut <==> events[i].Timeout?
    ensures signal == Stale <==> IsStale(events[i], num)
  {
    StandingCount(nodes, num, events[..i], st);
    assert Early(nodes, num, events, i);
    st', signal := ReceiveOne(nodes, num, kind, events, i, st);
  }

  /** The inner loop: as many receives as answers are missing, cut short by a timeout or a stale response. */
  method ReceiveResponses(nodes: set<nat>, num: nat, kind: Kind, events: seq<Event>, start: nat, st0: Status)
    returns (used: nat, st: Status, signal: Signal)
    requires start < |events| && Standing(nodes, num, events[..start], st0) && st0.count < |nodes|
    ensures start < used <= |events|
    ensures signal != Odd ==> Standing(nodes, num, events[..used], st)
    ensures AllEarly(nodes, num, events, start, used)
    ensures signal == Odd <==> !Typed(events, start, used, num, kind)
    ensures forall q :: start <= q < used - 1 ==> !events[q].Timeout? && !IsStale(events[q], num)
    ensures signal == TimedOut <==> events[used - 1].Timeout?
    ensures signal == Stale <==> IsStale(events[used - 1], num)
  {
    used, st, signal := start, st0, Counted;
    var expected := |nodes| - st0.count;
    while signal == Counted && used - start < expected && used < |events|
      invariant start <= used <= |events| && used - start <= expected
      invariant start == used ==> signal == Counted
      invariant signal != Odd ==> Standing(nodes, num, events[..used], st)
      invariant st.count <= st0.count + (used - start)
      invariant AllEarly(nodes, num, events, start, used)
      invariant signal == Odd <==> !Typed(events, start, used, num, kind)
      invariant forall q :: start <= q < used - 1 ==> !events[q].Timeout? && !IsStale(events[q], num)
      invariant used > start ==> (signal == TimedOut <==> events[used - 1].Timeout?)
      invariant used > start ==> (signal == Stale <==> IsStale(events[used - 1], num))
    {
      st, signal := ReceiveEarly(nodes, num, kind, events, start, used, st);
      used := used + 1;
    }
  }

  datatype Round = Complete | Unfinished | WrongType

  /** The nodes a (re)transmission goes to. */
  method UnackedNodes(nodes: set<nat>, num: nat, ghost events: seq<Event>, st: Status) returns (unacked: set<nat>)
    requires Standing(nodes, num, events, st) && st.count < |nodes|
    ensures unacked == nodes - Acks(events, num, nodes).Keys && unacked != {}
  {
    unacked := set n | n in st.acked && !st.acked[n];
    assert unacked == nodes - Flagged(st.acked);
    StandingCount(nodes, num, events, st);
  }

  /** A (re)transmission after some events: it goes to exactly the nodes that have not answered by then. */
  datatype Sending = Sending(after: nat, to: set<nat>)

  /** Event `t` starts the round or follows a timeout, and nothing stale has come since. */
  predicate QuietSince(events: seq<Event>, num: nat, t: nat, u: nat) {
    t <= u <= |events| && (t == 0 || events[t - 1].Timeout?) && forall q :: t <= q < u ==> !IsStale(events[q], num)
  }

  ghost predicate Fresh(events: seq<Event>, num: nat, u: nat) {
    exists t: nat :: QuietSince(events, num, t, u)
  }

  ghost predicate SendOk(nodes: set<nat>, num: nat, events: seq<Event>, s: Sending) {
    && s.after < |events| && s.to != {} && s.to == nodes - Acks(events[..s.after], num, nodes).Keys
    && Fresh(events, num, s.after)
  }

  ghost predicate SentAfter(sends: seq<Sending>, u: nat) {
    exists i :: 0 <= i < |sends| && sends[i].after == u
  }

  /** After every timeout what is missing is sent again. */
  ghost predicate Resent(events: seq<Event>, sends: seq<Sending>, used: nat)
    requires used <= |events|
  {
    forall u: nat {:trigger SentAfter(sends, u)} :: 0 < u < used && events[u - 1].Timeout? ==> SentAfter(sends, u)
  }

  ghost predicate SendsOk(nodes: set<nat>, num: nat, events: seq<Event>, sends: seq<Sending>) {
    && (forall i {:trigger SendOk(nodes, num, events, sends[i])} ::
          0 <= i < |sends| ==> SendOk(nodes, num, events, sends[i]))
    && (sends != [] ==> sends[0].after == 0)
  }

  lemma SendMore(nodes: set<nat>, num: nat, events: seq<Event>, sends: seq<Sending>, s: Sending, used: nat)
    requires SendsOk(nodes, num, events, sends) && SendOk(nodes, num, events, s) && (sends == [] ==> s.after == 0)
    requires used <= |events| && Resent(events, sends, used)
    ensures SendsOk(nodes, num, events, sends + [s])
    ensures Resent(events, sends + [s], used) && SentAfter(sends + [s], s.after)
  {
    var more := sends + [s];
    forall i | 0 <= i < |more|
      ensures SendOk(nodes, num, events, more[i])
    {
      if i < |sends| {
        assert SendOk(nodes, num, events, sends[i]);
      }
    }
    assert more[|sends|].after == s.after;
    forall u: nat | 0 < u < used && events[u - 1].Timeout?
      ensures SentAfter(more, u)
    {
      assert SentAfter(sends, u);
      var i :| 0 <= i < |sends| && sends[i].after == u;
      assert more[i].after == u;
    }
  }

  lemma ResentMore(events: seq<Event>, sends: seq<Sending>, start: nat, used: nat)
    requires start < used <= |events| && Resent(events, sends, start)
    requires 0 < start && events[start - 1].Timeout? ==> SentAfter(sends, start)
    requires forall q :: start <= q < used - 1 ==> !events[q].Timeout?
    ensures Resent(events, sends, used)
  {
    forall u: nat | 0 < u < used && events[u - 1].Timeout?
      ensures SentAfter(sends, u)
    {
      assert u <= start;
      assert u < start ==> SentAfter(sends, u);
    }
  }

  lemma FreshMore(events: seq<Event>, num: nat, start: nat, used: nat)
    requires start <= used <= |events| && Fresh(events, num, start)
    requires forall q :: start <= q < used ==> !IsStale(events[q], num)
    ensures Fresh(events, num, used)
  {
    var t: nat :| QuietSince(events, num, t, start);
    assert QuietSince(events, num, t, used);
  }

  /** A round completes exactly if all answers come before any response of the wrong type. */
  ghost predicate Completes(nodes: set<nat>, num: nat, kind: Kind, events: seq<Event>) {
    exists u: nat :: u <= |events| && Acks(events[..u], num, nodes).Keys == nodes && Typed(events, 0, u, num, kind)
  }

  lemma CompletesIf(nodes: set<nat>, num: nat, kind: Kind, events: seq<Event>, used: nat, result: Round)
    requires used <= |events| && AllEarly(nodes, num, events, 0, used)
    requires result == Complete ==> Acks(events[..used], num, nodes).Keys == nodes
    requires result == Unfinished ==> used == |events| && Early(nodes, num, events, used)
    requires result == WrongType <==> !Typed(events, 0, used, num, kind)
    ensures result == Complete <==> Completes(nodes, num, kind, events)
  {
    if result != Complete {
      forall u: nat | u <= |events| && Typed(events, 0, u, num, kind)
        ensures Acks(events[..u], num, nodes).Keys != nodes
      {
        assert u < used ==> Early(nodes, num, events, u);
      }
    }
  }

  lemma InitialStanding(nodes: set<nat>, num: nat, acked: map<nat, bool>)
    requires acked.Keys == nodes && forall n :: n in nodes ==> !acked[n]
    ensures Standing(nodes, num, [], Status(acked, 0, map[])) && Acks([], num, nodes).Keys == {}
  {
    assert Flagged(acked) == {};
  }

  /**
   A whole round. It returns as soon as every node has answered with the round's number, and not before; stale
   responses and responses from elsewhere never count. After a stale response nothing is sent again until a timeout.
   */
  method NotifyNodes(nodes: set<nat>, num: nat, kind: Kind, events: seq<Event>)
    returns (result: Round, used: nat, got: map<nat, Response>, sends: seq<Sending>)
    ensures used <= |events| && SendsOk(nodes, num, events, sends) && (used > 0 ==> sends != [])
    ensures Resent(events, sends, used)
    ensures result == Complete ==> got == Acks(events[..used], num, nodes) && got.Keys == nodes
    ensures result == Complete <==> Completes(nodes, num, kind, events)
    ensures result == Unfinished ==> used == |events| && Early(nodes, num, events, used)
    ensures result == WrongType <==> !Typed(events, 0, used, num, kind)
    ensures AllEarly(nodes, num, events, 0, used)
  {
    var acked := AckedFlags(nodes);
    var st, stale := Status(acked, 0, map[]), false;
    used, sends := 0, [];
    assert events[..0] == [];
    InitialStanding(nodes, num, acked);
    assert QuietSince(events, num, 0, 0);
    while st.count < |nodes| && used < |events|
      invariant used <= |events| && Standing(nodes, num, events[..used], st)
      invariant used == 0 ==> !stale && sends == []
      invariant used > 0 ==> sends != []
      invariant SendsOk(nodes, num, events, sends) && Resent(events, sends, used)
      invariant !stale ==> Fresh(events, num, used)
      invariant used > 0 && events[used - 1].Timeout? ==> !stale
      invariant Typed(events, 0, used, num, kind) && AllEarly(nodes, num, events, 0, used)
      decreases |events| - used
    {
      if !stale {
        var unacked := UnackedNodes(nodes, num, events[..used], st);
        SendMore(nodes, num, events, sends, Sending(used, unacked), used);
        sends := sends + [Sending(used, unacked)];
      }
      var signal, start := Counted, used;
      used, st, signal := ReceiveResponses(nodes, num, kind, events, used, st);
      ResentMore(events, sends, start, used);
      if signal == Odd {
        got, result := st.got, WrongType;
        CompletesIf(nodes, num, kind, events, used, result);
        return;
      }
      stale := NextStale(events, num, start, used, stale, signal);
    }
    StandingCount(nodes, num, events[..used], st);
    result := if st.count == |nodes| then Complete else Unfinished;
    got := st.got;
    CompletesIf(nodes, num, kind, events, used, result);
  }

  /** A timeout clears the mark of a stale response. */
  method NextStale(ghost events: seq<Event>, ghost num: nat, ghost start: nat, ghost used: nat, stale: bool,
                   signal: Signal) returns (stale': bool)
    requires start < used <= |events| && (!stale ==> Fresh(events, num, start))
    requires forall q :: start <= q < used - 1 ==> !IsStale(events[q], num)
    requires signal == TimedOut <==> events[used - 1].Timeout?
    requires signal == Stale <==> IsStale(events[used - 1], num)
    ensures !stale' ==> Fresh(events, num, used)
    ensures events[used - 1].Timeout? ==> !stale'
  {
    stale' := if signal == TimedOut then false else if signal == Stale then true else stale;
    if signal == TimedOut {
      assert QuietSince(events, num, used, used);
    } else if !stale' {
      FreshMore(events, num, start, used);
    }
  }

  /**
   A round over the network: when it completes on responses that were sent in a reached state, every node of the round
   has processed the round's request and the answer held for it is its own; and no response fails the type assertion.
   */
  lemma CompleteIsBarrier(clients: nat, peers: nat, warmup: bool, actions: seq<Action>, events: seq<Event>, i: nat)
    requires var r := Runs.Run(Init(clients, peers, warmup), actions); r.Some? && r.value.log != []
    requires var s := Runs.Run(Init(clients, peers, warmup), actions).value;
             forall r :: Message(r) in events ==> r in s.replies
    ensures var s := Runs.Run(Init(clients, peers, warmup), actions).value;
            var num := |s.log| - 1;
            var nodes := NodesOf(s.clients, |s.nodes|, s.log[num]);
            var got := Acks(events, num, nodes);
            && Typed(events, 0, |events|, num, s.log[num])
            && (i in got ==>
                 && Target(s, s.log[num], i) && (i, num) in s.processed
                 && got[i] in s.replies && got[i].from == i)
            && (got.Keys == nodes && Target(s, s.log[num], i) ==> (i, num) in s.processed)
  {
    Runs.RunInv(clients, peers, warmup, actions);
    var s := Runs.Run(Init(clients, peers, warmup), actions).value;
    var num := |s.log| - 1;
    var nodes := NodesOf(s.clients, |s.nodes|, s.log[num]);
    forall q | 0 <= q < |events|
      ensures !Mistyped(events[q], num, s.log[num])
    {
      if events[q].Message? {
        assert Message(events[q].response) in events;
        assert Runs.ReplyOk(s, events[q].response);
      }
    }
    AcksSpec(events, num, nodes, i);
    var got := Acks(events, num, nodes);
    if i in got {
      assert Runs.ReplyOk(s, got[i]);
    }
  }

  // ---- The evaluation loops -------------------------------------------------------------------------

  /** Only a dumping run takes a snapshot, and only another one ends its warmup. */
  predicate Suits(kind: Kind, option: Realnet) {
    (kind == DumpSnapshot ==> option.Dump?) && (kind == FinishWarmup ==> !option.Dump?)
  }

  function NodesOf(clients: nat, n: nat, kind: Kind): set<nat> {
    set i: nat | i < n && IsTarget(clients, n, kind, i)
  }

  class Evaluation {
    const clients: nat
    const peers: nat
    const option: Realnet
    var seqnum: nat
    var target: nat
    var warmup: bool
    ghost var log: seq<Kind>

    /** Whether the run starts in the warmup phase. */
    function Start(): bool {
      !option.Load?
    }

    /**
     Numbers count the rounds, the target slot counts the slot rounds, every slot round names the slot it opens, and
     the rounds so far follow the phase order.
     */
    ghost predicate Valid()
      reads this
    {
      && seqnum == |log| && target == Slots(log)
      && (forall q :: 0 <= q < |log| && log[q].SwitchSlot? ==> log[q].target == Slots(log[..q + 1]))
      && (forall q :: 0 <= q < |log| ==> Suits(log[q], option))
      && match StageOf(log, Start())
         case Wrong => false
         case Stress => !warmup
         case Warm => warmup
         case Boot => warmup == Start()
         case _ => true
    }

    constructor (clients: nat, peers: nat, option: Realnet)
      ensures Valid() && log == [] && this.clients == clients && this.peers == peers && this.option == option
    {
      this.clients, this.peers, this.option := clients, peers, option;
      seqnum, target, warmup, log := 0, 0, !option.Load?, [];
    }

    function Nodes(kind: Kind): set<nat> {
      NodesOf(clients, clients + peers, kind)
    }

    /** The log and the numbers move on together. */
    ghost method Record(kind: Kind)
      requires seqnum == |log| + 1 && target == Slots(log) + (if kind.SwitchSlot? then 1 else 0)
      requires forall q :: 0 <= q < |log| && log[q].SwitchSlot? ==> log[q].target == Slots(log[..q + 1])
      requires forall q :: 0 <= q < |log| ==> Suits(log[q], option)
      requires kind.SwitchSlot? ==> kind.target == target
      requires Suits(kind, option)
      modifies this`log
      ensures log == old(log) + [kind] && seqnum == |log| && target == Slots(log)
      ensures forall q :: 0 <= q < |log| && log[q].SwitchSlot? ==> log[q].target == Slots(log[..q + 1])
      ensures forall q :: 0 <= q < |log| ==> Suits(log[q], option)
      ensures StageOf(log, Start()) == Advance(StageOf(old(log), Start()), kind, Start())
    {
      ghost var before := log;
      log := log + [kind];
      Runs.SlotsAppend(before, kind);
      Runs.StageAppend(before, kind, Start());
      forall q | 0 <= q < |log| && log[q].SwitchSlot?
        ensures log[q].target == Slots(log[..q + 1])
      {
        if q < |before| {
          assert log[..q + 1] == before[..q + 1];
        } else {
          assert log[..q + 1] == log;
        }
      }
    }

    /** One round of any kind but a slot switch, with the next number. */
    method Notify(kind: Kind, events: seq<Event>) returns (ok: bool, got: map<nat, Response>)
      requires Valid() && !kind.SwitchSlot? && Suits(kind, option)
      requires Advance(StageOf(log, Start()), kind, Start()) != Wrong
      modifies this
      ensures log == old(log) + [kind] && warmup == (old(warmup) && kind != FinishWarmup) && Valid()
      ensures ok <==> Completes(Nodes(kind), old(seqnum), kind, events)
      ensures ok ==> got.Keys == Nodes(kind) && AnswersFrom(events, old(seqnum), got)
    {
      var num := seqnum;
      seqnum := seqnum + 1;
      var result, used, answers, _ := NotifyNodes(Nodes(kind), num, kind, events);
      if kind == FinishWarmup {
        warmup := false;
      }
      Record(kind);
      ok, got := result == Complete, answers;
      if ok {
        AnswersHold(events, used, num, Nodes(kind), got);
      }
    }

    method NotifySwitchSlot(events: seq<Event>) returns (ok: bool, got: map<nat, Response>)
      requires Valid() && (StageOf(log, Start()) == Warm || StageOf(log, Start()) == Stress)
      modifies this
      ensures Valid() && target == old(target) + 1 && log == old(log) + [SwitchSlot(target)] && warmup == old(warmup)
      ensures ok <==> Completes(Nodes(SwitchSlot(target)), old(seqnum), SwitchSlot(target), events)
      ensures ok ==> got.Keys == Nodes(SwitchSlot(target)) && AnswersFrom(events, old(seqnum), got)
    {
      target := target + 1;
      var num, kind := seqnum, SwitchSlot(target);
      seqnum := seqnum + 1;
      var result, used, answers, _ := NotifyNodes(Nodes(kind), num, kind, events);
      Record(kind);
      ok, got := result == Complete, answers;
      if ok {
        AnswersHold(events, used, num, Nodes(kind), got);
      }
    }

    /** All nodes have answered in the rounds so far. */
    ghost predicate Answered(net: nat -> seq<Event>)
      reads this
    {
      AllAnswer(clients, clients + peers, net, log)
    }

    /** The rounds so far are those of the plan, up to the first in which not all nodes answered. */
    ghost predicate Broken(net: nat -> seq<Event>, plan: seq<Kind>)
      reads this
    {
      BrokenOff(clients, clients + peers, net, log, plan)
    }

    /** A planned round of any kind but a slot switch. */
    method Hold(kind: Kind, net: nat -> seq<Event>, ghost plan: seq<Kind>) returns (ok: bool)
      requires Valid() && !kind.SwitchSlot? && Suits(kind, option)
      requires Advance(StageOf(log, Start()), kind, Start()) != Wrong
      requires Answered(net) && With(log, kind, true) <= plan
      modifies this
      ensures Valid() && log == With(old(log), kind, true) && warmup == (old(warmup) && kind != FinishWarmup)
      ensures StageOf(log, Start()) == Advance(StageOf(old(log), Start()), kind, Start())
      ensures if ok then Answered(net) else Broken(net, plan)
    {
      ghost var before := log;
      var got;
      ok, got := Notify(kind, net(seqnum));
      Runs.StageAppend(before, kind, Start());
      AnswersMore(clients, clients + peers, net, before, kind, plan);
    }

    method SwitchSlotIfDue(due: bool, net: nat -> seq<Event>, ghost plan: seq<Kind>) returns (ok: bool)
      requires Valid() && (StageOf(log, Start()) == Warm || StageOf(log, Start()) == Stress)
      requires Answered(net) && WithSlot(log, due) <= plan
      modifies this
      ensures Valid() && log == WithSlot(old(log), due) && warmup == old(warmup)
      ensures StageOf(log, Start()) == StageOf(old(log), Start())
      ensures if ok then Answered(net) else Broken(net, plan)
    {
      ok := true;
      if due {
        ghost var before, kind := log, SwitchSlot(Slots(log) + 1);
        Runs.StageAppend(log, SwitchSlot(target + 1), Start());
        var got;
        ok, got := NotifySwitchSlot(net(seqnum));
        AnswersMore(clients, clients + peers, net, before, kind, plan);
      }
    }

    method NotifyAllToFinishrun(net: nat -> seq<Event>, ghost plan: seq<Kind>) returns (ok: bool)
      requires Valid() && (StageOf(log, Start()) == Stress || StageOf(log, Start()) == Dumped)
      requires Answered(net) && WithFinish(log) <= plan
      modifies this
      ensures Valid() && (ok ==> log == WithFinish(old(log)) && StageOf(log, Start()) == Done)
      ensures if ok then Answered(net) else Broken(net, plan)
    {
      Prefixes(With(log, FinishClients, true), WithFinish(log), plan);
      ok := Hold(FinishClients, net, plan);
      if ok {
        ok := Hold(FinishPeers, net, plan);
      }
    }

    /** The assertion that the warmup is over holds. */
    method NotifyUpdateRules(net: nat -> seq<Event>, ghost plan: seq<Kind>) returns (ok: bool)
      requires Valid() && StageOf(log, Start()) == Stress
      requires Answered(net) && With(log, UpdateRules, true) <= plan
      modifies this
      ensures Valid() && log == With(old(log), UpdateRules, true) && !old(warmup) && !warmup
      ensures StageOf(log, Start()) == Stress
      ensures if ok then Answered(net) else Broken(net, plan)
    {
      assert !warmup;
      ok := Hold(UpdateRules, net, plan);
    }

    method UpdateRulesIfDue(due: bool, net: nat -> seq<Event>, ghost plan: seq<Kind>) returns (ok: bool)
      requires Valid() && (due ==> StageOf(log, Start()) == Stress)
      requires Answered(net) && With(log, UpdateRules, due) <= plan
      modifies this
      ensures Valid() && log == With(old(log), UpdateRules, due) && warmup == old(warmup)
      ensures StageOf(log, Start()) == StageOf(old(log), Start())
      ensures if ok then Answered(net) else Broken(net, plan)
    {
      ok := true;
      if due {
        ok := NotifyUpdateRules(net, plan);
      }
    }

    method FinishWarmupIfDue(due: bool, net: nat -> seq<Event>, ghost plan: seq<Kind>) returns (ok: bool)
      requires Valid() && !option.Dump? && (due ==> StageOf(log, Start()) == Warm)
      requires Answered(net) && With(log, FinishWarmup, due) <= plan
      modifies this
      ensures Valid() && log == With(old(log), FinishWarmup, due) && warmup == (old(warmup) && !due)
      ensures StageOf(log, Start()) == (if due then Stress else StageOf(old(log), Start()))
      ensures if ok then Answered(net) else Broken(net, plan)
    {
      ok := true;
      if due {
        ok := Hold(FinishWarmup, net, plan);
      }
    }

    /** The rounds of an iteration of the warmup or the stress test that does not end the run. */
    method Iterate(tick: Tick, net: nat -> seq<Event>, ghost plan: seq<Kind>) returns (ok: bool)
      requires Valid() && !option.Dump? && (StageOf(log, Start()) == Warm || StageOf(log, Start()) == Stress)
      requires Answered(net) && !(tick.finish && !warmup) && Next(option, log, tick, warmup) <= plan
      modifies this
      ensures Valid() && (ok ==> log == Next(option, old(log), tick, old(warmup)))
      ensures ok ==> warmup == (old(warmup) && !tick.warm)
      ensures ok ==> StageOf(log, Start()) == Warm || StageOf(log, Start()) == Stress
      ensures if ok then Answered(net) else Broken(net, plan)
    {
      ghost var rules := With(log, UpdateRules, tick.rules && !warmup);
      ghost var slot := WithSlot(rules, tick.slot);
      Prefixes(slot, With(slot, FinishWarmup, tick.warm && warmup), plan);
      Prefixes(rules, slot, plan);
      ok := UpdateRulesIfDue(tick.rules && !warmup, net, plan);
      if ok {
        ok := SwitchSlotIfDue(tick.slot, net, plan);
      }
      if ok {
        ok := FinishWarmupIfDue(tick.warm && warmup, net, plan);
      }
    }

    /**
     Warmup and stress test in one loop. The rounds are those of the plan, up to the first in which not all nodes
     answer; the run is finished exactly if the plan ends it and all nodes answer in every round.
     */
    method NormalEval(ticks: seq<Tick>, net: nat -> seq<Event>) returns (finished: bool)
      requires Valid() && option.NoOption? && (StageOf(log, Start()) == Warm || StageOf(log, Start()) == Stress)
      requires Answered(net)
      modifies this
      ensures Valid() && (finished ==> StageOf(log, Start()) == Done)
      ensures var plan := Plan(option, old(log), old(warmup), ticks, |ticks|);
              && ((Answered(net) && log == plan) || Broken(net, plan))
              && (finished <==> Answered(net) && log == plan && EndsBefore(option, old(warmup), ticks, |ticks|))
    {
      ghost var base, warm := log, warmup;
      ghost var plan := Plan(option, base, warm, ticks, |ticks|);
      for i := 0 to |ticks|
        invariant Valid() && (StageOf(log, Start()) == Warm || StageOf(log, Start()) == Stress)
        invariant Answered(net) && log == Plan(option, base, warm, ticks, i) && warmup == WarmAt(warm, ticks, i)
        invariant !EndsBefore(option, warm, ticks, i)
      {
        PlanNext(option, base, warm, ticks, i);
        PlanGrows(option, base, warm, ticks, i + 1, |ticks|);
        if ticks[i].finish && !warmup {
          EndsStays(option, warm, ticks, i + 1, |ticks|);
          finished := NotifyAllToFinishrun(net, plan);
          BrokenIsNot(clients, clients + peers, net, log, plan);
          return;
        }
        var ok := Iterate(ticks[i], net, plan);
        if !ok {
          BrokenIsNot(clients, clients + peers, net, log, plan);
          return false;
        }
      }
      finished := false;
    }

    /** Warmup only, then a snapshot of the edges; likewise as planned. */
    method RealnetDumpEval(ticks: seq<Tick>, net: nat -> seq<Event>) returns (finished: bool)
      requires Valid() && option.Dump? && StageOf(log, Start()) == Warm && Answered(net)
      modifies this
      ensures Valid() && (finished ==> StageOf(log, Start()) == Done)
      ensures var plan := Plan(option, old(log), true, ticks, |ticks|);
              && ((Answered(net) && log == plan) || Broken(net, plan))
              && (finished <==> Answered(net) && log == plan && EndsBefore(option, true, ticks, |ticks|))
    {
      ghost var base := log;
      ghost var plan := Plan(option, base, true, ticks, |ticks|);
      for i := 0 to |ticks|
        invariant Valid() && StageOf(log, Start()) == Warm
        invariant Answered(net) && log == Plan(option, base, true, ticks, i)
        invariant !EndsBefore(option, true, ticks, i)
      {
        assert warmup;
        PlanNext(option, base, true, ticks, i);
        PlanGrows(option, base, true, ticks, i + 1, |ticks|);
        var ok := DumpIteration(ticks[i], net, plan);
        if !ok || ticks[i].warm {
          BrokenIsNot(clients, clients + peers, net, log, plan);
          if ticks[i].warm {
            EndsStays(option, true, ticks, i + 1, |ticks|);
          }
          return ok;
        }
      }
      finished := false;
    }

    method DumpIteration(tick: Tick, net: nat -> seq<Event>, ghost plan: seq<Kind>) returns (ok: bool)
      requires Valid() && option.Dump? && StageOf(log, Start()) == Warm
      requires Answered(net) && Next(option, log, tick, true) <= plan
      modifies this
      ensures Valid() && (ok ==> log == Next(option, old(log), tick, true))
      ensures ok ==> StageOf(log, Start()) == if tick.warm then Done else Warm
      ensures if ok then Answered(net) else Broken(net, plan)
    {
      ghost var slot := WithSlot(log, tick.slot);
      Prefixes(slot, Next(option, log, tick, true), plan);
      ok := SwitchSlotIfDue(tick.slot, net, plan);
      if ok && tick.warm {
        Prefixes(With(slot, DumpSnapshot, true), WithFinish(With(slot, DumpSnapshot, true)), plan);
        ok := Hold(DumpSnapshot, net, plan);
        if ok {
          ok := NotifyAllToFinishrun(net, plan);
        }
      }
    }

    /** Stress test only: never in the warmup. */
    method RealnetLoadEval(ticks: seq<Tick>, net: nat -> seq<Event>) returns (finished: bool)
      requires Valid() && option.Load? && StageOf(log, Start()) == Stress && Answered(net)
      modifies this
      ensures Valid() && (finished ==> StageOf(log, Start()) == Done)
      ensures var plan := Plan(option, old(log), false, ticks, |ticks|);
              && ((Answered(net) && log == plan) || Broken(net, plan))
              && (finished <==> Answered(net) && log == plan && EndsBefore(option, false, ticks, |ticks|))
    {
      ghost var base := log;
      ghost var plan := Plan(option, base, false, ticks, |ticks|);
      for i := 0 to |ticks|
        invariant Valid() && StageOf(log, Start()) == Stress
        invariant Answered(net) && log == Plan(option, base, false, ticks, i)
        invariant !EndsBefore(option, false, ticks, i)
      {
        assert !warmup;
        PlanNext(option, base, false, ticks, i);
        PlanGrows(option, base, false, ticks, i + 1, |ticks|);
        if ticks[i].finish {
          EndsStays(option, false, ticks, i + 1, |ticks|);
          finished := NotifyAllToFinishrun(net, plan);
          BrokenIsNot(clients, clients + peers, net, log, plan);
          return;
        }
        var ok := StressIteration(ticks[i], net, plan);
        if !ok {
          BrokenIsNot(clients, clients + peers, net, log, plan);
          return false;
        }
      }
      finished := false;
    }

    method StressIteration(tick: Tick, net: nat -> seq<Event>, ghost plan: seq<Kind>) returns (ok: bool)
      requires Valid() && option.Load? && StageOf(log, Start()) == Stress
      requires Answered(net) && !tick.finish && Next(option, log, tick, false) <= plan
      modifies this
      ensures Valid() && (ok ==> log == Next(option, old(log), tick, false) && StageOf(log, Start()) == Stress)
      ensures if ok then Answered(net) else Broken(net, plan)
    {
      ghost var rules := With(log, UpdateRules, tick.rules);
      Prefixes(rules, WithSlot(rules, tick.slot), plan);
      ok := UpdateRulesIfDue(tick.rules, net, plan);
      if ok {
        ok := SwitchSlotIfDue(tick.slot, net, plan);
      }
    }

    /**
     A whole evaluation: the start round and then the planned ones, up to the first in which not all nodes answer. When
     it ends, the rounds follow the order of the chosen option.
     */
    method StartEvaluation(ticks: seq<Tick>, net: nat -> seq<Event>) returns (finished: bool)
      requires Valid() && log == []
      modifies this
      ensures Valid() && (finished ==> |log| >= 2 && InOrder(log, option))
      ensures var plan := Plan(option, [Startrun], Start(), ticks, |ticks|);
              && ((Answered(net) && log == plan) || Broken(net, plan))
              && (finished <==> Answered(net) && log == plan && EndsBefore(option, Start(), ticks, |ticks|))
    {
      ghost var plan := Plan(option, [Startrun], Start(), ticks, |ticks|);
      PlanGrows(option, [Startrun], Start(), ticks, 0, |ticks|);
      assert With(log, Startrun, true) == [Startrun];
      var ok := Hold(Startrun, net, plan);
      if !ok {
        BrokenIsNot(clients, clients + peers, net, log, plan);
        return false;
      }
      finished := Evaluate(ticks, net);
      if finished {
        FinishedInOrder(log, option);
      }
    }

    /** The loop of the chosen option, after the start. */
    method Evaluate(ticks: seq<Tick>, net: nat -> seq<Event>) returns (finished: bool)
      requires Valid() && log == [Startrun] && Answered(net)
      requires StageOf(log, Start()) == if Start() then Warm else Stress
      modifies this
      ensures Valid() && (finished ==> StageOf(log, Start()) == Done)
      ensures var plan := Plan(option, [Startrun], Start(), ticks, |ticks|);
              && ((Answered(net) && log == plan) || Broken(net, plan))
              && (finished <==> Answered(net) && log == plan && EndsBefore(option, Start(), ticks, |ticks|))
    {
      match option {
        case NoOption => finished := NormalEval(ticks, net);
        case Dump => finished := RealnetDumpEval(ticks, net);
        case Load => finished := RealnetLoadEval(ticks, net);
      }
    }
  }

  /** All nodes of round `q` answer in it. */
  ghost predicate Answers(clients: nat, n: nat, net: nat -> seq<Event>, log: seq<Kind>, q: nat)
    requires q < |log|
  {
    Completes(NodesOf(clients, n, log[q]), q, log[q], net(q))
  }

  ghost predicate AllAnswer(clients: nat, n: nat, net: nat -> seq<Event>, log: seq<Kind>) {
    forall q: nat {:trigger Answers(clients, n, net, log, q)} :: q < |log| ==> Answers(clients, n, net, log, q)
  }

  /** A log that follows a plan up to the first round in which not all nodes answer. */
  ghost predicate BrokenOff(clients: nat, n: nat, net: nat -> seq<Event>, log: seq<Kind>, plan: seq<Kind>) {
    && log != [] && log <= plan && !Answers(clients, n, net, log, |log| - 1)
    && AllAnswer(clients, n, net, log[..|log| - 1])
  }

  lemma AnswersMore(clients: nat, n: nat, net: nat -> seq<Event>, log: seq<Kind>, kind: Kind, plan: seq<Kind>)
    requires AllAnswer(clients, n, net, log) && With(log, kind, true) <= plan
    ensures var more := With(log, kind, true);
            if Completes(NodesOf(clients, n, kind), |log|, kind, net(|log|)) then AllAnswer(clients, n, net, more)
            else BrokenOff(clients, n, net, more, plan)
  {
    var more := With(log, kind, true);
    assert more[..|log|] == log && more[|log|] == kind;
    if Completes(NodesOf(clients, n, kind), |log|, kind, net(|log|)) {
      forall q: nat | q < |more|
        ensures Answers(clients, n, net, more, q)
      {
        assert q < |log| ==> Answers(clients, n, net, log, q);
      }
    }
  }

  /** A log that is broken off is not one in which all nodes answer. */
  lemma BrokenIsNot(clients: nat, n: nat, net: nat -> seq<Event>, log: seq<Kind>, plan: seq<Kind>)
    ensures BrokenOff(clients, n, net, log, plan) ==> !AllAnswer(clients, n, net, log)
  {
    if BrokenOff(clients, n, net, log, plan) {
      assert !Answers(clients, n, net, log, |log| - 1);
    }
  }

  /** A start; for a snapshot slot switches and the dump, else warmup and stress test; then the two finishes. */
  ghost predicate InOrder(log: seq<Kind>, option: Realnet)
    requires |log| >= 2
  {
    && log[|log| - 2] == FinishClients && log[|log| - 1] == FinishPeers
    && (if option.Dump? then Runs.SnapshotDumped(log, true, |log| - 2)
        else Runs.Stressed(log, !option.Load?, |log| - 2))
  }

  lemma FinishedInOrder(log: seq<Kind>, option: Realnet)
    requires StageOf(log, !option.Load?) == Done && forall q :: 0 <= q < |log| ==> Suits(log[q], option)
    ensures |log| >= 2 && InOrder(log, option)
  {
    Runs.PhaseOrder(log, !option.Load?, |log|);
    assert log[..|log|] == log;
  }

  /** Every answer held is one its node gave to the round's number. */
  ghost predicate AnswersFrom(events: seq<Event>, num: nat, got: map<nat, Response>) {
    forall n :: n in got ==> Message(got[n]) in events && got[n].num == num && got[n].from == n
  }

  lemma AnswersHold(events: seq<Event>, used: nat, num: nat, nodes: set<nat>, got: map<nat, Response>)
    requires used <= |events| && got == Acks(events[..used], num, nodes)
    ensures AnswersFrom(events, num, got)
  {
    forall n | n in got
      ensures Message(got[n]) in events && got[n].num == num && got[n].from == n
    {
      AcksSpec(events[..used], num, nodes, n);
    }
  }
}
