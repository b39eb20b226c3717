/** What every run of the control protocol keeps, whatever the network does. */
module ProtocolRuns {
  import opened Types
  import opened Protocol

  /** Rounds that have returned. */
  function Closed(s: System): nat {
    if s.open && s.log != [] then |s.log| - 1 else |s.log|
  }

  // ---- Logs -----------------------------------------------------------------------------------------

  lemma SlotsAppend(log: seq<Kind>, kind: Kind)
    ensures Slots(log + [kind]) == Slots(log) + if kind.SwitchSlot? then 1 else 0
  {
    assert (log + [kind])[..|log|] == log;
  }

  lemma {:induction false} SlotsMonotone(log: seq<Kind>, i: nat, j: nat)
    requires i <= j <= |log|
    ensures Slots(log[..i]) <= Slots(log[..j])
  {
    if i < j {
      SlotsMonotone(log, i, j - 1);
      assert log[..j][..j - 1] == log[..j - 1];
    }
  }

  lemma StageAppend(log: seq<Kind>, kind: Kind, warmup: bool)
    ensures StageOf(log + [kind], warmup) == Advance(StageOf(log, warmup), kind, warmup)
  {
    assert (log + [kind])[..|log|] == log;
  }

  lemma {:induction false} StageStart(log: seq<Kind>, warmup: bool)
    requires StageOf(log, warmup) != Wrong
    ensures StageOf(log, warmup) == Boot <==> log == []
    ensures log != [] ==> log[0] == Startrun
    ensures forall q :: 0 < q < |log| ==> log[q] != Startrun
  {
    if log != [] {
      var n := |log| - 1;
      StageStart(log[..n], warmup);
      assert forall q :: 0 <= q < n ==> log[..n][q] == log[q];
    }
  }

  // ---- Invariant ------------------------------------------------------------------------------------

  /** Every slot round names the slot it opens. */
  ghost predicate LogOk(s: System) {
    && StageOf(s.log, s.warmup) != Wrong
    && (s.open ==> s.log != [])
    && forall q :: 0 <= q < |s.log| && s.log[q].SwitchSlot? ==> s.log[q].target == Slots(s.log[..q + 1])
  }

  ghost predicate SentOk(s: System) {
    forall m :: m in s.sent ==> m.1.num < |s.log| && m.1.kind == s.log[m.1.num] && Target(s, m.1.kind, m.0)
  }

  /** A reply comes from a node of the round that has processed the round's request, and tells the right slot. */
  ghost predicate ReplyOk(s: System, r: Response) {
    && r.num < |s.log| && r.kind == s.log[r.num] && Target(s, r.kind, r.from) && (r.from, r.num) in s.processed
    && (r.kind.SwitchSlot? ==> r.slot == r.kind.target)
    && (r.kind == FinishClients ==> r.slot == Slots(s.log[..r.num]))
  }

  ghost predicate RepliesOk(s: System) {
    forall r {:trigger ReplyOk(s, r)} :: r in s.replies ==> ReplyOk(s, r)
  }

  ghost predicate ProcessedOk(s: System) {
    forall p :: p in s.processed ==> p.1 < |s.log| && Target(s, s.log[p.1], p.0)
  }

  /** The barrier: every node of a closed round has processed its request. */
  ghost predicate Barrier(s: System) {
    forall q, i {:trigger (i, q) in s.processed} ::
      0 <= q < Closed(s) && 0 <= i && Target(s, s.log[q], i) ==> (i, q) in s.processed
  }

  ghost predicate GotOk(s: System) {
    forall i :: i in s.got && s.open ==>
      s.got[i] in s.replies && s.got[i].from == i && s.got[i].num == |s.log| - 1 && Target(s, s.log[|s.log| - 1], i)
  }

  /** Slot switches a client has yet to process: at most the one of the current round. */
  function Pending(s: System, i: nat): nat {
    if s.open && s.log != [] && s.log[|s.log| - 1].SwitchSlot? && (i, |s.log| - 1) !in s.processed then 1 else 0
  }

  /** A client is in the slot of the rounds it has processed and waits exactly until it has processed the first. */
  ghost predicate ClientOk(s: System, i: nat)
    requires i < |s.nodes|
  {
    && s.nodes[i].slot + Pending(s, i) == Slots(s.log)
    && (s.nodes[i].phase == Waiting <==> (i, 0) !in s.processed)
    && (s.nodes[i].phase == Running ==>
         forall q :: 0 <= q < |s.log| && s.log[q] == FinishClients ==> (i, q) !in s.processed)
  }

  ghost predicate ClientsOk(s: System) {
    && s.clients <= |s.nodes|
    && forall i: nat {:trigger ClientOk(s, i)} :: i < s.clients ==> ClientOk(s, i)
  }

  ghost predicate PeersOk(s: System) {
    forall i, q :: s.clients <= i < |s.nodes| && 0 <= q < |s.log| && s.log[q] == FinishPeers && (i, q) in s.processed
                   ==> s.nodes[i].phase == Stopped
  }

  /** Kinds a node cannot answer twice. */
  predicate Once(kind: Kind) {
    kind.Startrun? || kind.SwitchSlot? || kind.FinishClients? || kind.FinishPeers?
  }

  ghost predicate Unique(s: System) {
    forall r, r' ::
      r in s.replies && r' in s.replies && r.from == r'.from && r.num == r'.num && Once(r.kind) ==> r == r'
  }

  ghost predicate Inv(s: System) {
    && LogOk(s) && SentOk(s) && RepliesOk(s) && ProcessedOk(s) && Barrier(s)
    && GotOk(s) && ClientsOk(s) && PeersOk(s) && Unique(s)
  }

  lemma InitInv(clients: nat, peers: nat, warmup: bool)
    ensures Inv(Init(clients, peers, warmup))
  {
    var s := Init(clients, peers, warmup);
    forall i: nat | i < clients
      ensures ClientOk(s, i)
    {
    }
  }

  // ---- The evaluator's steps ------------------------------------------------------------------------

  lemma BeginLog(s: System, kind: Kind)
    requires LogOk(s) && Enabled(s, Begin(kind))
    ensures LogOk(Step(s, Begin(kind)))
  {
    var s' := Step(s, Begin(kind));
    SlotsAppend(s.log, kind);
    forall q | 0 <= q < |s'.log| && s'.log[q].SwitchSlot?
      ensures s'.log[q].target == Slots(s'.log[..q + 1])
    {
      if q < |s.log| {
        assert s'.log[..q + 1] == s.log[..q + 1];
      } else {
        assert s'.log[..q + 1] == s'.log;
      }
    }
  }

  lemma BeginKeeps(s: System, kind: Kind)
    requires Inv(s) && Enabled(s, Begin(kind))
    ensures Inv(Step(s, Begin(kind)))
  {
    var s' := Step(s, Begin(kind));
    BeginLog(s, kind);
    SlotsAppend(s.log, kind);
    forall r | r in s'.replies
      ensures ReplyOk(s', r)
    {
      assert ReplyOk(s, r);
      assert s'.log[..r.num] == s.log[..r.num];
    }
    forall i: nat | i < s.clients
      ensures ClientOk(s', i)
    {
      assert ClientOk(s, i);
    }
    assert Barrier(s');
  }

  lemma SendKeeps(s: System, to: nat)
    requires Inv(s) && Enabled(s, Send(to))
    ensures Inv(Step(s, Send(to)))
  {
    var s' := Step(s, Send(to));
    forall r | r in s'.replies
      ensures ReplyOk(s', r)
    {
      assert ReplyOk(s, r);
    }
    forall i: nat | i < s.clients
      ensures ClientOk(s', i)
    {
      assert ClientOk(s, i);
    }
    assert Barrier(s');
  }

  lemma RecvKeeps(s: System, r: Response)
    requires Inv(s) && Enabled(s, Recv(r))
    ensures Inv(Step(s, Recv(r)))
  {
    var s' := Step(s, Recv(r));
    forall r' | r' in s'.replies
      ensures ReplyOk(s', r')
    {
      assert ReplyOk(s, r');
    }
    forall i: nat | i < s.clients
      ensures ClientOk(s', i)
    {
      assert ClientOk(s, i);
    }
    assert Barrier(s');
  }

  lemma EndKeeps(s: System)
    requires Inv(s) && Enabled(s, End)
    ensures Inv(Step(s, End))
  {
    var s' := Step(s, End);
    var last := |s.log| - 1;
    forall i | 0 <= i < |s.nodes| && Target(s, s.log[last], i)
      ensures (i, last) in s.processed
    {
      assert ReplyOk(s, s.got[i]);
    }
    forall r | r in s'.replies
      ensures ReplyOk(s', r)
    {
      assert ReplyOk(s, r);
    }
    forall i: nat | i < s.clients
      ensures ClientOk(s', i)
    {
      assert ClientOk(s, i);
    }
    assert Barrier(s');
  }

  // ---- Delivery -------------------------------------------------------------------------------------

  /** A waiting client can only be met by the first request. */
  lemma WaitingSeesFirst(s: System, to: nat, r: Request)
    requires Inv(s) && to < s.clients && (to, r) in s.sent && s.nodes[to].phase == Waiting
    ensures r.num == 0 && r.kind == Startrun && |s.log| == 1
  {
    assert ClientOk(s, to);
    StageStart(s.log, s.warmup);
    assert (to, r).1 == r;
    var first := (to, 0) in s.processed;
    assert |s.log| > 1 ==> Target(s, s.log[0], to);
  }

  /** A client takes a slot switch exactly when it is the open round's and not yet processed. */
  lemma SwitchIsCurrent(s: System, to: nat, r: Request)
    requires Inv(s) && to < s.clients && (to, r) in s.sent && r.kind.SwitchSlot?
    ensures r.kind.target == s.nodes[to].slot + 1 <==> (to, r.num) !in s.processed
    ensures (to, r.num) !in s.processed ==> s.open && r.num == |s.log| - 1
  {
    assert ClientOk(s, to);
    assert (to, r).1 == r;
    var last := |s.log| - 1;
    assert r.kind.target == Slots(s.log[..r.num + 1]);
    assert s.log[..last + 1] == s.log;
    assert Slots(s.log) == Slots(s.log[..last]) + if s.log[last].SwitchSlot? then 1 else 0;
    SlotsMonotone(s.log, r.num + 1, |s.log|);
    if r.num < last {
      assert Target(s, s.log[r.num], to);
      SlotsMonotone(s.log, r.num + 1, last);
    }
  }

  lemma FinishIsFirst(s: System, to: nat, r: Request)
    requires Inv(s) && to < s.clients && (to, r) in s.sent && r.kind == FinishClients && s.nodes[to].phase == Running
    ensures (to, r.num) !in s.processed && r.num == |s.log| - 1
    ensures s.nodes[to].slot == Slots(s.log[..r.num])
  {
    assert ClientOk(s, to);
    assert (to, r).1 == r;
    assert Target(s, s.log[r.num], to);
  }

  /** What a node cannot answer twice it has not answered before. */
  lemma FirstReply(s: System, to: nat, r: Request, stats: int)
    requires Inv(s) && Enabled(s, Deliver(to, r, stats)) && Handled(s, to, r, stats).1.Some? && Once(r.kind)
    ensures (to, r.num) !in s.processed
  {
    assert (to, r).1 == r;
    if to < s.clients {
      assert ClientOk(s, to);
      if s.nodes[to].phase == Waiting {
        WaitingSeesFirst(s, to, r);
      } else if r.kind.SwitchSlot? {
        SwitchIsCurrent(s, to, r);
      } else if r.kind == FinishClients {
        FinishIsFirst(s, to, r);
      }
    }
  }

  lemma NewReply(s: System, to: nat, r: Request, stats: int)
    requires Inv(s) && Enabled(s, Deliver(to, r, stats)) && Handled(s, to, r, stats).1.Some?
    ensures ReplyOk(Delivered(s, to, r, stats), Handled(s, to, r, stats).1.value)
  {
    assert (to, r).1 == r;
    if to < s.clients && s.nodes[to].phase == Running && r.kind == FinishClients {
      FinishIsFirst(s, to, r);
    }
  }

  lemma DeliveredReplies(s: System, to: nat, r: Request, stats: int)
    requires Inv(s) && Enabled(s, Deliver(to, r, stats))
    ensures RepliesOk(Delivered(s, to, r, stats)) && Unique(Delivered(s, to, r, stats))
  {
    var s' := Delivered(s, to, r, stats);
    var reply := Handled(s, to, r, stats).1;
    if reply.Some? {
      NewReply(s, to, r, stats);
      assert reply.value.from == to && reply.value.num == r.num && reply.value.kind == r.kind;
      if Once(r.kind) {
        FirstReply(s, to, r, stats);
      }
    }
    forall x | x in s'.replies
      ensures ReplyOk(s', x)
    {
      if x in s.replies {
        assert ReplyOk(s, x);
      }
    }
    forall x, y | x in s'.replies && y in s'.replies && x.from == y.from && x.num == y.num && Once(x.kind)
      ensures x == y
    {
      assert ReplyOk(s', x) && ReplyOk(s', y);
      assert x in s.replies ==> ReplyOk(s, x);
      assert y in s.replies ==> ReplyOk(s, y);
    }
  }

  /** Delivery to a client, case by case. */
  lemma DeliveredClient(s: System, to: nat, r: Request, stats: int)
    requires Inv(s) && Enabled(s, Deliver(to, r, stats)) && to < s.clients
    ensures ClientOk(Delivered(s, to, r, stats), to)
  {
    assert ClientOk(s, to);
    if s.nodes[to].phase == Waiting {
      WaitingSeesFirst(s, to, r);
      assert s.log[..0] == [];
    } else if s.nodes[to].phase == Running {
      if r.kind.SwitchSlot? {
        DeliveredSwitch(s, to, r, stats);
      } else {
        DeliveredOther(s, to, r, stats);
      }
    }
  }

  lemma DeliveredSwitch(s: System, to: nat, r: Request, stats: int)
    requires Inv(s) && Enabled(s, Deliver(to, r, stats)) && to < s.clients
    requires s.nodes[to].phase == Running && r.kind.SwitchSlot?
    ensures ClientOk(Delivered(s, to, r, stats), to)
  {
    assert ClientOk(s, to);
    assert (to, r).1 == r;
    SwitchIsCurrent(s, to, r);
  }

  /** An answer to anything but a slot switch leaves what is pending alone. */
  lemma PendingSame(s: System, to: nat, r: Request, stats: int)
    requires to < |s.nodes| && r.num < |s.log| && !s.log[r.num].SwitchSlot?
    ensures Pending(Delivered(s, to, r, stats), to) == Pending(s, to)
  {
  }

  lemma DeliveredOther(s: System, to: nat, r: Request, stats: int)
    requires Inv(s) && Enabled(s, Deliver(to, r, stats)) && to < s.clients
    requires s.nodes[to].phase == Running && !r.kind.SwitchSlot?
    ensures ClientOk(Delivered(s, to, r, stats), to)
  {
    assert ClientOk(s, to);
    assert (to, r).1 == r;
    assert s.log[r.num] == r.kind;
    PendingSame(s, to, r, stats);
    OtherNode(s.nodes[to], to, r, stats);
  }

  lemma OtherNode(x: Node, to: nat, r: Request, stats: int)
    requires x.phase == Running && !r.kind.SwitchSlot?
    ensures var (y, reply) := ClientHandle(x, to, r, stats);
            && y.slot == x.slot && y.phase != Waiting
            && (y.phase == Running ==> reply.None? || r.kind != FinishClients)
  {
  }

  lemma DeliveredClients(s: System, to: nat, r: Request, stats: int)
    requires Inv(s) && Enabled(s, Deliver(to, r, stats))
    ensures ClientsOk(Delivered(s, to, r, stats))
  {
    var s' := Delivered(s, to, r, stats);
    forall i: nat | i < s.clients
      ensures ClientOk(s', i)
    {
      if i == to {
        DeliveredClient(s, to, r, stats);
      } else {
        assert ClientOk(s, i);
      }
    }
  }

  lemma DeliveredTables(s: System, to: nat, r: Request, stats: int)
    requires Inv(s) && Enabled(s, Deliver(to, r, stats))
    ensures var s' := Delivered(s, to, r, stats); LogOk(s') && SentOk(s') && ProcessedOk(s')
  {
    assert (to, r).1 == r;
  }

  lemma DeliveredBarrier(s: System, to: nat, r: Request, stats: int)
    requires Inv(s) && Enabled(s, Deliver(to, r, stats))
    ensures Barrier(Delivered(s, to, r, stats))
  {
  }

  lemma DeliveredGot(s: System, to: nat, r: Request, stats: int)
    requires Inv(s) && Enabled(s, Deliver(to, r, stats))
    ensures GotOk(Delivered(s, to, r, stats))
  {
  }

  lemma DeliveredPeers(s: System, to: nat, r: Request, stats: int)
    requires Inv(s) && Enabled(s, Deliver(to, r, stats))
    ensures PeersOk(Delivered(s, to, r, stats))
  {
    assert (to, r).1 == r;
  }

  lemma DeliverKeeps(s: System, to: nat, r: Request, stats: int)
    requires Inv(s) && Enabled(s, Deliver(to, r, stats))
    ensures Inv(Delivered(s, to, r, stats))
  {
    DeliveredReplies(s, to, r, stats);
    DeliveredClients(s, to, r, stats);
    DeliveredTables(s, to, r, stats);
    DeliveredBarrier(s, to, r, stats);
    DeliveredGot(s, to, r, stats);
    DeliveredPeers(s, to, r, stats);
  }

  lemma StepKeeps(s: System, a: Action)
    requires Inv(s) && Enabled(s, a)
    ensures Inv(Step(s, a))
  {
    match a
    case Begin(kind) => BeginKeeps(s, kind);
    case Send(to) => SendKeeps(s, to);
    case Deliver(to, r, stats) => DeliverKeeps(s, to, r, stats);
    case Recv(r) => RecvKeeps(s, r);
    case End => EndKeeps(s);
  }

  // ---- Runs -----------------------------------------------------------------------------------------

  /** The state after some actions; none if one of them was not possible. */
  function Run(s: System, actions: seq<Action>): Option<System> {
    if actions == [] then Some(s)
    else
      var r := Run(s, actions[..|actions| - 1]);
      if r.None? || !Enabled(r.value, actions[|actions| - 1]) then None
      else Some(Step(r.value, actions[|actions| - 1]))
  }

  lemma {:induction false} RunInv(clients: nat, peers: nat, warmup: bool, actions: seq<Action>)
    requires Run(Init(clients, peers, warmup), actions).Some?
    ensures Inv(Run(Init(clients, peers, warmup), actions).value)
  {
    if actions == [] {
      InitInv(clients, peers, warmup);
    } else {
      var n := |actions| - 1;
      RunInv(clients, peers, warmup, actions[..n]);
      StepKeeps(Run(Init(clients, peers, warmup), actions[..n]).value, actions[n]);
    }
  }

  /**
   When a round returns, every node of it has processed its request, and what is held for a node is one of that node's
   replies to this very round; where a node cannot answer twice it is the only one.
   */
  lemma RoundBarrier(clients: nat, peers: nat, warmup: bool, actions: seq<Action>, i: nat)
    requires var r := Run(Init(clients, peers, warmup), actions);
             r.Some? && Enabled(r.value, End) && Target(r.value, r.value.log[|r.value.log| - 1], i)
    ensures var s := Run(Init(clients, peers, warmup), actions).value;
            var last := |s.log| - 1;
            && (i, last) in s.processed
            && i in s.got && s.got[i] in s.replies && s.got[i].from == i && s.got[i].num == last
            && (Once(s.log[last]) ==> forall r :: r in s.replies && r.from == i && r.num == last ==> r == s.got[i])
  {
    RunInv(clients, peers, warmup, actions);
    var s := Run(Init(clients, peers, warmup), actions).value;
    assert ReplyOk(s, s.got[i]);
  }

  /** The evaluator's assertions on a reply that is not stale: its type, its sender and its slot. */
  lemma ReplyAssertions(clients: nat, peers: nat, warmup: bool, actions: seq<Action>, r: Response)
    requires var s := Run(Init(clients, peers, warmup), actions);
             s.Some? && Enabled(s.value, Recv(r)) && r.num == |s.value.log| - 1
    ensures var s := Run(Init(clients, peers, warmup), actions).value;
            var kind := s.log[|s.log| - 1];
            && r.kind == kind && Target(s, kind, r.from)
            && (kind.SwitchSlot? || kind == FinishClients ==> r.slot == Slots(s.log))
  {
    RunInv(clients, peers, warmup, actions);
    var s := Run(Init(clients, peers, warmup), actions).value;
    assert ReplyOk(s, r);
    var last := |s.log| - 1;
    assert s.log[..last + 1] == s.log;
  }

  /** Between rounds all clients are in the evaluator's slot. */
  lemma SlotsAgree(clients: nat, peers: nat, warmup: bool, actions: seq<Action>, i: nat)
    requires var r := Run(Init(clients, peers, warmup), actions); r.Some? && !r.value.open && i < clients
    ensures var s := Run(Init(clients, peers, warmup), actions).value;
            i < |s.nodes| && s.clients == clients && s.nodes[i].slot == Slots(s.log)
  {
    RunInv(clients, peers, warmup, actions);
    RunClients(clients, peers, warmup, actions);
    var s := Run(Init(clients, peers, warmup), actions).value;
    assert ClientOk(s, i);
  }

  lemma {:induction false} RunClients(clients: nat, peers: nat, warmup: bool, actions: seq<Action>)
    requires Run(Init(clients, peers, warmup), actions).Some?
    ensures Run(Init(clients, peers, warmup), actions).value.clients == clients
  {
    if actions != [] {
      RunClients(clients, peers, warmup, actions[..|actions| - 1]);
    }
  }

  // ---- Retransmission -------------------------------------------------------------------------------

  /**
   A request makes a live client crash exactly when the client has processed it before and it is a start or a slot
   switch. So a lost reply of those rounds is never made up for by sending the request again.
   */
  lemma CrashIff(s: System, to: nat, r: Request, stats: int)
    requires Inv(s) && to < s.clients && Enabled(s, Deliver(to, r, stats)) && s.nodes[to].phase != Crashed
    ensures Delivered(s, to, r, stats).nodes[to].phase == Crashed <==>
            s.nodes[to].phase == Running && (to, r.num) in s.processed && (r.kind == Startrun || r.kind.SwitchSlot?)
  {
    assert ClientOk(s, to);
    assert (to, r).1 == r;
    StageStart(s.log, s.warmup);
    if s.nodes[to].phase == Waiting {
      WaitingSeesFirst(s, to, r);
    } else if r.kind.SwitchSlot? {
      SwitchIsCurrent(s, to, r);
    }
  }

  lemma NoSecondReply(s: System, to: nat, r: Request, stats: int)
    requires Inv(s) && Enabled(s, Deliver(to, r, stats)) && Once(r.kind) && (to, r.num) in s.processed
    ensures Delivered(s, to, r, stats).replies == s.replies
  {
    if Handled(s, to, r, stats).1.Some? {
      FirstReply(s, to, r, stats);
    }
  }

  // ---- Rule updates are applied as often as they are delivered --------------------------------------

  /** A running client takes a rule update every time it is delivered. */
  function TakenBy(r: Option<System>, a: Action): multiset<(nat, nat)> {
    if r.Some? && a.Deliver? && a.to < r.value.clients && a.to < |r.value.nodes| && a.request.kind == UpdateRules &&
       r.value.nodes[a.to].phase == Running
    then multiset{(a.to, a.request.num)} else multiset{}
  }

  /** All rule updates taken in a run, by client and round. */
  function Applied(s: System, actions: seq<Action>): multiset<(nat, nat)> {
    if actions == [] then multiset{}
    else
      var shorter := actions[..|actions| - 1];
      Applied(s, shorter) + TakenBy(Run(s, shorter), actions[|actions| - 1])
  }

  /** How often a client took the updates of the first `n` rounds. */
  function Total(m: multiset<(nat, nat)>, i: nat, n: nat): nat {
    if n == 0 then 0 else Total(m, i, n - 1) + m[(i, n - 1)]
  }

  function RuleRounds(log: seq<Kind>): nat {
    if log == [] then 0 else RuleRounds(log[..|log| - 1]) + if log[|log| - 1] == UpdateRules then 1 else 0
  }

  lemma {:induction false} TotalAdd(m: multiset<(nat, nat)>, to: nat, q: nat, i: nat, n: nat)
    ensures Total(m + multiset{(to, q)}, i, n) == Total(m, i, n) + if i == to && q < n then 1 else 0
  {
    if n > 0 {
      TotalAdd(m, to, q, i, n - 1);
    }
  }

  ghost predicate RulesAt(s: System, m: multiset<(nat, nat)>, i: nat)
    requires i < |s.nodes|
  {
    && s.nodes[i].rules == Total(m, i, |s.log|)
    && forall q :: 0 <= q < |s.log| && s.log[q] == UpdateRules && (i, q) in s.processed ==> m[(i, q)] >= 1
  }

  ghost predicate RulesOk(s: System, m: multiset<(nat, nat)>) {
    && (forall p :: p in m ==> p.1 < |s.log| && s.log[p.1] == UpdateRules)
    && (forall i: nat {:trigger RulesAt(s, m, i)} :: i < s.clients && i < |s.nodes| ==> RulesAt(s, m, i))
  }

  lemma RulesBegin(s: System, m: multiset<(nat, nat)>, kind: Kind)
    requires Inv(s) && RulesOk(s, m) && Enabled(s, Begin(kind))
    ensures RulesOk(Step(s, Begin(kind)), m)
  {
    var s' := Step(s, Begin(kind));
    forall i: nat | i < s.clients && i < |s.nodes|
      ensures RulesAt(s', m, i)
    {
      assert RulesAt(s, m, i);
      assert (i, |s.log|) !in m && (i, |s.log|) !in s.processed;
    }
  }

  lemma RulesSame(s: System, s': System, m: multiset<(nat, nat)>)
    requires RulesOk(s, m) && s'.log == s.log && s'.nodes == s.nodes && s'.clients == s.clients
    requires s'.processed == s.processed
    ensures RulesOk(s', m)
  {
    forall i: nat | i < s'.clients && i < |s'.nodes|
      ensures RulesAt(s', m, i)
    {
      assert RulesAt(s, m, i);
    }
  }

  lemma RulesOther(s: System, m: multiset<(nat, nat)>, to: nat, r: Request, stats: int, i: nat)
    requires to < |s.nodes| && i < |s.nodes| && i != to && RulesAt(s, m, i)
    ensures RulesAt(Delivered(s, to, r, stats), m + TakenBy(Some(s), Deliver(to, r, stats)), i)
  {
    TotalAdd(m, to, r.num, i, |s.log|);
    assert m + multiset{} == m;
  }

  lemma RulesSelf(s: System, m: multiset<(nat, nat)>, to: nat, r: Request, stats: int)
    requires to < s.clients && to < |s.nodes| && RulesAt(s, m, to) && r.num < |s.log| && r.kind == s.log[r.num]
    ensures RulesAt(Delivered(s, to, r, stats), m + TakenBy(Some(s), Deliver(to, r, stats)), to)
  {
    TotalAdd(m, to, r.num, to, |s.log|);
    assert m + multiset{} == m;
    TakenOnce(s, to, r, stats);
  }

  lemma RulesDeliver(s: System, m: multiset<(nat, nat)>, to: nat, r: Request, stats: int)
    requires Inv(s) && RulesOk(s, m) && Enabled(s, Deliver(to, r, stats))
    ensures RulesOk(Delivered(s, to, r, stats), m + TakenBy(Some(s), Deliver(to, r, stats)))
  {
    var s' := Delivered(s, to, r, stats);
    var m' := m + TakenBy(Some(s), Deliver(to, r, stats));
    assert (to, r).1 == r && r.num < |s.log| && r.kind == s.log[r.num];
    forall i: nat | i < s'.clients && i < |s'.nodes|
      ensures RulesAt(s', m', i)
    {
      assert RulesAt(s, m, i);
      if i == to {
        RulesSelf(s, m, to, r, stats);
      } else {
        RulesOther(s, m, to, r, stats, i);
      }
    }
  }

  /** What one delivery does to a client's rules. */
  lemma TakenOnce(s: System, to: nat, r: Request, stats: int)
    requires to < s.clients && to < |s.nodes|
    ensures var s' := Delivered(s, to, r, stats);
            var taken := TakenBy(Some(s), Deliver(to, r, stats));
            && s'.nodes[to].rules == s.nodes[to].rules + |taken|
            && taken == (if s'.nodes[to].rules > s.nodes[to].rules then multiset{(to, r.num)} else multiset{})
            && (r.kind == UpdateRules && (to, r.num) in s'.processed ==>
                 (to, r.num) in s.processed || (to, r.num) in taken)
  {
  }

  lemma {:induction false} RulesInv(clients: nat, peers: nat, warmup: bool, actions: seq<Action>)
    requires Run(Init(clients, peers, warmup), actions).Some?
    ensures RulesOk(Run(Init(clients, peers, warmup), actions).value, Applied(Init(clients, peers, warmup), actions))
  {
    if actions == [] {
      assert forall i: nat :: i < clients ==> RulesAt(Init(clients, peers, warmup), multiset{}, i);
    } else {
      var n := |actions| - 1;
      RulesInv(clients, peers, warmup, actions[..n]);
      RunInv(clients, peers, warmup, actions[..n]);
      var s := Run(Init(clients, peers, warmup), actions[..n]).value;
      RulesStep(s, Applied(Init(clients, peers, warmup), actions[..n]), actions[n]);
    }
  }

  lemma RulesStep(s: System, m: multiset<(nat, nat)>, a: Action)
    requires Inv(s) && RulesOk(s, m) && Enabled(s, a)
    ensures RulesOk(Step(s, a), m + TakenBy(Some(s), a))
  {
    match a
    case Begin(kind) =>
      RulesBegin(s, m, kind);
      assert m + multiset{} == m;
    case Deliver(to, r, stats) =>
      RulesDeliver(s, m, to, r, stats);
    case _ =>
      RulesSame(s, Step(s, a), m);
      assert m + multiset{} == m;
  }

  lemma {:induction false} TotalBound(m: multiset<(nat, nat)>, log: seq<Kind>, i: nat, n: nat)
    requires n <= |log|
    requires forall q :: 0 <= q < n ==> if log[q] == UpdateRules then m[(i, q)] >= 1 else m[(i, q)] == 0
    ensures Total(m, i, n) >= RuleRounds(log[..n])
    ensures Total(m, i, n) == RuleRounds(log[..n]) <==>
            forall q :: 0 <= q < n && log[q] == UpdateRules ==> m[(i, q)] == 1
  {
    if n > 0 {
      TotalBound(m, log, i, n - 1);
      assert log[..n][..n - 1] == log[..n - 1];
      assert RuleRounds(log[..n]) == RuleRounds(log[..n - 1]) + if log[n - 1] == UpdateRules then 1 else 0;
    }
  }

  /**
   Over every run a client has applied exactly the rule updates it took while running. Between rounds that is at least
   the number of rule rounds, and exactly that number if and only if it took each of them once.
   */
  lemma RulesCount(clients: nat, peers: nat, warmup: bool, actions: seq<Action>, i: nat)
    requires var r := Run(Init(clients, peers, warmup), actions); r.Some? && !r.value.open && i < clients
    ensures var s := Run(Init(clients, peers, warmup), actions).value;
            var m := Applied(Init(clients, peers, warmup), actions);
            && i < |s.nodes| && s.nodes[i].rules == Total(m, i, |s.log|) && s.nodes[i].rules >= RuleRounds(s.log)
            && (s.nodes[i].rules == RuleRounds(s.log) <==>
                 forall q :: 0 <= q < |s.log| && s.log[q] == UpdateRules ==> m[(i, q)] == 1)
  {
    RunInv(clients, peers, warmup, actions);
    RunClients(clients, peers, warmup, actions);
    RulesInv(clients, peers, warmup, actions);
    var s := Run(Init(clients, peers, warmup), actions).value;
    var m := Applied(Init(clients, peers, warmup), actions);
    assert ClientOk(s, i) && RulesAt(s, m, i);
    forall q | 0 <= q < |s.log|
      ensures if s.log[q] == UpdateRules then m[(i, q)] >= 1 else m[(i, q)] == 0
    {
      if s.log[q] == UpdateRules {
        assert Target(s, s.log[q], i);
        assert (i, q) in s.processed;
      } else {
        assert (i, q) !in m;
      }
    }
    TotalBound(m, s.log, i, |s.log|);
    assert s.log[..|s.log|] == s.log;
  }

  lemma RunSnoc(s: System, actions: seq<Action>, s1: System, a: Action)
    requires Run(s, actions) == Some(s1) && Enabled(s1, a)
    ensures Run(s, actions + [a]) == Some(Step(s1, a))
  {
    assert (actions + [a])[..|actions|] == actions;
  }

  const START := Request(0, Startrun)
  const STARTED := Response(0, 0, Startrun, 0, 0)
  const UPDATE := Request(1, UpdateRules)
  const UPDATED := Response(0, 1, UpdateRules, 0, 0)

  /** One client and the cloud. */
  function Pair(phase: Phase, rules: nat, sent: set<(nat, Request)>, replies: set<Response>, log: seq<Kind>, open: bool,
                got: map<nat, Response>, processed: set<(nat, nat)>): System
  {
    var nodes := [Node(phase, 0, false, rules), Node(Running, 0, false, 0)];
    System(1, false, nodes, sent, replies, log, open, got, processed)
  }

  lemma Then(acts: seq<Action>, s: System, a: Action, s': System)
    requires Run(Init(1, 1, false), acts) == Some(s) && Enabled(s, a) && Step(s, a) == s'
    ensures Run(Init(1, 1, false), acts + [a]) == Some(s')
  {
    RunSnoc(Init(1, 1, false), acts, s, a);
  }

  lemma Asking(acts: seq<Action>)
    requires Run(Init(1, 1, false), acts) == Some(Pair(Waiting, 0, {}, {}, [], false, map[], {}))
    ensures Run(Init(1, 1, false), acts + [Begin(Startrun)] + [Send(0)]) ==
            Some(Pair(Waiting, 0, {(0, START)}, {}, [Startrun], true, map[], {}))
  {
    StageAppend([], Startrun, false);
    assert [] + [Startrun] == [Startrun];
    var s1 := Pair(Waiting, 0, {}, {}, [Startrun], true, map[], {});
    var s2 := Pair(Waiting, 0, {(0, START)}, {}, [Startrun], true, map[], {});
    Then(acts, Pair(Waiting, 0, {}, {}, [], false, map[], {}), Begin(Startrun), s1);
    Then(acts + [Begin(Startrun)], s1, Send(0), s2);
  }

  lemma Starting(acts: seq<Action>)
    requires Run(Init(1, 1, false), acts) == Some(Pair(Waiting, 0, {}, {}, [], false, map[], {}))
    ensures Run(Init(1, 1, false), acts + [Begin(Startrun)] + [Send(0)] + [Deliver(0, START, 0)]) ==
            Some(Pair(Running, 0, {(0, START)}, {STARTED}, [Startrun], true, map[], {(0, 0)}))
  {
    Asking(acts);
    var s2 := Pair(Waiting, 0, {(0, START)}, {}, [Startrun], true, map[], {});
    var s3 := Pair(Running, 0, {(0, START)}, {STARTED}, [Startrun], true, map[], {(0, 0)});
    assert Step(s2, Deliver(0, START, 0)).nodes == s3.nodes;
    Then(acts + [Begin(Startrun)] + [Send(0)], s2, Deliver(0, START, 0), s3);
  }

  lemma Acknowledged(acts: seq<Action>)
    requires Run(Init(1, 1, false), acts) ==
             Some(Pair(Running, 0, {(0, START)}, {STARTED}, [Startrun], true, map[], {(0, 0)}))
    ensures Run(Init(1, 1, false), acts + [Recv(STARTED)]) ==
            Some(Pair(Running, 0, {(0, START)}, {STARTED}, [Startrun], true, map[0 := STARTED], {(0, 0)}))
  {
    var s := Pair(Running, 0, {(0, START)}, {STARTED}, [Startrun], true, map[], {(0, 0)});
    var s1 := Pair(Running, 0, {(0, START)}, {STARTED}, [Startrun], true, map[0 := STARTED], {(0, 0)});
    assert Received(s, STARTED) == s1;
    Then(acts, s, Recv(STARTED), s1);
  }

  lemma Started(acts: seq<Action>)
    requires Run(Init(1, 1, false), acts) ==
             Some(Pair(Running, 0, {(0, START)}, {STARTED}, [Startrun], true, map[0 := STARTED], {(0, 0)}))
    ensures Run(Init(1, 1, false), acts + [End]) ==
            Some(Pair(Running, 0, {(0, START)}, {STARTED}, [Startrun], false, map[0 := STARTED], {(0, 0)}))
  {
    var s1 := Pair(Running, 0, {(0, START)}, {STARTED}, [Startrun], true, map[0 := STARTED], {(0, 0)});
    var s2 := Pair(Running, 0, {(0, START)}, {STARTED}, [Startrun], false, map[0 := STARTED], {(0, 0)});
    Then(acts, s1, End, s2);
  }

  lemma Updating(acts: seq<Action>)
    requires Run(Init(1, 1, false), acts) ==
             Some(Pair(Running, 0, {(0, START)}, {STARTED}, [Startrun], false, map[0 := STARTED], {(0, 0)}))
    ensures Run(Init(1, 1, false), acts + [Begin(UpdateRules)] + [Send(0)]) ==
            Some(Pair(Running, 0, {(0, START), (0, UPDATE)}, {STARTED}, [Startrun, UpdateRules], true, map[], {(0, 0)}))
  {
    StageAppend([], Startrun, false);
    StageAppend([Startrun], UpdateRules, false);
    assert [] + [Startrun] == [Startrun] && [Startrun] + [UpdateRules] == [Startrun, UpdateRules];
    var s := Pair(Running, 0, {(0, START)}, {STARTED}, [Startrun], false, map[0 := STARTED], {(0, 0)});
    var s1 := Pair(Running, 0, {(0, START)}, {STARTED}, [Startrun, UpdateRules], true, map[], {(0, 0)});
    var s2 := Pair(Running, 0, {(0, START), (0, UPDATE)}, {STARTED}, [Startrun, UpdateRules], true, map[], {(0, 0)});
    Then(acts, s, Begin(UpdateRules), s1);
    Then(acts + [Begin(UpdateRules)], s1, Send(0), s2);
  }

  lemma Repeating(acts: seq<Action>)
    requires Run(Init(1, 1, false), acts) ==
             Some(Pair(Running, 0, {(0, START), (0, UPDATE)}, {STARTED}, [Startrun, UpdateRules], true, map[],
                       {(0, 0)}))
    ensures Run(Init(1, 1, false), acts + [Deliver(0, UPDATE, 0)] + [Deliver(0, UPDATE, 0)]) ==
            Some(Pair(Running, 2, {(0, START), (0, UPDATE)}, {STARTED, UPDATED}, [Startrun, UpdateRules], true, map[],
                      {(0, 0), (0, 1)}))
  {
    var sent, log := {(0, START), (0, UPDATE)}, [Startrun, UpdateRules];
    var s := Pair(Running, 0, sent, {STARTED}, log, true, map[], {(0, 0)});
    var s1 := Pair(Running, 1, sent, {STARTED, UPDATED}, log, true, map[], {(0, 0), (0, 1)});
    var s2 := Pair(Running, 2, sent, {STARTED, UPDATED}, log, true, map[], {(0, 0), (0, 1)});
    assert Step(s, Deliver(0, UPDATE, 0)).nodes == s1.nodes && Step(s1, Deliver(0, UPDATE, 0)).nodes == s2.nodes;
    Then(acts, s, Deliver(0, UPDATE, 0), s1);
    Then(acts + [Deliver(0, UPDATE, 0)], s1, Deliver(0, UPDATE, 0), s2);
  }

  /** A run in which one rule round changes a client's rules twice. */
  lemma RulesTwice() returns (acts: seq<Action>)
    ensures acts == [Begin(Startrun), Send(0), Deliver(0, START, 0), Recv(STARTED), End, Begin(UpdateRules), Send(0),
                     Deliver(0, UPDATE, 0), Deliver(0, UPDATE, 0)]
    ensures var s := Run(Init(1, 1, false), acts);
            && s.Some? && s.value.log == [Startrun, UpdateRules] && |s.value.nodes| == 2 && s.value.nodes[0].rules == 2
  {
    acts := [];
    assert Init(1, 1, false) == Pair(Waiting, 0, {}, {}, [], false, map[], {});
    Starting(acts);
    acts := acts + [Begin(Startrun)] + [Send(0)] + [Deliver(0, START, 0)];
    Acknowledged(acts);
    acts := acts + [Recv(STARTED)];
    Started(acts);
    acts := acts + [End];
    Updating(acts);
    acts := acts + [Begin(UpdateRules)] + [Send(0)];
    Repeating(acts);
    acts := acts + [Deliver(0, UPDATE, 0)] + [Deliver(0, UPDATE, 0)];
  }

  /** One request, delivered twice, stops the only client. */
  lemma DuplicateCrashes() returns (acts: seq<Action>)
    ensures acts == [Begin(Startrun), Send(0), Deliver(0, START, 0), Deliver(0, START, 0)]
    ensures var s := Run(Init(1, 1, false), acts);
            s.Some? && |s.value.nodes| == 2 && s.value.nodes[0].phase == Crashed
  {
    acts := [];
    assert Init(1, 1, false) == Pair(Waiting, 0, {}, {}, [], false, map[], {});
    Starting(acts);
    acts := acts + [Begin(Startrun)] + [Send(0)] + [Deliver(0, START, 0)];
    var s := Pair(Running, 0, {(0, START)}, {STARTED}, [Startrun], true, map[], {(0, 0)});
    RunSnoc(Init(1, 1, false), acts, s, Deliver(0, START, 0));
    acts := acts + [Deliver(0, START, 0)];
  }

  // ---- Phase order ----------------------------------------------------------------------------------

  predicate SlotsOnly(log: seq<Kind>, i: nat, j: nat)
    requires i <= j <= |log|
  {
    forall q :: i <= q < j ==> log[q].SwitchSlot?
  }

  predicate StressOnly(log: seq<Kind>, i: nat, j: nat)
    requires i <= j <= |log|
  {
    forall q :: i <= q < j ==> log[q].SwitchSlot? || log[q] == UpdateRules
  }

  /** Where the warmup ends: the position of its last round. */
  ghost predicate Warmed(log: seq<Kind>, warmup: bool, m: nat, j: nat)
    requires j <= |log|
  {
    && m < j && log[0] == Startrun && StressOnly(log, m + 1, j)
    && if warmup then 0 < m && SlotsOnly(log, 1, m) && log[m] == FinishWarmup else m == 0
  }

  ghost predicate Stressed(log: seq<Kind>, warmup: bool, j: nat)
    requires j <= |log|
  {
    exists m: nat :: Warmed(log, warmup, m, j)
  }

  ghost predicate SnapshotDumped(log: seq<Kind>, warmup: bool, j: nat)
    requires j <= |log|
  {
    warmup && j >= 2 && log[0] == Startrun && SlotsOnly(log, 1, j - 1) && log[j - 1] == DumpSnapshot
  }

  /** What the log looks like in each stage. */
  ghost predicate Shaped(log: seq<Kind>, warmup: bool, j: nat, stage: Stage)
    requires j <= |log|
  {
    match stage
    case Boot => j == 0
    case Warm => warmup && j >= 1 && log[0] == Startrun && SlotsOnly(log, 1, j)
    case Stress => Stressed(log, warmup, j)
    case Dumped => SnapshotDumped(log, warmup, j)
    case Draining =>
      && j >= 1 && log[j - 1] == FinishClients
      && (SnapshotDumped(log, warmup, j - 1) || Stressed(log, warmup, j - 1))
    case Done =>
      && j >= 2 && log[j - 1] == FinishPeers && log[j - 2] == FinishClients
      && (SnapshotDumped(log, warmup, j - 2) || Stressed(log, warmup, j - 2))
    case Wrong => true
  }

  /**
   A run that ends normally is a start, slot switches, the end of the warmup, slot switches and rule updates, then the
   clients' and the peers' finish; or, for a snapshot, a start, slot switches, the dump and the two finishes.
   */
  lemma {:induction false} PhaseOrder(log: seq<Kind>, warmup: bool, j: nat)
    requires j <= |log|
    ensures Shaped(log, warmup, j, StageOf(log[..j], warmup))
  {
    if j > 0 {
      PhaseOrder(log, warmup, j - 1);
      assert log[..j][..j - 1] == log[..j - 1];
      var before := StageOf(log[..j - 1], warmup);
      if before == Stress {
        var m: nat :| Warmed(log, warmup, m, j - 1);
        assert log[j - 1].SwitchSlot? || log[j - 1] == UpdateRules ==> Warmed(log, warmup, m, j);
      } else if before == Warm && log[j - 1] == FinishWarmup {
        assert Warmed(log, warmup, j - 1, j);
      } else if before == Boot && log[j - 1] == Startrun && !warmup {
        assert Warmed(log, warmup, 0, j);
      }
    }
  }
}
