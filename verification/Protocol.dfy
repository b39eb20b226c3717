/**
 Benchmark control: an evaluator drives clients, edges and the cloud through numbered rounds over a network that may
 lose, repeat, delay and reorder messages. What was sent once may be delivered at any later time, any number of times.
 */
module Protocol {
  import opened Types

  /** The rounds; both finish rounds send the same message, to clients first and to edges and cloud afterwards. */
  datatype Kind =
    | Startrun
    | SwitchSlot(target: nat)
    | FinishWarmup
    | UpdateRules
    | DumpSnapshot
    | FinishClients
    | FinishPeers

  datatype Request = Request(num: nat, kind: Kind)

  /** `slot` is the target slot of a slot switch and the last slot of a finished client. */
  datatype Response = Response(from: nat, num: nat, kind: Kind, slot: nat, stats: int)

  datatype Phase = Waiting | Running | Stopped | Crashed

  datatype Node = Node(phase: Phase, slot: nat, warmup: bool, rules: nat)

  // ---- A node ---------------------------------------------------------------------------------------

  function Crash(x: Node): (Node, Option<Response>) {
    (x.(phase := Crashed), None)
  }

  function Reply(x: Node, i: nat, r: Request, slot: nat, stats: int): (Node, Option<Response>) {
    (x, Some(Response(i, r.num, r.kind, slot, stats)))
  }

  /** How a client treats a request: asserts and exits are crashes. */
  function ClientHandle(x: Node, i: nat, r: Request, stats: int): (Node, Option<Response>) {
    match x.phase
    case Stopped => (x, None)
    case Crashed => (x, None)
    case Waiting => if r.kind.Startrun? then Reply(x.(phase := Running), i, r, 0, stats) else Crash(x)
    case Running =>
      match r.kind
      case SwitchSlot(target) =>
        if target == x.slot + 1 then Reply(x.(slot := x.slot + 1), i, r, target, stats) else Crash(x)
      case FinishWarmup => Reply(x.(warmup := false), i, r, 0, stats)
      case UpdateRules => Reply(x.(rules := x.rules + 1), i, r, 0, stats)
      case FinishClients => Reply(x.(phase := Stopped), i, r, x.slot, stats)
      case FinishPeers => Reply(x.(phase := Stopped), i, r, x.slot, stats)
      case Startrun => Crash(x)
      case DumpSnapshot => Crash(x)
  }

  /** Edges and the cloud only dump snapshots and finish. */
  function PeerHandle(x: Node, i: nat, r: Request, stats: int): (Node, Option<Response>) {
    if !x.phase.Running? then (x, None)
    else
      match r.kind
      case DumpSnapshot => Reply(x, i, r, 0, stats)
      case FinishPeers => Reply(x.(phase := Stopped), i, r, 0, stats)
      case FinishClients => Reply(x.(phase := Stopped), i, r, 0, stats)
      case _ => Crash(x)
  }

  // ---- The system -----------------------------------------------------------------------------------

  /**
   Nodes are the clients, then the edges, then the cloud. `log` holds the rounds begun so far: round `q` has sequence
   number `q`. `got` are the acknowledgements of the current round. `processed` pairs nodes with the numbers of the
   requests they have answered.
   */
  datatype System = System(
    clients: nat,
    warmup: bool,
    nodes: seq<Node>,
    sent: set<(nat, Request)>,
    replies: set<Response>,
    log: seq<Kind>,
    open: bool,
    got: map<nat, Response>,
    processed: set<(nat, nat)>)

  predicate IsTarget(clients: nat, n: nat, kind: Kind, i: nat) {
    match kind
    case DumpSnapshot => clients <= i && i + 1 < n
    case FinishPeers => clients <= i < n
    case _ => i < clients
  }

  predicate Target(s: System, kind: Kind, i: nat) {
    i < |s.nodes| && IsTarget(s.clients, |s.nodes|, kind, i)
  }

  function Slots(log: seq<Kind>): nat {
    if log == [] then 0 else Slots(log[..|log| - 1]) + if log[|log| - 1].SwitchSlot? then 1 else 0
  }

  datatype Stage = Boot | Warm | Stress | Dumped | Draining | Done | Wrong

  /** The order the evaluation loops allow; `warmup` tells whether the run starts in the warmup phase. */
  function Advance(stage: Stage, kind: Kind, warmup: bool): Stage {
    match kind
    case Startrun => if stage == Boot then (if warmup then Warm else Stress) else Wrong
    case SwitchSlot(_) => if stage == Warm || stage == Stress then stage else Wrong
    case FinishWarmup => if stage == Warm then Stress else Wrong
    case UpdateRules => if stage == Stress then Stress else Wrong
    case DumpSnapshot => if stage == Warm then Dumped else Wrong
    case FinishClients => if stage == Stress || stage == Dumped then Draining else Wrong
    case FinishPeers => if stage == Draining then Done else Wrong
  }

  function StageOf(log: seq<Kind>, warmup: bool): Stage {
    if log == [] then Boot else Advance(StageOf(log[..|log| - 1], warmup), log[|log| - 1], warmup)
  }

  datatype Action =
    | Begin(kind: Kind)
    | Send(to: nat)
    | Deliver(to: nat, request: Request, stats: int)
    | Recv(response: Response)
    | End

  predicate Enabled(s: System, a: Action) {
    match a
    case Begin(kind) =>
      && !s.open && StageOf(s.log + [kind], s.warmup) != Wrong
      && (kind.SwitchSlot? ==> kind.target == Slots(s.log) + 1)
    case Send(to) => s.open && s.log != [] && to !in s.got && Target(s, s.log[|s.log| - 1], to)
    case Deliver(to, request, _) => to < |s.nodes| && (to, request) in s.sent
    case Recv(response) => s.open && response in s.replies
    case End =>
      s.open && s.log != [] && forall i :: 0 <= i < |s.nodes| && Target(s, s.log[|s.log| - 1], i) ==> i in s.got
  }

  function Handled(s: System, to: nat, r: Request, stats: int): (Node, Option<Response>)
    requires to < |s.nodes|
  {
    if to < s.clients then ClientHandle(s.nodes[to], to, r, stats) else PeerHandle(s.nodes[to], to, r, stats)
  }

  function Delivered(s: System, to: nat, r: Request, stats: int): System
    requires to < |s.nodes|
  {
    var (x, reply) := Handled(s, to, r, stats);
    var s' := s.(nodes := s.nodes[to := x]);
    if reply.None? then s'
    else s'.(replies := s.replies + {reply.value}, processed := s.processed + {(to, r.num)})
  }

  /** A stale number is ignored, and so is a node outside the round or one that is already acknowledged. */
  function Received(s: System, r: Response): System
    requires s.log != []
  {
    if r.num == |s.log| - 1 && Target(s, s.log[|s.log| - 1], r.from) && r.from !in s.got
    then s.(got := s.got[r.from := r]) else s
  }

  function Step(s: System, a: Action): System
    requires Enabled(s, a)
  {
    match a
    case Begin(kind) => s.(log := s.log + [kind], open := true, got := map[])
    case Send(to) => s.(sent := s.sent + {(to, Request(|s.log| - 1, s.log[|s.log| - 1]))})
    case Deliver(to, request, stats) => Delivered(s, to, request, stats)
    case Recv(response) => if s.log == [] then s else Received(s, response)
    case End => s.(open := false)
  }

  function Init(clients: nat, peers: nat, warmup: bool): System {
    System(clients, warmup,
           seq(clients + peers, i => Node(if i < clients then Waiting else Running, 0, warmup, 0)),
           {}, {}, [], false, map[], {})
  }
}
