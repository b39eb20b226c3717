/** What processing a request does to a client, over every run: when it leaves the warmup, and what it reports. */
module ProtocolEffects {
  import opened Types
  import opened Protocol
  import opened ProtocolRuns

  // ---- Warmup ---------------------------------------------------------------------------------------

  /** A request to end the warmup has been processed by the node. */
  ghost predicate Ended(s: System, i: nat) {
    exists q :: 0 <= q < |s.log| && s.log[q] == FinishWarmup && (i, q) in s.processed
  }

  ghost predicate WarmAt(s: System, i: nat)
    requires i < |s.nodes|
  {
    s.nodes[i].warmup <==> s.warmup && !Ended(s, i)
  }

  ghost predicate WarmOk(s: System) {
    forall i: nat {:trigger WarmAt(s, i)} :: i < s.clients && i < |s.nodes| ==> WarmAt(s, i)
  }

  lemma WarmBegin(s: System, kind: Kind)
    requires Inv(s) && WarmOk(s) && Enabled(s, Begin(kind))
    ensures WarmOk(Step(s, Begin(kind)))
  {
    var s' := Step(s, Begin(kind));
    forall i: nat | i < s'.clients && i < |s'.nodes|
      ensures WarmAt(s', i)
    {
      assert WarmAt(s, i);
      assert (i, |s.log|) !in s.processed;
      if Ended(s, i) {
        var q :| 0 <= q < |s.log| && s.log[q] == FinishWarmup && (i, q) in s.processed;
        assert s'.log[q] == FinishWarmup;
      }
    }
  }

  lemma WarmSame(s: System, s': System)
    requires WarmOk(s) && s'.log == s.log && s'.nodes == s.nodes && s'.clients == s.clients && s'.warmup == s.warmup
    requires s'.processed == s.processed
    ensures WarmOk(s')
  {
    forall i: nat | i < s'.clients && i < |s'.nodes|
      ensures WarmAt(s', i)
    {
      assert WarmAt(s, i);
    }
  }

  /** What one delivery does to a client's warmup: it ends exactly when the client processes the request to end it. */
  lemma DeliveredWarm(s: System, to: nat, r: Request, stats: int)
    requires to < s.clients && to < |s.nodes| && r.num < |s.log| && r.kind == s.log[r.num] && WarmAt(s, to)
    requires s.nodes[to].phase == Waiting ==> r.kind == Startrun
    ensures WarmAt(Delivered(s, to, r, stats), to)
  {
    var s' := Delivered(s, to, r, stats);
    if Ended(s, to) {
      var q :| 0 <= q < |s.log| && s.log[q] == FinishWarmup && (to, q) in s.processed;
      assert (to, q) in s'.processed;
    }
    if r.kind == FinishWarmup && s.nodes[to].phase == Running {
      assert s'.log[r.num] == FinishWarmup && (to, r.num) in s'.processed;
    }
  }

  lemma WarmDeliver(s: System, to: nat, r: Request, stats: int)
    requires Inv(s) && WarmOk(s) && Enabled(s, Deliver(to, r, stats))
    ensures WarmOk(Delivered(s, to, r, stats))
  {
    var s' := Delivered(s, to, r, stats);
    assert (to, r).1 == r && r.num < |s.log| && r.kind == s.log[r.num];
    forall i: nat | i < s'.clients && i < |s'.nodes|
      ensures WarmAt(s', i)
    {
      assert WarmAt(s, i);
      if i == to {
        if s.nodes[to].phase == Waiting {
          WaitingSeesFirst(s, to, r);
        }
        DeliveredWarm(s, to, r, stats);
      } else {
        assert forall q :: (i, q) in s'.processed <==> (i, q) in s.processed;
      }
    }
  }

  lemma WarmStep(s: System, a: Action)
    requires Inv(s) && WarmOk(s) && Enabled(s, a)
    ensures WarmOk(Step(s, a))
  {
    match a
    case Begin(kind) => WarmBegin(s, kind);
    case Deliver(to, r, stats) => WarmDeliver(s, to, r, stats);
    case _ => WarmSame(s, Step(s, a));
  }

  /**
   Over every run a client is in the warmup exactly if the run started in it and the client has processed no request to
   end it.
   */
  lemma {:induction false} WarmupEnds(clients: nat, peers: nat, warmup: bool, actions: seq<Action>)
    requires Run(Init(clients, peers, warmup), actions).Some?
    ensures var s := Run(Init(clients, peers, warmup), actions).value;
            s.warmup == warmup && s.clients == clients && |s.nodes| == clients + peers && WarmOk(s)
  {
    if actions == [] {
      var s := Init(clients, peers, warmup);
      assert forall i: nat :: i < clients ==> WarmAt(s, i);
    } else {
      var n := |actions| - 1;
      WarmupEnds(clients, peers, warmup, actions[..n]);
      RunInv(clients, peers, warmup, actions[..n]);
      WarmStep(Run(Init(clients, peers, warmup), actions[..n]).value, actions[n]);
    }
  }

  /** The log holds a round that ends the warmup. */
  predicate Over(log: seq<Kind>) {
    log != [] && (log[|log| - 1] == FinishWarmup || Over(log[..|log| - 1]))
  }

  lemma {:induction false} OverIff(log: seq<Kind>)
    ensures Over(log) <==> exists q :: 0 <= q < |log| && log[q] == FinishWarmup
  {
    if log != [] {
      var n := |log| - 1;
      OverIff(log[..n]);
      assert forall q :: 0 <= q < n ==> log[..n][q] == log[q];
      if Over(log[..n]) {
        var q :| 0 <= q < n && log[..n][q] == FinishWarmup;
        assert log[q] == FinishWarmup;
      }
    }
  }

  /** The end of the warmup is in the log from the stress test on, unless a snapshot was dumped instead. */
  lemma {:induction false} WarmStage(log: seq<Kind>, warmup: bool)
    requires StageOf(log, warmup) != Wrong
    ensures match StageOf(log, warmup)
            case Boot => !Over(log)
            case Warm => warmup && !Over(log)
            case Stress => warmup ==> Over(log)
            case Dumped => warmup && !Over(log)
            case _ => true
  {
    if log != [] {
      WarmStage(log[..|log| - 1], warmup);
    }
  }

  /**
   Between rounds all clients are in the warmup or none is: those of a run that started in it, until the round that ends
   it. In the evaluator's terms they are in it before the stress test and while a snapshot is dumped.
   */
  lemma WarmupAgrees(clients: nat, peers: nat, warmup: bool, actions: seq<Action>, i: nat)
    requires var r := Run(Init(clients, peers, warmup), actions); r.Some? && !r.value.open && i < clients
    ensures var s := Run(Init(clients, peers, warmup), actions).value;
            && i < |s.nodes| && (s.nodes[i].warmup <==> warmup && !Over(s.log))
            && match StageOf(s.log, warmup)
               case Boot => s.nodes[i].warmup == warmup
               case Warm => s.nodes[i].warmup
               case Stress => !s.nodes[i].warmup
               case Dumped => s.nodes[i].warmup
               case _ => true
  {
    RunInv(clients, peers, warmup, actions);
    WarmupEnds(clients, peers, warmup, actions);
    var s := Run(Init(clients, peers, warmup), actions).value;
    assert WarmAt(s, i);
    WarmStage(s.log, warmup);
    OverIff(s.log);
    if Over(s.log) {
      var q :| 0 <= q < |s.log| && s.log[q] == FinishWarmup;
      assert Target(s, s.log[q], i);
      assert (i, q) in s.processed;
    }
  }

  // ---- Answers --------------------------------------------------------------------------------------

  predicate Live(x: Node) {
    x.phase == Waiting || x.phase == Running
  }

  /** A live node answers a request the first time it is handed it, whatever the round. */
  lemma FirstIsAnswered(s: System, to: nat, r: Request, stats: int)
    requires Inv(s) && Enabled(s, Deliver(to, r, stats)) && Live(s.nodes[to]) && (to, r.num) !in s.processed
    requires to >= s.clients ==> s.nodes[to].phase == Running
    ensures Handled(s, to, r, stats).1.Some? && Delivered(s, to, r, stats).nodes[to].phase != Crashed
    ensures (to, r.num) in Delivered(s, to, r, stats).processed
  {
    assert (to, r).1 == r;
    if to < s.clients {
      assert ClientOk(s, to);
      StageStart(s.log, s.warmup);
      if s.nodes[to].phase == Waiting {
        WaitingSeesFirst(s, to, r);
      } else if r.kind.SwitchSlot? {
        SwitchIsCurrent(s, to, r);
      }
    }
  }

  // ---- Reports --------------------------------------------------------------------------------------

  /** The node was handed the request together with these statistics. */
  ghost predicate Handed(actions: seq<Action>, r: Response) {
    Deliver(r.from, Request(r.num, r.kind), r.stats) in actions
  }

  /** What a node reports is what it had when it was handed the request. */
  lemma {:induction false} ReportsAreTrue(clients: nat, peers: nat, warmup: bool, actions: seq<Action>, r: Response)
    requires var s := Run(Init(clients, peers, warmup), actions); s.Some? && r in s.value.replies
    ensures Handed(actions, r)
  {
    if actions != [] {
      var n := |actions| - 1;
      var s := Run(Init(clients, peers, warmup), actions[..n]).value;
      assert actions == actions[..n] + [actions[n]];
      if r in s.replies {
        ReportsAreTrue(clients, peers, warmup, actions[..n], r);
      } else {
        ReplyIs(s, actions[n].to, actions[n].request, actions[n].stats, r);
      }
    }
  }

  lemma ReplyIs(s: System, to: nat, request: Request, stats: int, r: Response)
    requires to < |s.nodes| && Handled(s, to, request, stats).1 == Some(r)
    ensures r.from == to && Request(r.num, r.kind) == request && r.stats == stats
  {
  }
}
