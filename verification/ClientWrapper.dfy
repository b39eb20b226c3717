/** The client side of the rounds. */
module ClientWrapper {
  import opened Types
  import opened Protocol

  class Client {
    const idx: nat
    var phase: Phase
    var curSlot: nat
    var warmup: bool
    var rules: nat

    function View(): Node
      reads this
    {
      Node(phase, curSlot, warmup, rules)
    }

    constructor (idx: nat, warmup: bool)
      ensures this.idx == idx && View() == Node(Waiting, 0, warmup, 0)
    {
      this.idx, phase, curSlot, this.warmup, rules := idx, Waiting, 0, warmup, 0;
    }

    /** The slot counter moves on by one; any other target ends the process. */
    method SwitchCurslot(target: nat) returns (ok: bool)
      requires phase == Running
      modifies this
      ensures ok <==> target == old(curSlot) + 1
      ensures View() == if ok then old(View()).(slot := target) else old(View()).(phase := Crashed)
    {
      if target != curSlot + 1 {
        phase := Crashed;
        return false;
      }
      curSlot := curSlot + 1;
      ok := true;
    }

    method ProcessSwitchSlotRequest(r: Request, stats: int) returns (reply: Option<Response>)
      requires phase == Running && r.kind.SwitchSlot?
      modifies this
      ensures (View(), reply) == ClientHandle(old(View()), idx, r, stats)
    {
      var ok := SwitchCurslot(r.kind.target);
      reply := if ok then Some(Response(idx, r.num, r.kind, r.kind.target, stats)) else None;
    }

    method ProcessFinishrunRequest(r: Request, stats: int) returns (reply: Option<Response>)
      requires phase == Running && (r.kind == FinishClients || r.kind == FinishPeers)
      modifies this
      ensures (View(), reply) == ClientHandle(old(View()), idx, r, stats)
    {
      phase := Stopped;
      reply := Some(Response(idx, r.num, r.kind, curSlot, stats));
    }

    method ProcessOtherBenchmarkControlRequest(r: Request, stats: int) returns (reply: Option<Response>)
      requires phase == Running && r.kind != FinishClients && r.kind != FinishPeers
      modifies this
      ensures (View(), reply) == ClientHandle(old(View()), idx, r, stats)
    {
      if r.kind.SwitchSlot? {
        reply := ProcessSwitchSlotRequest(r, stats);
      } else if r.kind == FinishWarmup {
        warmup := false;
        reply := Some(Response(idx, r.num, r.kind, 0, stats));
      } else if r.kind == UpdateRules {
        rules := rules + 1;
        reply := Some(Response(idx, r.num, r.kind, 0, stats));
      } else {
        phase := Crashed;
        reply := None;
      }
    }

    /** One received request, wherever the client is in its life. */
    method Receive(r: Request, stats: int) returns (reply: Option<Response>)
      modifies this
      ensures (View(), reply) == ClientHandle(old(View()), idx, r, stats)
    {
      match phase {
        case Waiting =>
          if r.kind == Startrun {
            phase := Running;
            reply := Some(Response(idx, r.num, r.kind, 0, stats));
          } else {
            phase := Crashed;
            reply := None;
          }
        case Running =>
          if r.kind == FinishClients || r.kind == FinishPeers {
            reply := ProcessFinishrunRequest(r, stats);
          } else {
            reply := ProcessOtherBenchmarkControlRequest(r, stats);
          }
        case _ => reply := None;
      }
    }
  }
}
