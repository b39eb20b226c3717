/** The rounds an evaluation is to hold, told from what its timers and statistics say in each iteration. */
module Schedule {
  import opened Types
  import opened Protocol
  import Runs = ProtocolRuns

  datatype Realnet = NoOption | Dump | Load

  /** What the timers and the statistics say in one iteration. */
  datatype Tick = Tick(finish: bool, rules: bool, slot: bool, warm: bool)

  /** The warmup lasts until the first iteration that says it is over. */
  predicate WarmAt(warm: bool, ticks: seq<Tick>, i: nat)
    requires i <= |ticks|
  {
    warm && forall j :: 0 <= j < i ==> !ticks[j].warm
  }

  /** A dumping run ends with its warmup, any other with the first iteration after the warmup that says so. */
  predicate EndsAt(option: Realnet, warm: bool, ticks: seq<Tick>, i: nat)
    requires i < |ticks|
  {
    if option.Dump? then ticks[i].warm else ticks[i].finish && !WarmAt(warm, ticks, i)
  }

  predicate EndsBefore(option: Realnet, warm: bool, ticks: seq<Tick>, n: nat)
    requires n <= |ticks|
  {
    exists i :: 0 <= i < n && EndsAt(option, warm, ticks, i)
  }

  /** One more round, if it is due. */
  function With(log: seq<Kind>, kind: Kind, due: bool): (r: seq<Kind>)
    ensures log <= r && |log| <= |r| <= |log| + 1
  {
    if due then log + [kind] else log
  }

  function WithSlot(log: seq<Kind>, due: bool): (r: seq<Kind>)
    ensures log <= r && |log| <= |r| <= |log| + 1
  {
    With(log, SwitchSlot(Slots(log) + 1), due)
  }

  function WithFinish(log: seq<Kind>): (r: seq<Kind>)
    ensures log <= r
  {
    With(With(log, FinishClients, true), FinishPeers, true)
  }

  /** The log after the rounds of one iteration; `warm` tells whether it is in the warmup. */
  function Next(option: Realnet, log: seq<Kind>, tick: Tick, warm: bool): (r: seq<Kind>)
    ensures log <= r
  {
    if option.Dump? then
      var slot := WithSlot(log, tick.slot);
      if tick.warm then WithFinish(With(slot, DumpSnapshot, true)) else slot
    else if tick.finish && !warm then WithFinish(log)
    else With(WithSlot(With(log, UpdateRules, tick.rules && !warm), tick.slot), FinishWarmup, tick.warm && warm)
  }

  /** The rounds of the first `n` iterations after those in `base`; the iteration that ends the run is the last. */
  function Plan(option: Realnet, base: seq<Kind>, warm: bool, ticks: seq<Tick>, n: nat): seq<Kind>
    requires n <= |ticks|
  {
    if n == 0 then base
    else
      var before := Plan(option, base, warm, ticks, n - 1);
      if EndsBefore(option, warm, ticks, n - 1) then before
      else Next(option, before, ticks[n - 1], WarmAt(warm, ticks, n - 1))
  }

  lemma EndsStays(option: Realnet, warm: bool, ticks: seq<Tick>, i: nat, n: nat)
    requires i <= n <= |ticks| && EndsBefore(option, warm, ticks, i)
    ensures EndsBefore(option, warm, ticks, n)
  {
    var j :| 0 <= j < i && EndsAt(option, warm, ticks, j);
    assert EndsAt(option, warm, ticks, j);
  }

  lemma Prefixes(a: seq<Kind>, b: seq<Kind>, c: seq<Kind>)
    requires a <= b && b <= c
    ensures a <= c
  {
  }

  lemma {:induction false} PlanGrows(option: Realnet, base: seq<Kind>, warm: bool, ticks: seq<Tick>, i: nat, n: nat)
    requires i <= n <= |ticks|
    ensures Plan(option, base, warm, ticks, i) <= Plan(option, base, warm, ticks, n)
    ensures EndsBefore(option, warm, ticks, i) ==>
              Plan(option, base, warm, ticks, i) == Plan(option, base, warm, ticks, n)
    decreases n
  {
    if i < n {
      PlanGrows(option, base, warm, ticks, i, n - 1);
      if EndsBefore(option, warm, ticks, i) {
        EndsStays(option, warm, ticks, i, n - 1);
      } else if !EndsBefore(option, warm, ticks, n - 1) {
        var before := Plan(option, base, warm, ticks, n - 1);
        Prefixes(Plan(option, base, warm, ticks, i), before,
                 Next(option, before, ticks[n - 1], WarmAt(warm, ticks, n - 1)));
      }
    }
  }

  /** The plan after one more iteration. */
  lemma PlanNext(option: Realnet, base: seq<Kind>, warm: bool, ticks: seq<Tick>, i: nat)
    requires i < |ticks| && !EndsBefore(option, warm, ticks, i)
    ensures Plan(option, base, warm, ticks, i + 1) ==
            Next(option, Plan(option, base, warm, ticks, i), ticks[i], WarmAt(warm, ticks, i))
    ensures EndsBefore(option, warm, ticks, i + 1) <==> EndsAt(option, warm, ticks, i)
    ensures WarmAt(warm, ticks, i + 1) <==> WarmAt(warm, ticks, i) && !ticks[i].warm
  {
  }

  // ---- What the plan amounts to ---------------------------------------------------------------------

  /** Iterations in which a slot is due, up to the one that ends the run; that one counts only if it dumps. */
  function DueSlots(option: Realnet, warm: bool, ticks: seq<Tick>, n: nat): nat
    requires n <= |ticks|
  {
    if n == 0 then 0
    else
      DueSlots(option, warm, ticks, n - 1) +
      if ticks[n - 1].slot && !EndsBefore(option, warm, ticks, if option.Dump? then n - 1 else n) then 1 else 0
  }

  lemma SlotsMore(log: seq<Kind>, kind: Kind, due: bool)
    ensures Slots(With(log, kind, due)) == Slots(log) + if due && kind.SwitchSlot? then 1 else 0
  {
    Runs.SlotsAppend(log, kind);
  }

  lemma NextSlots(option: Realnet, log: seq<Kind>, tick: Tick, warm: bool)
    ensures Slots(Next(option, log, tick, warm)) ==
            Slots(log) + if tick.slot && (option.Dump? || !(tick.finish && !warm)) then 1 else 0
  {
    if option.Dump? {
      var slot := WithSlot(log, tick.slot);
      SlotsMore(log, SwitchSlot(Slots(log) + 1), tick.slot);
      SlotsMore(slot, DumpSnapshot, true);
      FinishSlots(With(slot, DumpSnapshot, true));
    } else if tick.finish && !warm {
      FinishSlots(log);
    } else {
      var rules := With(log, UpdateRules, tick.rules && !warm);
      SlotsMore(log, UpdateRules, tick.rules && !warm);
      SlotsMore(rules, SwitchSlot(Slots(rules) + 1), tick.slot);
      SlotsMore(WithSlot(rules, tick.slot), FinishWarmup, tick.warm && warm);
    }
  }

  lemma FinishSlots(log: seq<Kind>)
    ensures Slots(WithFinish(log)) == Slots(log)
  {
    SlotsMore(log, FinishClients, true);
    SlotsMore(With(log, FinishClients, true), FinishPeers, true);
  }

  /** A plan opens exactly one slot for each iteration in which one is due. */
  lemma {:induction false} PlanSlots(option: Realnet, base: seq<Kind>, warm: bool, ticks: seq<Tick>, n: nat)
    requires n <= |ticks|
    ensures Slots(Plan(option, base, warm, ticks, n)) == Slots(base) + DueSlots(option, warm, ticks, n)
  {
    if n > 0 {
      PlanSlots(option, base, warm, ticks, n - 1);
      if EndsBefore(option, warm, ticks, n - 1) {
        EndsStays(option, warm, ticks, n - 1, n);
      } else {
        PlanNext(option, base, warm, ticks, n - 1);
        NextSlots(option, Plan(option, base, warm, ticks, n - 1), ticks[n - 1], WarmAt(warm, ticks, n - 1));
      }
    }
  }
}
