/**
 The one-buffer DMA that brings IQ packets from the receiver to memory: three driver flags beside an
 engine that may hold one transfer.
 */
module IqDma {

  /** What the driver does to the engine and to the packet buffer, in order. */
  datatype Event =
    | Submit       // a transfer into the buffer is accepted
    | Idle         // the engine says that it is not busy
    | EngineReset
    | Forward      // the buffer is handed to the network

  datatype Dma = Dma(ready: bool, running: bool, armed: bool, events: seq<Event>)

  /** How the initialisation of the engine goes. */
  datatype Setup =
    | NoConfig
    | CfgFailed(wasReset: bool)
    | ScatterGather
    | Done(pcbs: bool)

  function PowerUp(): Dma {
    Dma(false, false, false, [])
  }

  function Log(d: Dma, e: Event): Dma {
    d.(events := d.events + [e])
  }

  function Init(d: Dma, s: Setup): (Dma, bool) {
    match s
    case NoConfig => (d, false)
    case CfgFailed(wasReset) => (if wasReset then Log(d, EngineReset) else d, false)
    case ScatterGather => (Log(d, EngineReset), false)
    case Done(pcbs) => (Dma(true, false, false, d.events + [EngineReset]), pcbs)
  }

  function Arm(d: Dma, accepted: bool): (Dma, bool) {
    if !d.ready then (d, false)
    else if accepted then (Log(d, Submit).(armed := true), true)
    else (d.(armed := false), false)
  }

  function Start(d: Dma, accepted: bool): (Dma, bool) {
    if !d.ready then (d, false)
    else if d.armed then (d.(running := true), true)
    else Arm(d.(running := true), accepted)
  }

  function Stop(d: Dma): Dma {
    var stopped := d.(running := false, armed := false);
    if d.ready then Log(stopped, EngineReset) else stopped
  }

  /** A transfer is due and the engine has finished it. */
  predicate Finished(d: Dma, busy: bool) {
    d.running && d.armed && !busy
  }

  /** `forwards`: the control state lets the packet out. */
  function Poll(d: Dma, busy: bool, forwards: bool, accepted: bool): (Dma, bool) {
    if !Finished(d, busy) then (d, true)
    else
      var idle := Log(d.(armed := false), Idle);
      Arm(if forwards then Log(idle, Forward) else idle, accepted)
  }

  class IqDmaDriver {
    var ready: bool
    var running: bool
    var armed: bool
    ghost var events: seq<Event>

    ghost function State(): Dma
      reads this
    {
      Dma(ready, running, armed, events)
    }

    constructor ()
      ensures State() == PowerUp()
    {
      ready, running, armed, events := false, false, false, [];
    }

    method InitHardware(s: Setup) returns (ok: bool)
      modifies this
      ensures (State(), ok) == Init(old(State()), s)
    {
      if s.NoConfig? {
        return false;
      }
      if s.CfgFailed? {
        events := if s.wasReset then events + [EngineReset] else events;
        return false;
      }
      events := events + [EngineReset];
      if s.ScatterGather? {
        return false;
      }
      ready, running, armed := true, false, false;
      ok := s.pcbs;
    }

    method ArmTransfer(accepted: bool) returns (ok: bool)
      modifies this
      ensures (State(), ok) == Arm(old(State()), accepted)
    {
      if !ready {
        return false;
      }
      if !accepted {
        armed := false;
        return false;
      }
      events := events + [Submit];
      armed := true;
      ok := true;
    }

    method StartTransfers(accepted: bool) returns (ok: bool)
      modifies this
      ensures (State(), ok) == Start(old(State()), accepted)
    {
      if !ready {
        return false;
      }
      running := true;
      if armed {
        return true;
      }
      ok := ArmTransfer(accepted);
    }

    method StopTransfers()
      modifies this
      ensures State() == Stop(old(State()))
    {
      running, armed := false, false;
      if ready {
        events := events + [EngineReset];
      }
    }
  }

  // ---- safety -------------------------------------------------------------------------------------------

  /** The engine holds a transfer: one was submitted and it has neither gone idle nor been reset since. */
  predicate Outstanding(events: seq<Event>) {
    && events != []
    && match events[|events| - 1]
       case Submit => true
       case Idle => false
       case EngineReset => false
       case Forward => Outstanding(events[..|events| - 1])
  }

  /** The buffer belongs to a transfer that was not forwarded yet. */
  predicate Unsent(events: seq<Event>) {
    && events != []
    && match events[|events| - 1]
       case Submit => true
       case Forward => false
       case _ => Unsent(events[..|events| - 1])
  }

  /** What may be done after `before`. */
  predicate Allowed(before: seq<Event>, e: Event) {
    match e
    case Submit => !Outstanding(before)
    case Forward => !Outstanding(before) && Unsent(before)
    case _ => true
  }

  ghost predicate Safe(events: seq<Event>) {
    forall i :: 0 <= i < |events| ==> Allowed(events[..i], events[i])
  }

  ghost predicate Inv(d: Dma) {
    && (d.armed ==> d.running)
    && (d.running ==> d.ready)
    && (Outstanding(d.events) ==> d.armed)
    && (d.armed ==> Unsent(d.events))
    && Safe(d.events)
  }

  lemma LogSafe(events: seq<Event>, e: Event)
    requires Safe(events) && Allowed(events, e)
    ensures Safe(events + [e])
    ensures Outstanding(events + [e]) == (e.Submit? || (e.Forward? && Outstanding(events)))
    ensures Unsent(events + [e]) == (e.Submit? || (!e.Forward? && Unsent(events)))
  {
    var all := events + [e];
    assert all[..|events|] == events;
    forall i | 0 <= i < |all|
      ensures Allowed(all[..i], all[i])
    {
      assert all[..i] == if i < |events| then events[..i] else events;
    }
  }

  lemma ArmKeepsInv(d: Dma, accepted: bool)
    requires Inv(d) && d.running && !d.armed
    ensures Inv(Arm(d, accepted).0)
  {
    LogSafe(d.events, Submit);
  }

  lemma InitKeepsInv(d: Dma, s: Setup)
    requires Inv(d)
    ensures Inv(Init(d, s).0)
  {
    LogSafe(d.events, EngineReset);
  }

  lemma StartKeepsInv(d: Dma, accepted: bool)
    requires Inv(d)
    ensures Inv(Start(d, accepted).0)
  {
    if d.ready && !d.armed {
      ArmKeepsInv(d.(running := true), accepted);
    }
  }

  lemma StopKeepsInv(d: Dma)
    requires Inv(d)
    ensures Inv(Stop(d)) && !Stop(d).armed
  {
    LogSafe(d.events, EngineReset);
  }

  lemma PollKeepsInv(d: Dma, busy: bool, forwards: bool, accepted: bool)
    requires Inv(d)
    ensures Inv(Poll(d, busy, forwards, accepted).0)
  {
    if Finished(d, busy) {
      LogSafe(d.events, Idle);
      var idle := Log(d.(armed := false), Idle);
      LogSafe(idle.events, Forward);
      ArmKeepsInv(if forwards then Log(idle, Forward) else idle, accepted);
    }
  }

  datatype Op =
    | OpInit(setup: Setup)
    | OpStart(accepted: bool)
    | OpStop
    | OpPoll(busy: bool, forwards: bool, accepted: bool)

  function Step(d: Dma, op: Op): Dma {
    match op
    case OpInit(s) => Init(d, s).0
    case OpStart(accepted) => Start(d, accepted).0
    case OpStop => Stop(d)
    case OpPoll(busy, forwards, accepted) => Poll(d, busy, forwards, accepted).0
  }

  function Run(ops: seq<Op>): Dma {
    if ops == [] then PowerUp() else Step(Run(ops[..|ops| - 1]), ops[|ops| - 1])
  }

  lemma StepKeepsInv(d: Dma, op: Op)
    requires Inv(d)
    ensures Inv(Step(d, op))
  {
    match op
    case OpInit(s) => InitKeepsInv(d, s);
    case OpStart(accepted) => StartKeepsInv(d, accepted);
    case OpStop => StopKeepsInv(d);
    case OpPoll(busy, forwards, accepted) => PollKeepsInv(d, busy, forwards, accepted);
  }

  /**
   In every run, with any busy answers and refused transfers: armed implies running implies ready, an
   outstanding transfer implies armed, no transfer is submitted while one is outstanding, and the buffer is
   forwarded only when none is, at most once per transfer.
   */
  lemma {:induction false} RunSafe(ops: seq<Op>)
    ensures Inv(Run(ops))
  {
    if ops != [] {
      RunSafe(ops[..|ops| - 1]);
      StepKeepsInv(Run(ops[..|ops| - 1]), ops[|ops| - 1]);
    }
  }

  // ---- forwarding only what arrived ------------------------------------------------------------------------

  /** An initialisation that fails after it reset the engine: the flags keep what they said. */
  predicate ResetsBehind(op: Op) {
    op.OpInit? && (op.setup.ScatterGather? || (op.setup.CfgFailed? && op.setup.wasReset))
  }

  /** The operation submits a transfer. */
  predicate Submits(d: Dma, op: Op) {
    var events := Step(d, op).events;
    |events| > |d.events| && events[|events| - 1].Submit?
  }

  /** The engine was reset behind the flags since the last transfer was submitted. */
  predicate Disturbed(ops: seq<Op>) {
    && ops != []
    && var init, op := ops[..|ops| - 1], ops[|ops| - 1];
       ResetsBehind(op) || (!Submits(Run(init), op) && Disturbed(init))
  }

  lemma LastEvent(events: seq<Event>, e: Event)
    ensures Outstanding(events + [e]) == (e.Submit? || (e.Forward? && Outstanding(events)))
  {
    assert (events + [e])[..|events|] == events;
  }

  lemma PollEffect(d: Dma, busy: bool, forwards: bool, accepted: bool)
    requires Poll(d, busy, forwards, accepted).0.armed
    ensures var events := Poll(d, busy, forwards, accepted).0.events;
            if Finished(d, busy) then |events| > |d.events| && events[|events| - 1].Submit? && Outstanding(events)
            else events == d.events && d.armed
  {
    if Finished(d, busy) {
      var before := if forwards then d.events + [Idle] + [Forward] else d.events + [Idle];
      LastEvent(before, Submit);
    }
  }

  /** What an operation that leaves the driver armed did to the engine. */
  lemma OpEffect(d: Dma, op: Op)
    requires Step(d, op).armed
    ensures if ResetsBehind(op) then !Outstanding(Step(d, op).events)
            else if Submits(d, op) then Outstanding(Step(d, op).events)
            else Step(d, op).events == d.events && d.armed
  {
    LastEvent(d.events, EngineReset);
    LastEvent(d.events, Submit);
    if op.OpPoll? {
      PollEffect(d, op.busy, op.forwards, op.accepted);
    }
  }

  /** An armed driver has a transfer in the engine exactly if the engine was not reset behind its back. */
  lemma {:induction false} ArmedIsOutstandingIff(ops: seq<Op>)
    requires Run(ops).armed
    ensures Outstanding(Run(ops).events) <==> !Disturbed(ops)
  {
    var init, op := ops[..|ops| - 1], ops[|ops| - 1];
    OpEffect(Run(init), op);
    if !ResetsBehind(op) && !Submits(Run(init), op) {
      ArmedIsOutstandingIff(init);
    }
  }

  /** The buffer forwarded at event `i` was filled: its transfer was in the engine when that went idle. */
  predicate Arrived(events: seq<Event>, i: nat)
    requires 0 < i < |events|
  {
    events[i].Forward? && events[i - 1].Idle? && Outstanding(events[..i - 1])
  }

  /** A poll forwards a packet that arrived exactly if the engine was not reset behind the driver's back. */
  lemma ForwardArrivedIff(ops: seq<Op>, busy: bool, accepted: bool)
    requires Finished(Run(ops), busy)
    ensures var n, events := |Run(ops).events| + 1, Poll(Run(ops), busy, true, accepted).0.events;
            n < |events| && events[n].Forward? && (Arrived(events, n) <==> !Disturbed(ops))
  {
    ArmedIsOutstandingIff(ops);
    var d := Run(ops);
    var events := Poll(d, busy, true, accepted).0.events;
    assert events[..|d.events|] == d.events;
  }

  lemma RunStep(ops: seq<Op>, op: Op)
    ensures Run(ops + [op]) == Step(Run(ops), op)
    ensures Disturbed(ops + [op]) <==> ResetsBehind(op) || (!Submits(Run(ops), op) && Disturbed(ops))
  {
    assert (ops + [op])[..|ops|] == ops;
  }

  /** It happens when initialisation is repeated on a running driver and fails: an unfilled buffer is forwarded. */
  lemma UnfilledBufferCanBeForwarded()
    ensures var ops := [OpInit(Done(true))] + [OpStart(true)] + [OpInit(ScatterGather)];
            Finished(Run(ops), false) && Disturbed(ops)
  {
    var first: seq<Op> := [];
    RunStep(first, OpInit(Done(true)));
    assert first + [OpInit(Done(true))] == [OpInit(Done(true))];
    RunStep([OpInit(Done(true))], OpStart(true));
    RunStep([OpInit(Done(true))] + [OpStart(true)], OpInit(ScatterGather));
  }

  /** Initialisation succeeds exactly when the engine is configured, without scatter-gather, and the sockets exist. */
  lemma InitAnswers(d: Dma, setup: Setup)
    ensures var (d', ok) := Init(d, setup);
            && (ok <==> setup == Done(true))
            && (setup.Done? ==> d'.ready && !d'.running && !d'.armed)
            && (!setup.Done? ==> d'.ready == d.ready && d'.running == d.running && d'.armed == d.armed)
  {
  }

  /** Armed with a transfer in the engine. */
  predicate Live(d: Dma) {
    d.armed ==> Outstanding(d.events)
  }

  /** Every packet forwarded has arrived. */
  predicate AllArrived(events: seq<Event>) {
    forall i :: 0 <= i < |events| && events[i].Forward? ==> i > 0 && Arrived(events, i)
  }

  lemma ArrivedMore(events: seq<Event>, more: seq<Event>)
    requires AllArrived(events)
    requires more in [[], [Submit], [EngineReset], [Idle]] || (more == [Idle] + [Forward] && Outstanding(events))
    ensures AllArrived(events + more)
  {
    var all := events + more;
    forall i | 0 <= i < |all| && all[i].Forward?
      ensures i > 0 && Arrived(all, i)
    {
      if i < |events| {
        assert events[i] == all[i] && Arrived(events, i) && all[..i - 1] == events[..i - 1];
      } else {
        assert i == |events| + 1 && all[..i - 1] == events;
      }
    }
  }

  lemma LiveKept(d: Dma, op: Op)
    requires Live(d) && !op.OpInit?
    ensures Live(Step(d, op))
  {
    LastEvent(d.events, Submit);
    LastEvent(d.events + [Idle], Submit);
    LastEvent(d.events + [Idle] + [Forward], Submit);
  }

  lemma PollArrived(d: Dma, busy: bool, forwards: bool, accepted: bool)
    requires Live(d) && AllArrived(d.events)
    ensures AllArrived(Poll(d, busy, forwards, accepted).0.events)
  {
    if Finished(d, busy) {
      var seen := if forwards then [Idle] + [Forward] else [Idle];
      ArrivedMore(d.events, seen);
      ArrivedMore(d.events + seen, [Submit]);
      assert d.events + ([Idle] + [Forward]) == d.events + [Idle] + [Forward];
    }
  }

  lemma ArrivedKept(d: Dma, op: Op)
    requires Live(d) && AllArrived(d.events)
    ensures AllArrived(Step(d, op).events)
  {
    if op.OpPoll? {
      PollArrived(d, op.busy, op.forwards, op.accepted);
    } else {
      ArrivedMore(d.events, [Submit]);
      ArrivedMore(d.events, [EngineReset]);
    }
  }
}
