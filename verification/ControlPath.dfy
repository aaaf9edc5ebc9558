/**
 The control path in front of the receiver: register writes over the bus, and the crossing of the
 register contents to the sample clock.
 */
module ControlPath {
  import A = AxiLite
  import opened ConfigSync
  import opened Options

  /** What the all-zero reset value of the crossing's registers stands for. */
  const ZERO: map<nat, nat> := map a | a in A.CONFIG_REGS :: 0

  /** Rising edges of the bus clock, of the sample clock, or of both. */
  datatype Edge = Bus(i: A.In) | Adc | BusAndAdc(i: A.In, seesNew: bool, word: map<nat, nat>)

  predicate HasBus(e: Edge) { !e.Adc? }

  /** What the crossing sees of an edge: the bus side updates it while `config_changed` is high. */
  function Crossing(s: A.Slave, e: Edge): ConfigSync.Edge<map<nat, nat>> {
    var u := if s.configChanged then Some(s.regs) else None;
    match e
    case Bus(_) => Src(u)
    case Adc => Dst
    case BusAndAdc(_, seesNew, word) => Both(u, seesNew, word)
  }

  /** A run of the whole path; `crossing` is the run of the synchroniser that it induces. */
  datatype Path = Path(bus: A.Trace, crossing: seq<ConfigSync.Edge<map<nat, nat>>>)

  function Advance(t: Path, e: Edge): Path {
    Path(if HasBus(e) then A.Advance(t.bus, e.i) else t.bus, t.crossing + [Crossing(t.bus.s, e)])
  }

  function Run(es: seq<Edge>): Path {
    if es == [] then Path(A.Run([]), []) else Advance(Run(es[..|es| - 1]), es[|es| - 1])
  }

  /** Bus edges since a sample-clock edge, a bus edge at the same instant included. */
  function BusSinceAdc(es: seq<Edge>): nat {
    if es == [] then 0
    else
      match es[|es| - 1]
      case Bus(_) => BusSinceAdc(es[..|es| - 1]) + 1
      case Adc => 0
      case BusAndAdc(_, _, _) => 1
  }

  /** The sample clock rises at least once strictly between any bus edge and the third one after it. */
  predicate AdcClockKeepsUp(es: seq<Edge>) {
    es != [] ==>
      && AdcClockKeepsUp(es[..|es| - 1])
      && (HasBus(es[|es| - 1]) ==> BusSinceAdc(es[..|es| - 1]) <= 2)
  }

  /** Bus edges since the last update of the crossing, capped at two when there was none. */
  function BusSinceUpdate(es: seq<Edge>): nat {
    if es == [] then 2
    else
      var init, e := es[..|es| - 1], es[|es| - 1];
      if !HasBus(e) then BusSinceUpdate(init)
      else if Run(init).bus.s.configChanged then 0
      else BusSinceUpdate(init) + 1
  }

  ghost predicate Inv(es: seq<Edge>) {
    var t := Run(es);
    var s := t.bus.s;
    && (s.configChanged ==> s.bValid && !s.awHold && !s.wHold)
    && (s.bValid ==> !s.awHold && !s.wHold)
    && (BusSinceUpdate(es) == 0 ==> !s.awHold && !s.wHold && !s.configChanged)
    && (BusSinceUpdate(es) == 1 ==> !s.configChanged)
    && (!Sampled(t.crossing) ==> BusSinceAdc(es) >= BusSinceUpdate(es) + 1)
    && Spaced(t.crossing)
  }

  lemma {:induction false} BusWritesAreSpaced(es: seq<Edge>)
    requires AdcClockKeepsUp(es)
    ensures Inv(es)
  {
    if es != [] {
      var init, e := es[..|es| - 1], es[|es| - 1];
      BusWritesAreSpaced(init);
      var t := Run(es);
      assert t.crossing[..|t.crossing| - 1] == Run(init).crossing;
    }
  }

  /** Writes that change the stream configuration. */
  function ConfigWrites(ws: seq<A.Write>): nat {
    if ws == [] then 0
    else ConfigWrites(ws[..|ws| - 1]) + if ws[|ws| - 1].addr in A.CONFIG_REGS then 1 else 0
  }

  lemma {:induction false} EveryConfigWriteUpdates(es: seq<Edge>)
    ensures var t := Run(es);
            ConfigWrites(t.bus.writes) == |ConfigSync.Run(ZERO, t.crossing).updates| + A.Count(t.bus.s.configChanged)
  {
    if es != [] {
      var init, e := es[..|es| - 1], es[|es| - 1];
      EveryConfigWriteUpdates(init);
      var t0, t := Run(init), Run(es);
      ConfigSync.RunExtend(ZERO, t0.crossing, Crossing(t0.bus.s, e));
      if A.Fires(t0.bus.s) && HasBus(e) {
        assert t.bus.writes[..|t.bus.writes| - 1] == t0.bus.writes;
      } else {
        assert t.bus.writes == t0.bus.writes;
      }
    }
  }

  /**
   If the sample clock keeps up with the bus clock, no configuration write is lost on the way to the
   receiver: each is delivered as a pulse, travelling through the synchroniser, or just being raised.
   */
  lemma EveryConfigWriteIsDelivered(es: seq<Edge>)
    requires AdcClockKeepsUp(es)
    ensures var t := Run(es);
            var c := ConfigSync.Run(ZERO, t.crossing);
            ConfigWrites(t.bus.writes) == c.pulses + InFlight(c.s) + A.Count(t.bus.s.configChanged)
  {
    BusWritesAreSpaced(es);
    EveryConfigWriteUpdates(es);
    UpdatesConserved(ZERO, Run(es).crossing);
  }

  /** The register file moves only together with `config_changed`. */
  lemma RegistersMoveWithFlag(s: A.Slave, i: A.In)
    ensures !A.Step(s, i).configChanged ==> A.Step(s, i).regs == s.regs
  {
  }

  lemma HoldStep(c: ConfigSync.Trace<map<nat, nat>>, s: A.Slave, e: Edge)
    requires c.s.hold == LastHeld(ZERO, c.updates)
    ensures var c' := ConfigSync.Advance(c, Crossing(s, e));
            && c'.s.hold == LastHeld(ZERO, c'.updates)
            && (HasBus(e) && s.configChanged ==> c'.s.hold == s.regs)
            && (!(HasBus(e) && s.configChanged) ==> c'.s.hold == c.s.hold && c'.updates == c.updates)
  {
  }

  /** Between register writes, the crossing holds the register file as it is. */
  lemma {:induction false} HeldValueIsRegisterFile(es: seq<Edge>)
    ensures var t := Run(es);
            var c := ConfigSync.Run(ZERO, t.crossing);
            && c.s.hold == LastHeld(ZERO, c.updates)
            && (!t.bus.s.configChanged && c.updates != [] ==> c.s.hold == t.bus.s.regs)
  {
    if es != [] {
      var init, e := es[..|es| - 1], es[|es| - 1];
      HeldValueIsRegisterFile(init);
      var t0 := Run(init);
      ConfigSync.RunExtend(ZERO, t0.crossing, Crossing(t0.bus.s, e));
      HoldStep(ConfigSync.Run(ZERO, t0.crossing), t0.bus.s, e);
      if HasBus(e) {
        RegistersMoveWithFlag(t0.bus.s, e.i);
      }
    }
  }

  function AdcCount(es: seq<Edge>): nat {
    if es == [] then 0 else AdcCount(es[..|es| - 1]) + B(!es[|es| - 1].Bus?)
  }

  lemma RunStep(es: seq<Edge>, e: Edge)
    ensures Run(es + [e]) == Advance(Run(es), e)
  {
    assert (es + [e])[..|es|] == es;
  }

  lemma {:induction false} WritesOnlyGrow(es: seq<Edge>, tail: seq<Edge>)
    ensures Run(es).bus.writes <= Run(es + tail).bus.writes
  {
    if tail == [] {
      assert es + tail == es;
    } else {
      var init, e := tail[..|tail| - 1], tail[|tail| - 1];
      WritesOnlyGrow(es, init);
      assert es + tail == es + init + [e];
      RunStep(es + init, e);
    }
  }

  /** The bus makes no write in `tail`; it may run on, accept halves of writes and answer earlier ones. */
  predicate NoWrites(es: seq<Edge>, tail: seq<Edge>) {
    Run(es + tail).bus.writes == Run(es).bus.writes
  }

  lemma NoWritesPrefix(es: seq<Edge>, init: seq<Edge>, e: Edge)
    requires NoWrites(es, init + [e])
    ensures NoWrites(es, init) && Run(es + init + [e]).bus.writes == Run(es + init).bus.writes
  {
    assert es + (init + [e]) == es + init + [e];
    WritesOnlyGrow(es, init);
    WritesOnlyGrow(es + init, [e]);
  }

  lemma QuietEdge(t: Path, e: Edge)
    requires Advance(t, e).bus.writes == t.bus.writes && !t.bus.s.configChanged
    ensures var s := Advance(t, e).bus.s; !s.configChanged && s.regs == t.bus.s.regs
    ensures !HasUpdate(Crossing(t.bus.s, e)) && HasDst(Crossing(t.bus.s, e)) == !e.Bus?
    ensures Advance(t, e).crossing == t.crossing + [Crossing(t.bus.s, e)]
  {
  }

  lemma CrossedMore(crossed: seq<ConfigSync.Edge<map<nat, nat>>>, e: ConfigSync.Edge<map<nat, nat>>)
    requires NoUpdates(crossed) && !HasUpdate(e)
    ensures NoUpdates(crossed + [e]) && DstCount(crossed + [e]) == DstCount(crossed) + B(HasDst(e))
  {
    assert (crossed + [e])[..|crossed|] == crossed;
  }

  /** What a run without writes does: registers stay, and the crossing sees `crossed`, without an update. */
  ghost predicate Quiet(t: Path, t': Path, crossed: seq<ConfigSync.Edge<map<nat, nat>>>, adc: nat) {
    && t'.crossing == t.crossing + crossed && NoUpdates(crossed) && DstCount(crossed) == adc
    && !t'.bus.s.configChanged && t'.bus.s.regs == t.bus.s.regs
  }

  lemma QuietMore(t: Path, t': Path, crossed: seq<ConfigSync.Edge<map<nat, nat>>>, adc: nat, e: Edge)
    requires Quiet(t, t', crossed, adc) && Advance(t', e).bus.writes == t'.bus.writes
    ensures Quiet(t, Advance(t', e), crossed + [Crossing(t'.bus.s, e)], adc + B(!e.Bus?))
  {
    QuietEdge(t', e);
    CrossedMore(crossed, Crossing(t'.bus.s, e));
    assert t.crossing + crossed + [Crossing(t'.bus.s, e)] == t.crossing + (crossed + [Crossing(t'.bus.s, e)]);
  }

  /** Without a write the registers stay, and the crossing sees no update. */
  lemma {:induction false} QuietBus(es: seq<Edge>, tail: seq<Edge>)
    returns (crossed: seq<ConfigSync.Edge<map<nat, nat>>>)
    requires NoWrites(es, tail) && !Run(es).bus.s.configChanged
    ensures Quiet(Run(es), Run(es + tail), crossed, AdcCount(tail))
  {
    if tail == [] {
      crossed := [];
      assert es + tail == es && Run(es).crossing + [] == Run(es).crossing;
    } else {
      var init, e := tail[..|tail| - 1], tail[|tail| - 1];
      assert tail == init + [e] && es + tail == es + init + [e];
      NoWritesPrefix(es, init, e);
      crossed := QuietBus(es, init);
      RunStep(es + init, e);
      QuietMore(Run(es), Run(es + init), crossed, AdcCount(init), e);
      crossed := crossed + [Crossing(Run(es + init).bus.s, e)];
    }
  }

  /**
   From bus to sample clock: once the last write has been raised and three sample-clock edges have passed without a new
   write, whatever bus edges lie between them, the receiver's configuration is the register file, that is, all writes
   applied in order.
   */
  lemma ReceiverGetsTheRegisterFile(es: seq<Edge>, tail: seq<Edge>)
    requires AdcClockKeepsUp(es) && !Run(es).bus.s.configChanged && ConfigWrites(Run(es).bus.writes) > 0
    requires NoWrites(es, tail) && AdcCount(tail) >= 3
    ensures var t := Run(es + tail);
            t.bus.s.regs == Run(es).bus.s.regs && ConfigSync.Run(ZERO, t.crossing).s.data == t.bus.s.regs
  {
    var crossed := QuietBus(es, tail);
    BusWritesAreSpaced(es);
    EveryConfigWriteUpdates(es);
    HeldValueIsRegisterFile(es);
    HeldValueIsRegisterFile(es + tail);
    QuietConverges(ZERO, Run(es).crossing, crossed);
    assert ConfigSync.Run(ZERO, Run(es).crossing).updates != [];
  }

  // ---- whole configurations ----------------------------------------------------------------------------

  /** Sample-clock edges strictly after the last bus edge; enough if there was none. */
  function AdcSinceBus(es: seq<Edge>): nat {
    if es == [] then 1
    else if HasBus(es[|es| - 1]) then 0
    else AdcSinceBus(es[..|es| - 1]) + 1
  }

  /** A sample-clock edge falls strictly between any two bus edges, as with periods of 4 and 10 nanoseconds. */
  predicate AdcInEveryBusCycle(es: seq<Edge>) {
    es != [] ==>
      && AdcInEveryBusCycle(es[..|es| - 1])
      && (HasBus(es[|es| - 1]) ==> AdcSinceBus(es[..|es| - 1]) >= 1)
  }

  lemma {:induction false} FasterKeepsUp(es: seq<Edge>)
    requires AdcInEveryBusCycle(es)
    ensures AdcClockKeepsUp(es) && (AdcSinceBus(es) >= 1 ==> BusSinceAdc(es) == 0)
  {
    if es != [] {
      FasterKeepsUp(es[..|es| - 1]);
    }
  }

  /** Then three sample edges separate any two updates of the crossing. */
  lemma {:induction false} UpdatesAreThreeApart(es: seq<Edge>)
    requires AdcInEveryBusCycle(es)
    ensures SpacedBy(Run(es).crossing, 3)
    ensures DstSince(Run(es).crossing) >= BusSinceUpdate(es) + B(AdcSinceBus(es) >= 1)
  {
    if es != [] {
      var init := es[..|es| - 1];
      UpdatesAreThreeApart(init);
      FasterKeepsUp(init);
      BusWritesAreSpaced(init);
      var t := Run(es);
      assert t.crossing[..|t.crossing| - 1] == Run(init).crossing;
    }
  }

  /**
   With a sample edge in every bus cycle the receiver never sees a mix of two configurations, whatever the
   flip-flops capture of a word that changes: it holds the reset value or a register file as it once was.
   */
  lemma ReceiverConfigIsWhole(es: seq<Edge>)
    requires AdcInEveryBusCycle(es)
    ensures var c := ConfigSync.Run(ZERO, Run(es).crossing); c.s.data == ZERO || c.s.data in c.updates
  {
    UpdatesAreThreeApart(es);
    DataIsOneUpdate(ZERO, Run(es).crossing);
  }
}
