/**
 The whole way of a setting into the stream: from a command at the bridge, over bus, register file and clock
 crossing, into the packetizer and out as the first header that carries it.
 */
module SettingsPath {
  import A = AxiLite
  import B = Bridge
  import C = ControlPath
  import ConfigSync
  import H = HeaderLayout
  import L = LittleEndian
  import Packets
  import P = IqPacketizer
  import S = StreamPath
  import W = ControlSystem
  import opened Modular
  import opened Options

  /** Rising edges of the bus clock, of the sample clock, or of both, with what the flip-flops then capture. */
  datatype Edge =
    | Bus(i: A.In)
    | Sample(x: S.In)
    | Both(i: A.In, x: S.In, seesNew: bool, word: map<nat, nat>)

  function Reg(regs: map<nat, nat>, addr: nat): nat {
    if addr in regs then regs[addr] else 0
  }

  /** The configuration word as the register file and the top level form it. */
  function ConfigOf(regs: map<nat, nat>): S.Config {
    var decim := Reg(regs, B.DECIM) % 0x1_0000;
    S.Config(Reg(regs, A.CONTROL) % 2 == 1, Reg(regs, B.DDC_CONTROL) % 2 == 1,
             Reg(regs, B.FREQ_HZ_L) + WORD * Reg(regs, B.FREQ_HZ_H), Reg(regs, B.IQ_RATE), Reg(regs, B.BANDWIDTH),
             if decim == 0 then 1 else decim, Signed16(Reg(regs, B.GAIN_DB)))
  }

  function ControlEdge(e: Edge): C.Edge {
    match e
    case Bus(i) => C.Bus(i)
    case Sample(_) => C.Adc
    case Both(i, _, seesNew, word) => C.BusAndAdc(i, seesNew, word)
  }

  function ControlEdges(es: seq<Edge>): seq<C.Edge> {
    if es == [] then [] else ControlEdges(es[..|es| - 1]) + [ControlEdge(es[|es| - 1])]
  }

  /** The same edge as the packetizer's side sees it. */
  function StreamEdge(s: A.Slave, e: Edge): S.Edge {
    var u := if s.configChanged then Some(ConfigOf(s.regs)) else None;
    match e
    case Bus(_) => S.Ctrl(u)
    case Sample(x) => S.Adc(x)
    case Both(_, x, seesNew, word) => S.CtrlAndAdc(u, x, seesNew, ConfigOf(word))
  }

  function StreamEdges(es: seq<Edge>): seq<S.Edge> {
    if es == [] then []
    else
      var init := es[..|es| - 1];
      StreamEdges(init) + [StreamEdge(C.Run(ControlEdges(init)).bus.s, es[|es| - 1])]
  }

  /** The registers of the crossing, holding register files. */
  function Crossing(es: seq<Edge>): ConfigSync.Sync<map<nat, nat>> {
    ConfigSync.Run(C.ZERO, C.Run(ControlEdges(es)).crossing).s
  }

  lemma RunExtend(k: P.Params, es: seq<Edge>, e: Edge)
    ensures C.Run(ControlEdges(es + [e])) == C.Advance(C.Run(ControlEdges(es)), ControlEdge(e))
    ensures S.Run(k, StreamEdges(es + [e])) ==
            S.Advance(k, S.Run(k, StreamEdges(es)), StreamEdge(C.Run(ControlEdges(es)).bus.s, e))
    ensures Crossing(es + [e]) == ConfigSync.Next(Crossing(es), C.Crossing(C.Run(ControlEdges(es)).bus.s,
            ControlEdge(e)))
  {
    assert (es + [e])[..|es|] == es;
    var c, d := ControlEdges(es + [e]), StreamEdges(es + [e]);
    assert c[..|c| - 1] == ControlEdges(es) && d[..|d| - 1] == StreamEdges(es);
    ConfigSync.RunExtend(C.ZERO, C.Run(ControlEdges(es)).crossing, C.Crossing(C.Run(ControlEdges(es)).bus.s,
        ControlEdge(e)));
  }

  // ---- one crossing, seen as register files and as configurations --------------------------------------------

  /** A configuration that a register file stands for; the registers of the crossing start at zero. */
  predicate Stands(c: S.Config, regs: map<nat, nat>) {
    c == ConfigOf(regs) || (regs == C.ZERO && c == S.ZERO)
  }

  predicate SameCrossing(c: ConfigSync.Sync<S.Config>, m: ConfigSync.Sync<map<nat, nat>>) {
    && c.toggle == m.toggle && c.meta == m.meta && c.sync == m.sync && c.syncD == m.syncD
    && Stands(c.hold, m.hold) && Stands(c.data, m.data)
  }

  lemma SameDst(c: ConfigSync.Sync<S.Config>, m: ConfigSync.Sync<map<nat, nat>>, seen: bool, w: S.Config,
                word: map<nat, nat>)
    requires SameCrossing(c, m) && Stands(w, word)
    ensures SameCrossing(ConfigSync.DstNext(c, seen, w), ConfigSync.DstNext(m, seen, word))
  {
  }

  lemma SameHold(c: ConfigSync.Sync<S.Config>, m: ConfigSync.Sync<map<nat, nat>>, toggle: bool, w: S.Config,
                 word: map<nat, nat>)
    requires SameCrossing(c, m) && Stands(w, word)
    ensures SameCrossing(c.(hold := w, toggle := toggle), m.(hold := word, toggle := toggle))
  {
  }

  lemma SameStep(c: ConfigSync.Sync<S.Config>, m: ConfigSync.Sync<map<nat, nat>>, s: A.Slave, e: Edge)
    requires SameCrossing(c, m)
    ensures SameCrossing(ConfigSync.Next(c, S.Crossing(StreamEdge(s, e))), ConfigSync.Next(m, C.Crossing(s,
            ControlEdge(e))))
  {
    var w, word := if s.configChanged then ConfigOf(s.regs) else c.hold, if s.configChanged then s.regs else m.hold;
    var toggle := if s.configChanged then !c.toggle else c.toggle;
    match e
    case Bus(_) => SameHold(c, m, toggle, w, word);
    case Sample(_) => SameDst(c, m, c.toggle, c.hold, m.hold);
    case Both(_, _, seesNew, taken) =>
      var a, b := if s.configChanged then ConfigOf(taken) else c.hold, if s.configChanged then taken else m.hold;
      var seen := if seesNew then toggle else c.toggle;
      SameDst(c, m, seen, a, b);
      SameHold(ConfigSync.DstNext(c, seen, a), ConfigSync.DstNext(m, seen, b), toggle, w, word);
  }

  lemma {:induction false} CrossingsAgree(k: P.Params, es: seq<Edge>)
    ensures SameCrossing(S.Run(k, StreamEdges(es)).s, Crossing(es))
  {
    if es != [] {
      var init, e := es[..|es| - 1], es[|es| - 1];
      assert es == init + [e];
      CrossingsAgree(k, init);
      RunExtend(k, init, e);
      SameStep(S.Run(k, StreamEdges(init)).s, Crossing(init), C.Run(ControlEdges(init)).bus.s, e);
    }
  }

  // ---- the settings at the receiver --------------------------------------------------------------------------

  /** The configuration that the packetizer should get for receive settings. */
  function Expected(rx: B.Rx): S.Config {
    S.Config(true, true, rx.frequencyHz, rx.rate, rx.bandwidth, rx.decimation, 0)
  }

  lemma MatchingRegisters(regs: map<nat, nat>, rx: B.Rx)
    requires B.Sound(rx) && B.Matches(regs, rx)
    ensures ConfigOf(regs) == Expected(rx) && regs != C.ZERO
  {
    assert rx.decimation == 250 || rx.decimation == 500 || rx.decimation == 1000 || rx.decimation == 2000;
  }

  /** The bus has made exactly the bridge's writes, the last of them has been raised, and the sample clock keeps up. */
  predicate WritesMade(steps: seq<B.Step>, es: seq<Edge>) {
    var t := C.Run(ControlEdges(es));
    && C.AdcClockKeepsUp(ControlEdges(es))
    && t.bus.writes == W.BusWrites(B.Run(steps).bus.writes) && C.ConfigWrites(t.bus.writes) > 0
    && !t.bus.s.configChanged
  }

  /** Then the crossing holds the bridge's registers, and has delivered them when nothing is in flight. */
  lemma HoldsTheSettings(k: P.Params, steps: seq<B.Step>, es: seq<Edge>)
    requires WritesMade(steps, es) && B.EnableBit(B.Run(steps).bus.regs)
    ensures var s, rx := S.Run(k, StreamEdges(es)).s, B.Run(steps).rx;
            && s.hold == Expected(rx)
            && (ConfigSync.InFlight(s) == 0 ==> s.data == Expected(rx))
  {
    var ces := ControlEdges(es);
    B.RunInv(steps);
    W.ReplayIsApplied(B.Run(steps).bus.writes);
    W.RegistersAreWrites(ces);
    C.BusWritesAreSpaced(ces);
    C.EveryConfigWriteUpdates(ces);
    C.HeldValueIsRegisterFile(ces);
    ConfigSync.UpdatesConserved(C.ZERO, C.Run(ces).crossing);
    CrossingsAgree(k, es);
    MatchingRegisters(B.Run(steps).bus.regs, B.Run(steps).rx);
    assert ConfigSync.Run(C.ZERO, C.Run(ces).crossing).updates != [];
    assert Crossing(es).hold == B.Run(steps).bus.regs;
  }

  // ---- delivery ----------------------------------------------------------------------------------------------

  predicate HasSample(e: Edge) {
    !e.Bus?
  }

  function SampleCount(es: seq<Edge>): nat {
    if es == [] then 0 else SampleCount(es[..|es| - 1]) + if HasSample(es[|es| - 1]) then 1 else 0
  }

  predicate ConfigChanged(es: seq<Edge>) {
    C.Run(ControlEdges(es)).bus.s.configChanged
  }

  function Writes(es: seq<Edge>): seq<A.Write> {
    C.Run(ControlEdges(es)).bus.writes
  }

  /** The bus makes no write in `tail`, whatever else it does. */
  predicate NoWrites(es: seq<Edge>, tail: seq<Edge>) {
    Writes(es + tail) == Writes(es)
  }

  lemma {:induction false} ControlConcat(es: seq<Edge>, tail: seq<Edge>)
    ensures ControlEdges(es + tail) == ControlEdges(es) + ControlEdges(tail)
  {
    if tail == [] {
      assert es + tail == es;
    } else {
      var init, e := tail[..|tail| - 1], tail[|tail| - 1];
      ControlConcat(es, init);
      assert (es + tail)[..|es + tail| - 1] == es + init;
    }
  }

  lemma NoWritesPrefix(es: seq<Edge>, init: seq<Edge>, rest: seq<Edge>)
    requires NoWrites(es, init + rest) && !ConfigChanged(es)
    ensures NoWrites(es, init) && NoWrites(es + init, rest) && !ConfigChanged(es + init)
  {
    assert es + (init + rest) == es + init + rest;
    ControlConcat(es, init);
    ControlConcat(es + init, rest);
    C.WritesOnlyGrow(ControlEdges(es), ControlEdges(init));
    C.WritesOnlyGrow(ControlEdges(es + init), ControlEdges(rest));
    var crossed := C.QuietBus(ControlEdges(es), ControlEdges(init));
  }

  /** Sample edges until the one change in flight has been copied. */
  function EdgesLeft<T>(s: ConfigSync.Sync<T>): nat {
    if s.toggle != s.meta then 3 else if s.meta != s.sync then 2 else if s.sync != s.syncD then 1 else 0
  }

  /** `c` is held and `n` sample edges from delivery; when it is delivered, a new episode is about to start with it. */
  ghost predicate Awaits(t: S.Path, n: nat, c: S.Config) {
    && S.Inv(t) && t.s.hold == c && EdgesLeft(t.s) == n
    && ConfigSync.InFlight(t.s) == (if n == 0 then 0 else 1)
    && (n == 0 ==> t.s.data == c && t.p.phase.Idle? && t.episode == 0)
  }

  /** An edge without an update; at the last one the strobe ends the episode, whatever the packetizer was doing. */
  lemma AwaitStep(k: P.Params, t: S.Path, s: A.Slave, e: Edge, n: nat, c: S.Config)
    requires Awaits(t, n, c) && n > 0 && !s.configChanged
    ensures Awaits(S.Advance(k, t, StreamEdge(s, e)), if HasSample(e) then n - 1 else n, c)
  {
    if e.Bus? {
      S.CtrlStepKeeps(k, t, StreamEdge(s, e));
    } else if n == 1 {
      S.EpisodeEnds(k, t, StreamEdge(s, e));
    } else if P.Steady(S.Wired(t.s, e.x)) {
      S.SteadyStepKeeps(k, t, StreamEdge(s, e));
    } else {
      S.EpisodeEnds(k, t, StreamEdge(s, e));
    }
  }

  /** The output register is free at a sample edge, or is being emptied. */
  predicate Room(p: P.Packetizer, x: S.In) {
    !p.tvalid || x.mReady
  }

  /** Once it is delivered, edges without room on the output change nothing. */
  lemma StallStep(k: P.Params, t: S.Path, s: A.Slave, e: Edge, c: S.Config)
    requires Awaits(t, 0, c) && S.Enabled(c) && !s.configChanged && (HasSample(e) ==> !Room(t.p, e.x))
    ensures Awaits(S.Advance(k, t, StreamEdge(s, e)), 0, c)
  {
    if e.Bus? {
      S.CtrlStepKeeps(k, t, StreamEdge(s, e));
    } else {
      S.SteadyStepKeeps(k, t, StreamEdge(s, e));
    }
  }

  /** After the first `n` sample edges of `tail`, none finds room on the output. */
  predicate Stalls(k: P.Params, es: seq<Edge>, tail: seq<Edge>, n: nat) {
    tail != [] ==>
      var init, e := tail[..|tail| - 1], tail[|tail| - 1];
      && Stalls(k, es, init, n)
      && (HasSample(e) && SampleCount(init) >= n ==> !Room(S.Run(k, StreamEdges(es + init)).p, e.x))
  }

  function Left(n: nat, count: nat): nat {
    if count >= n then 0 else n - count
  }

  lemma DeliverStep(k: P.Params, t: S.Path, s: A.Slave, e: Edge, n: nat, count: nat, c: S.Config)
    requires Awaits(t, Left(n, count), c) && S.Enabled(c) && !s.configChanged
    requires HasSample(e) && count >= n ==> !Room(t.p, e.x)
    ensures Awaits(S.Advance(k, t, StreamEdge(s, e)), Left(n, count + if HasSample(e) then 1 else 0), c)
  {
    if count < n {
      AwaitStep(k, t, s, e, n - count, c);
    } else {
      StallStep(k, t, s, e, c);
    }
  }

  lemma DeliverEdge(k: P.Params, es: seq<Edge>, e: Edge, n: nat, count: nat, c: S.Config)
    requires Awaits(S.Run(k, StreamEdges(es)), Left(n, count), c) && S.Enabled(c) && !ConfigChanged(es)
    requires HasSample(e) && count >= n ==> !Room(S.Run(k, StreamEdges(es)).p, e.x)
    ensures Awaits(S.Run(k, StreamEdges(es + [e])), Left(n, count + if HasSample(e) then 1 else 0), c)
  {
    RunExtend(k, es, e);
    DeliverStep(k, S.Run(k, StreamEdges(es)), C.Run(ControlEdges(es)).bus.s, e, n, count, c);
  }

  /** Whatever bus and sample edges come, without a write: each sample edge brings delivery one closer. */
  lemma {:induction false} TailDelivers(k: P.Params, es: seq<Edge>, tail: seq<Edge>, n: nat, c: S.Config)
    requires NoWrites(es, tail) && !ConfigChanged(es) && Stalls(k, es, tail, n) && S.Enabled(c)
    requires Awaits(S.Run(k, StreamEdges(es)), n, c)
    ensures Awaits(S.Run(k, StreamEdges(es + tail)), Left(n, SampleCount(tail)), c)
  {
    if tail == [] {
      assert es + tail == es;
    } else {
      var init, e := tail[..|tail| - 1], tail[|tail| - 1];
      assert tail == init + [e] && es + tail == es + init + [e];
      NoWritesPrefix(es, init, [e]);
      TailDelivers(k, es, init, n, c);
      DeliverEdge(k, es + init, e, n, SampleCount(init), c);
    }
  }

  // ---- the first header ------------------------------------------------------------------------------------

  /** The header that receive settings call for: number 0, both first-packet flags, and the status flags of the
      cycle. */
  function FirstHeader(rx: B.Rx, timestamp: nat, flags: nat): P.HeaderInfo {
    P.HeaderInfo(0, timestamp, P.Settings(rx.frequencyHz, rx.rate, rx.bandwidth, rx.decimation, flags, 0), true)
  }

  lemma ExpectedIsLatched(rx: B.Rx, flags: nat)
    requires B.Sound(rx)
    ensures P.Latched(S.SettingsOf(Expected(rx), flags)) == FirstHeader(rx, 0, flags).settings
    ensures 0 < rx.decimation < WORD
  {
    assert rx.decimation == 250 || rx.decimation == 500 || rx.decimation == 1000 || rx.decimation == 2000;
  }

  lemma AcceptedSettings(steps: seq<B.Step>, q: B.RxRequest, accepted: bool, all: seq<B.Step>)
    requires q.enable != Some(false) && B.SetRx(B.Run(steps), q, accepted).1 == B.Accepted
    requires all == steps + [B.DoSetRx(q, accepted)]
    ensures var s := B.Run(all); s.rx == B.Wanted(B.Run(steps).rx, q) && B.Sound(s.rx) && B.EnableBit(s.bus.regs)
  {
    assert all[..|steps|] == steps;
    B.RunInv(steps);
    B.RunInv(all);
    B.SetRxAllOrNothing(B.Run(steps), q, accepted);
  }

  /** The first edge with room begins the header of packet 0. */
  lemma RoomBeginsHeader(k: P.Params, t: S.Path, s: A.Slave, e: Edge, rx: B.Rx)
    requires B.Sound(rx) && Awaits(t, 0, Expected(rx)) && !s.configChanged && HasSample(e) && Room(t.p, e.x)
    ensures var p := S.Advance(k, t, StreamEdge(s, e)).p;
            && p.phase.Header? && p.headerIndex == 0
            && P.Info(p) == FirstHeader(rx, t.p.nextTimestamp, S.StatusFlags(e.x))
            && p.nextTimestamp == t.p.nextTimestamp
  {
    ExpectedIsLatched(rx, S.StatusFlags(e.x));
    ModSmall(0, WORD);
  }

  /** The bus edge that raises a write in a quiet crossing puts exactly one change in flight. */
  lemma RaisedUpdate(es: seq<Edge>, raise: Edge)
    requires C.AdcInEveryBusCycle(ControlEdges(es + [raise])) && !raise.Sample? && ConfigChanged(es)
    ensures var s := Crossing(es + [raise]);
            && ConfigSync.InFlight(s) == 1 && EdgesLeft(s) == (if raise.Both? && raise.seesNew then 2 else 3)
            && !ConfigChanged(es + [raise]) && C.ConfigWrites(Writes(es + [raise])) > 0
  {
    var ces, e := ControlEdges(es), ControlEdge(raise);
    assert (es + [raise])[..|es|] == es;
    assert ControlEdges(es + [raise])[..|ces|] == ces;
    C.FasterKeepsUp(ces);
    C.BusWritesAreSpaced(ces);
    C.UpdatesAreThreeApart(ces);
    ConfigSync.ThreeEdgesNeverTear(C.ZERO, C.Run(ces).crossing);
    C.EveryConfigWriteUpdates(ces + [e]);
    C.RunStep(ces, e);
    ConfigSync.RunExtend(C.ZERO, C.Run(ces).crossing, C.Crossing(C.Run(ces).bus.s, e));
  }

  /** The bus edge `raise` raises the last of the bridge's writes. */
  predicate LastWriteRaised(steps: seq<B.Step>, es: seq<Edge>, raise: Edge) {
    && C.AdcInEveryBusCycle(ControlEdges(es + [raise])) && !raise.Sample? && ConfigChanged(es)
    && Writes(es + [raise]) == W.BusWrites(B.Run(steps).bus.writes)
  }

  /** Then its settings are held, with two or three sample edges to go. */
  lemma SettingsAreAwaited(k: P.Params, steps: seq<B.Step>, es: seq<Edge>, raise: Edge, n: nat)
    requires LastWriteRaised(steps, es, raise) && B.EnableBit(B.Run(steps).bus.regs)
    requires n == EdgesLeft(Crossing(es + [raise]))
    ensures 2 <= n <= 3 && !ConfigChanged(es + [raise])
    ensures Awaits(S.Run(k, StreamEdges(es + [raise])), n, Expected(B.Run(steps).rx))
  {
    var raised := es + [raise];
    RaisedUpdate(es, raise);
    C.FasterKeepsUp(ControlEdges(raised));
    HoldsTheSettings(k, steps, raised);
    CrossingsAgree(k, raised);
    S.RunInv(k, StreamEdges(raised));
    NowAwaits(S.Run(k, StreamEdges(raised)), Crossing(raised), n, Expected(B.Run(steps).rx));
  }

  lemma NowAwaits(t: S.Path, m: ConfigSync.Sync<map<nat, nat>>, n: nat, c: S.Config)
    requires S.Inv(t) && SameCrossing(t.s, m) && t.s.hold == c && ConfigSync.InFlight(m) == 1 && n == EdgesLeft(m) > 0
    ensures Awaits(t, n, c)
  {
  }

  lemma AwaitedHeader(k: P.Params, es: seq<Edge>, tail: seq<Edge>, e: Edge, n: nat, rx: B.Rx)
    requires B.Sound(rx) && Awaits(S.Run(k, StreamEdges(es)), n, Expected(rx)) && !ConfigChanged(es)
    requires NoWrites(es, tail) && SampleCount(tail) >= n && Stalls(k, es, tail, n)
    requires HasSample(e) && Room(S.Run(k, StreamEdges(es + tail)).p, e.x)
    ensures var edges := StreamEdges(es + tail + [e]);
            var p := S.Run(k, edges).p;
            && p.phase.Header? && p.headerIndex == 0
            && P.Info(p) == FirstHeader(rx, S.Base(k, edges), S.StatusFlags(e.x))
  {
    TailDelivers(k, es, tail, n, Expected(rx));
    assert tail + [] == tail;
    NoWritesPrefix(es, tail, []);
    RunExtend(k, es + tail, e);
    RoomBeginsHeader(k, S.Run(k, StreamEdges(es + tail)), C.Run(ControlEdges(es + tail)).bus.s, e, rx);
    S.StampsFollowBase(k, StreamEdges(es + tail + [e]));
  }

  /** The first header of an episode, with each setting that the request names, and the others as they were. */
  predicate AnnouncesRequest(h: P.HeaderInfo, rx: B.Rx, q: B.RxRequest) {
    && h.seqNo == 0 && h.first
    && h.settings.frequencyHz == (if q.frequencyHz.Some? then q.frequencyHz.value else rx.frequencyHz)
    && h.settings.sampleRateHz == (if q.rate.Some? then q.rate.value % WORD else rx.rate)
    && h.settings.bandwidthHz == (if q.bandwidth.Some? then q.bandwidth.value % WORD else rx.bandwidth)
    && h.settings.decimation * h.settings.sampleRateHz == 250_000_000
  }

  /**
   From command to header, for every run of the two clocks: `raise` is the bus edge that raises the last write of an
   accepted `set_rx`, and no write follows. Two or three sample edges deliver the settings, whatever bus edges lie among
   them; the first sample edge after that with room on the output begins the header of packet 0, with exactly the
   settings asked for.
   */
  lemma SetRxReachesHeader(k: P.Params, steps: seq<B.Step>, q: B.RxRequest, accepted: bool, es: seq<Edge>, raise: Edge,
                           tail: seq<Edge>, e: Edge, n: nat)
    requires q.enable != Some(false) && B.SetRx(B.Run(steps), q, accepted).1 == B.Accepted
    requires LastWriteRaised(steps + [B.DoSetRx(q, accepted)], es, raise) && n == EdgesLeft(Crossing(es + [raise]))
    requires NoWrites(es + [raise], tail) && SampleCount(tail) >= n && Stalls(k, es + [raise], tail, n)
    requires HasSample(e) && Room(S.Run(k, StreamEdges(es + [raise] + tail)).p, e.x)
    ensures 2 <= n <= 3
    ensures var edges := StreamEdges(es + [raise] + tail + [e]);
            var p := S.Run(k, edges).p;
            && p.phase.Header? && p.headerIndex == 0
            && P.Info(p) == FirstHeader(B.Wanted(B.Run(steps).rx, q), S.Base(k, edges), S.StatusFlags(e.x))
            && AnnouncesRequest(P.Info(p), B.Run(steps).rx, q)
  {
    B.WantedIsAsked(B.Run(steps).rx, q);
    var all := steps + [B.DoSetRx(q, accepted)];
    AcceptedSettings(steps, q, accepted, all);
    SettingsAreAwaited(k, all, es, raise, n);
    AwaitedHeader(k, es + [raise], tail, e, n, B.Run(all).rx);
  }

  lemma FirstFlagsOnWire(flags: nat)
    requires flags < 4
    ensures P.WithFirstFlags(flags) == flags + 12
  {
  }

  /** On the wire that header unpacks, whatever payload follows, to the fields of the settings. */
  lemma HeaderUnpacksToSettings(k: P.Params, rx: B.Rx, timestamp: nat, flags: nat, payload: seq<L.byte>)
    requires P.ValidParams(k) && B.Sound(rx) && timestamp < STAMP && flags < 4
    ensures var r := Packets.UnpackIq(H.BytesOf(H.HeaderWords(k, FirstHeader(rx, timestamp, flags))) + payload);
            && r.Ok? && r.value.seqNo == 0 && r.value.adcTimestamp == timestamp && r.value.flags == flags + 12
            && r.value.frequencyHz == rx.frequencyHz && r.value.iqSampleRateHz == rx.rate
            && r.value.bandwidthHz == rx.bandwidth && r.value.decimation == rx.decimation
  {
    ExpectedIsLatched(rx, flags);
    FirstFlagsOnWire(flags);
    assert H.WithinWidths(k, FirstHeader(rx, timestamp, flags));
    H.EmittedHeaderUnpacks(k, FirstHeader(rx, timestamp, flags), payload);
  }

  /** All registers are there, and each is 32 bits wide. */
  predicate WholeFile(regs: map<nat, nat>) {
    forall a :: a in A.CONFIG_REGS ==> a in regs && regs[a] < WORD
  }

  /** A header as the packetizer latches it from the configuration word of a register file. */
  function HeaderOf(regs: map<nat, nat>, seqNo: nat, timestamp: nat, flags: nat, first: bool): P.HeaderInfo {
    P.HeaderInfo(seqNo, timestamp, P.Latched(S.SettingsOf(ConfigOf(regs), flags)), first)
  }

  /** Any register file on the wire: header words 6 to 9 are registers, word 12 the decimation, word 11 has the gain. */
  lemma HeaderWordsAreRegisters(k: P.Params, regs: map<nat, nat>, h: P.HeaderInfo, flags: nat)
    requires WholeFile(regs) && h == HeaderOf(regs, h.seqNo, h.timestamp, flags, h.first) && flags < 4
    ensures P.HeaderWord(k, h, 6) == regs[0x118] && P.HeaderWord(k, h, 7) == regs[0x11c]
    ensures P.HeaderWord(k, h, 8) == regs[0x120] && P.HeaderWord(k, h, 9) == regs[0x124]
    ensures P.HeaderWord(k, h, 11) == regs[0x128] % 0x1_0000 * 0x1_0000 + flags + (if h.first then 12 else 0)
    ensures P.HeaderWord(k, h, 12) == if regs[0x108] % 0x1_0000 == 0 then 1 else regs[0x108] % 0x1_0000
  {
    assert 0x118 in A.CONFIG_REGS && 0x11c in A.CONFIG_REGS && 0x120 in A.CONFIG_REGS && 0x124 in A.CONFIG_REGS;
    assert 0x128 in A.CONFIG_REGS && 0x108 in A.CONFIG_REGS;
    var low, high := regs[0x118], regs[0x11c];
    DivModUnique(low + WORD * high, high, WORD, low);
    PatternOfSigned(regs[0x128]);
  }

  lemma PatternOfSigned(v: nat)
    ensures P.Pattern16(Signed16(v)) == v % 0x1_0000
  {
  }

  /** The stream is on exactly if bit 0 of the control register and bit 0 of the stream's control register are set. */
  lemma StreamIsOnIff(regs: map<nat, nat>)
    requires WholeFile(regs)
    ensures S.Enabled(ConfigOf(regs)) <==> regs[0x008] % 2 == 1 && regs[0x100] % 2 == 1
  {
    assert 0x008 in A.CONFIG_REGS && 0x100 in A.CONFIG_REGS;
  }
}
