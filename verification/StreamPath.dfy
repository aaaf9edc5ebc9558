/**
 The packetizer with its enable, settings and reconfiguration strobe taken from the configuration
 crossing, as the receiver top level wires them.
 */
module StreamPath {
  import opened Modular
  import opened Options
  import C = ConfigSync
  import P = IqPacketizer

  /** The part of the configuration word that the packetizer uses. */
  datatype Config = Config(coreEnable: bool, ddcEnable: bool, frequencyHz: nat, sampleRateHz: nat, bandwidthHz: nat,
                           decimRate: nat, gainDbQ8: int)

  /** What all-zero registers stand for: a disabled stream. */
  const ZERO := Config(false, false, 0, 0, 0, 0, 0)

  predicate Enabled(c: Config) { c.coreEnable && c.ddcEnable }

  /** Stream-side inputs of one sample-clock cycle; only the two status flags can be set from outside. */
  datatype In = In(sData: nat, sValid: bool, adcTimestamp: nat, adcOr: bool, overflow: bool, mReady: bool)

  function StatusFlags(i: In): nat {
    (if i.adcOr then 1 else 0) + if i.overflow then 2 else 0
  }

  function SettingsOf(c: Config, flags: nat): P.Settings {
    P.Settings(c.frequencyHz, c.sampleRateHz, c.bandwidthHz, c.decimRate, flags, c.gainDbQ8)
  }

  /** Rising edges of the control clock, of the sample clock, or of both. */
  datatype Edge =
    | Ctrl(update: Option<Config>)
    | Adc(i: In)
    | CtrlAndAdc(update: Option<Config>, i: In, seesNew: bool, word: Config)

  predicate HasAdc(e: Edge) { !e.Ctrl? }

  function Crossing(e: Edge): C.Edge<Config> {
    match e
    case Ctrl(u) => C.Src(u)
    case Adc(_) => C.Dst
    case CtrlAndAdc(u, _, seesNew, word) => C.Both(u, seesNew, word)
  }

  /** The packetizer's inputs in a cycle. */
  function Wired(s: C.Sync<Config>, i: In): P.In {
    P.In(Enabled(s.data), C.Pulse(s), i.sData, i.sValid, i.adcTimestamp, SettingsOf(s.data, StatusFlags(i)), i.mReady)
  }

  /** The edge completes a packet. */
  predicate Completes(k: P.Params, p: P.Packetizer, i: P.In) {
    P.Steady(i) && P.OutReady(p, i) && p.phase.Payload? && i.sValid && p.payloadCount == k.frameSamples - 1
  }

  /** The path, and the number of packets completed since the stream was last disabled or reconfigured. */
  datatype Path = Path(s: C.Sync<Config>, p: P.Packetizer, episode: nat)

  function Start(): Path {
    Path(C.Reset(ZERO), P.Reset(), 0)
  }

  function Advance(k: P.Params, t: Path, e: Edge): Path {
    var s' := C.Next(t.s, Crossing(e));
    if !HasAdc(e) then t.(s := s')
    else
      var i := Wired(t.s, e.i);
      Path(s', P.Step(k, t.p, i),
           if !P.Steady(i) then 0 else if Completes(k, t.p, i) then t.episode + 1 else t.episode)
  }

  function Run(k: P.Params, es: seq<Edge>): Path {
    if es == [] then Start() else Advance(k, Run(k, es[..|es| - 1]), es[|es| - 1])
  }

  /** A header's settings are those of one configuration, plus status flags. */
  predicate FromOneConfig(h: P.HeaderInfo, c: Config) {
    h.settings.flags < 4 && h.settings == P.Latched(SettingsOf(c, h.settings.flags))
  }

  ghost predicate Inv(t: Path) {
    && t.p.packetSeq == t.episode % WORD
    && (t.p.firstPacket <==> t.episode == 0)
    && (!Enabled(t.s.data) ==> t.episode == 0 && t.p.phase.Idle?)
    && (!t.p.phase.Idle? ==> FromOneConfig(P.Info(t.p), t.s.data))
  }

  lemma CtrlStepKeeps(k: P.Params, t: Path, e: Edge)
    requires Inv(t) && !HasAdc(e)
    ensures Inv(Advance(k, t, e))
  {
  }

  /** Disabled or reconfigured: the episode ends, whatever the packetizer was doing. */
  lemma EpisodeEnds(k: P.Params, t: Path, e: Edge)
    requires Inv(t) && HasAdc(e) && !P.Steady(Wired(t.s, e.i))
    ensures Inv(Advance(k, t, e)) && Advance(k, t, e).p.phase.Idle?
  {
    ModSmall(0, WORD);
  }

  lemma SteadyStepKeeps(k: P.Params, t: Path, e: Edge)
    requires Inv(t) && HasAdc(e) && P.Steady(Wired(t.s, e.i))
    ensures Inv(Advance(k, t, e))
  {
    ModAddLeft(t.episode, 1, WORD);
    assert Advance(k, t, e).s.data == t.s.data;
  }

  lemma {:induction false} RunInv(k: P.Params, es: seq<Edge>)
    ensures Inv(Run(k, es))
  {
    if es == [] {
      ModSmall(0, WORD);
    } else {
      var t, e := Run(k, es[..|es| - 1]), es[|es| - 1];
      RunInv(k, es[..|es| - 1]);
      if !HasAdc(e) {
        CtrlStepKeeps(k, t, e);
      } else if P.Steady(Wired(t.s, e.i)) {
        SteadyStepKeeps(k, t, e);
      } else {
        EpisodeEnds(k, t, e);
      }
    }
  }

  /** DISCONTINUITY and CONFIG_CHANGED as set in a flags word. */
  function FirstFlags(flags: nat): nat { flags / 4 % 4 }

  /** What the header registers say about the episode. */
  ghost predicate HeadersTell(t: Path) {
    && (!t.s.data.coreEnable || !t.s.data.ddcEnable ==> t.p.packetSeq == 0 && t.p.phase.Idle?)
    && (!t.p.phase.Idle? ==>
          var h := P.Info(t.p);
          && h.seqNo == t.episode % WORD
          && FirstFlags(P.PacketFlags(h)) == (if t.episode == 0 then 3 else 0)
          && FromOneConfig(h, t.s.data))
  }

  lemma InvTells(t: Path)
    requires Inv(t)
    ensures HeadersTell(t)
  {
    ModSmall(0, WORD);
  }

  /**
   In every run of both clocks: while either enable bit is off no packet is under way and the sequence number is
   zero, and every header under construction carries the number of packets since the stream was enabled or
   reconfigured, both first-packet flags exactly when that number is zero, and the settings of one
   configuration, the one in force for the whole packet.
   */
  lemma HeadersFollowEpisodes(k: P.Params, es: seq<Edge>)
    ensures HeadersTell(Run(k, es))
  {
    RunInv(k, es);
    InvTells(Run(k, es));
  }

  /** The word that an edge puts on the output, when it is header word 3 or 11. */
  ghost predicate WordsTell(k: P.Params, t: Path, e: Edge)
    requires HasAdc(e)
  {
    var i, out := Wired(t.s, e.i), Advance(k, t, e).p.out;
    P.Steady(i) && P.OutReady(t.p, i) && t.p.phase.Header? ==>
      && (t.p.headerIndex == 3 ==> out.data == t.episode % WORD)
      && (t.p.headerIndex == 11 ==> FirstFlags(out.data % 0x1_0000) == (if t.episode == 0 then 3 else 0))
  }

  lemma HeadersTellWords(k: P.Params, t: Path, e: Edge)
    requires HasAdc(e) && HeadersTell(t)
    ensures WordsTell(k, t, e)
  {
    var h := P.Info(t.p);
    if !t.p.phase.Idle? {
      FlagsInLowHalf(P.Pattern16(h.settings.gainDbQ8), P.PacketFlags(h));
    }
  }

  /** On the wire: header word 3 is the episode's packet number, and word 11 carries the flags. */
  lemma EmittedWordsFollowEpisodes(k: P.Params, es: seq<Edge>, e: Edge)
    requires HasAdc(e)
    ensures WordsTell(k, Run(k, es), e)
  {
    HeadersFollowEpisodes(k, es);
    HeadersTellWords(k, Run(k, es), e);
  }

  lemma FlagsInLowHalf(high: nat, flags: nat)
    requires flags < 0x1_0000
    ensures (high * 0x1_0000 + flags) % 0x1_0000 == flags
  {
  }

  /** A header has the status of the cycle in which it starts: bit 0 for the ADC range, bit 1 for an overflow. */
  lemma FlagsAreStatus(k: P.Params, es: seq<Edge>, e: Edge)
    requires HasAdc(e)
    ensures var p, p' := Run(k, es).p, Run(k, es + [e]).p;
            p.phase.Idle? && p'.phase.Header? ==>
              && p'.latched.flags < 4
              && (p'.latched.flags % 2 == 1 <==> e.i.adcOr)
              && (p'.latched.flags / 2 == 1 <==> e.i.overflow)
  {
    assert (es + [e])[..|es|] == es;
  }

  /** A change of configuration reaches the packetizer only at an edge that ends the episode. */
  lemma ConfigChangesEndEpisodes(k: P.Params, es: seq<Edge>, e: Edge)
    ensures var t := Run(k, es);
            var t' := Advance(k, t, e);
            t'.s.data != t.s.data ==> t'.p.phase.Idle? && t'.episode == 0 && t'.p.packetSeq == 0 && t'.p.firstPacket
  {
    RunInv(k, es);
    var t := Run(k, es);
    if Advance(k, t, e).s.data != t.s.data {
      assert HasAdc(e) && C.Pulse(t.s);
      EpisodeEnds(k, t, e);
      ModSmall(0, WORD);
    }
  }

  // ---- whole configurations ------------------------------------------------------------------------------

  function Crossings(es: seq<Edge>): seq<C.Edge<Config>> {
    if es == [] then [] else Crossings(es[..|es| - 1]) + [Crossing(es[|es| - 1])]
  }

  lemma {:induction false} PathCrosses(k: P.Params, es: seq<Edge>)
    ensures Run(k, es).s == C.Run(ZERO, Crossings(es)).s
  {
    if es != [] {
      PathCrosses(k, es[..|es| - 1]);
      C.RunExtend(ZERO, Crossings(es[..|es| - 1]), Crossing(es[|es| - 1]));
    }
  }

  /** With three sample edges between updates, every header's settings are those of one update. */
  lemma HeadersAreOneUpdate(k: P.Params, es: seq<Edge>)
    requires C.SpacedBy(Crossings(es), 3) && !Run(k, es).p.phase.Idle?
    ensures exists c :: c in C.Run(ZERO, Crossings(es)).updates && FromOneConfig(P.Info(Run(k, es).p), c)
  {
    RunInv(k, es);
    PathCrosses(k, es);
    C.DataIsOneUpdate(ZERO, Crossings(es));
  }

  // ---- time stamps ---------------------------------------------------------------------------------------

  /** The edge samples the reconfiguration strobe. */
  predicate Strobes(t: Path, e: Edge) {
    HasAdc(e) && C.Pulse(t.s)
  }

  /** The ADC counter at the last strobe that found the stream enabled, zero if there was none. */
  function Base(k: P.Params, es: seq<Edge>): nat {
    if es == [] then 0
    else
      var t, e := Run(k, es[..|es| - 1]), es[|es| - 1];
      if Strobes(t, e) && Enabled(t.s.data) then e.i.adcTimestamp else Base(k, es[..|es| - 1])
  }

  /** ADC ticks per packet under a configuration. */
  function Ticks(k: P.Params, c: Config): nat {
    P.TimestampStep(k, P.Latched(SettingsOf(c, 0)))
  }

  /** `n` packets after `base`. */
  function StampAfter(base: nat, n: nat, ticks: nat): nat {
    if n == 0 then base else (base + n * ticks) % STAMP
  }

  lemma StampAdvances(base: nat, n: nat, ticks: nat)
    ensures (StampAfter(base, n, ticks) + ticks) % STAMP == StampAfter(base, n + 1, ticks)
  {
    assert (n + 1) * ticks == n * ticks + ticks;
    if n > 0 {
      ModAddLeft(base + n * ticks, ticks, STAMP);
    }
  }

  ghost predicate StampInv(k: P.Params, t: Path, base: nat) {
    && (!t.p.phase.Idle? ==> t.p.packetTimestamp == t.p.nextTimestamp)
    && t.p.nextTimestamp == StampAfter(base, t.episode, Ticks(k, t.s.data))
  }

  lemma StampStep(k: P.Params, t: Path, e: Edge, base: nat)
    requires Inv(t) && StampInv(k, t, base)
    ensures StampInv(k, Advance(k, t, e), if Strobes(t, e) && Enabled(t.s.data) then e.i.adcTimestamp else base)
  {
    if HasAdc(e) && P.Steady(Wired(t.s, e.i)) {
      StampAdvances(base, t.episode, Ticks(k, t.s.data));
      assert !t.p.phase.Idle? ==> P.TimestampStep(k, t.p.latched) == Ticks(k, t.s.data);
    }
  }

  /** In every run, packet number n of an episode is stamped Base plus n times the ticks per packet, modulo 2^64. */
  lemma {:induction false} StampsFollowBase(k: P.Params, es: seq<Edge>)
    ensures StampInv(k, Run(k, es), Base(k, es))
  {
    if es != [] {
      RunInv(k, es[..|es| - 1]);
      StampsFollowBase(k, es[..|es| - 1]);
      StampStep(k, Run(k, es[..|es| - 1]), es[|es| - 1], Base(k, es[..|es| - 1]));
    }
  }

  /** The ADC counter at the edge that last switched the stream off, zero if it never ran. */
  function OffTick(k: P.Params, es: seq<Edge>): nat {
    if es == [] then 0
    else
      var init, e := es[..|es| - 1], es[|es| - 1];
      if HasAdc(e) && Enabled(Run(k, init).s.data) && !Enabled(Run(k, es).s.data) then e.i.adcTimestamp
          else OffTick(k, init)
  }

  /** A strobe: the ADC counter, whether it found the stream enabled, and when the stream had been switched off. */
  datatype Strobe = Strobe(tick: nat, found: bool, off: nat)

  function LastStrobe(k: P.Params, es: seq<Edge>): Option<Strobe> {
    if es == [] then None
    else
      var init, e := es[..|es| - 1], es[|es| - 1];
      var t := Run(k, init);
      if Strobes(t, e) then Some(Strobe(e.i.adcTimestamp, Enabled(t.s.data), OffTick(k, init))) else LastStrobe(k, init)
  }

  /** The base, by the last strobe; while the stream is off it is the tick at which it was switched off. */
  lemma {:induction false} BaseByStrobe(k: P.Params, es: seq<Edge>)
    ensures var s := LastStrobe(k, es);
            && (s.Some? ==> Base(k, es) == if s.value.found then s.value.tick else s.value.off)
            && (s.None? ==> Base(k, es) == 0 && !Enabled(Run(k, es).s.data))
    ensures !Enabled(Run(k, es).s.data) ==> Base(k, es) == OffTick(k, es)
  {
    if es != [] {
      BaseByStrobe(k, es[..|es| - 1]);
    }
  }

  /**
   The first header of an episode is stamped with the ADC counter of the strobe that opened the episode if
   that strobe found the stream enabled, else with the counter of the moment the stream had been switched
   off, zero if it never ran. So it carries the opening strobe's tick exactly when the strobe found the
   stream enabled, or the two ticks agree.
   */
  lemma FirstStampIff(k: P.Params, es: seq<Edge>) returns (strobe: Strobe)
    requires !Run(k, es).p.phase.Idle? && Run(k, es).episode == 0
    ensures LastStrobe(k, es) == Some(strobe)
    ensures var stamp := P.Info(Run(k, es).p).timestamp;
            && stamp == (if strobe.found then strobe.tick else strobe.off)
            && (stamp == strobe.tick <==> strobe.found || strobe.off == strobe.tick)
  {
    RunInv(k, es);
    StampsFollowBase(k, es);
    BaseByStrobe(k, es);
    strobe := LastStrobe(k, es).value;
  }

  /** A run that shows it: the first packet after power-up is stamped zero, whatever the ADC counter says by then. */
  lemma FirstTimestampIsStale(k: P.Params, c: Config, i: In)
    requires Enabled(c) && P.ValidParams(k) && i.adcTimestamp > 0
    ensures var t := Run(k, [Ctrl(Some(c))] + [Adc(i)] + [Adc(i)] + [Adc(i)] + [Adc(i)]);
            t.p.phase.Header? && t.p.packetTimestamp == 0 && t.p.firstPacket && t.s.data == c
  {
    var e1: seq<Edge> := [Ctrl(Some(c))];
    var e2 := e1 + [Adc(i)];
    var e3 := e2 + [Adc(i)];
    var e4 := e3 + [Adc(i)];
    var e5 := e4 + [Adc(i)];
    assert e1[..0] == [] && e2[..1] == e1 && e3[..2] == e2 && e4[..3] == e3 && e5[..4] == e4;
    assert Run(k, []) == Start();
    var t1 := Run(k, e1);
    assert t1 == Advance(k, Start(), Ctrl(Some(c)));
    assert t1 == Path(C.Sync(c, true, false, false, false, ZERO), P.Reset(), 0);
    var t2 := Run(k, e2);
    assert t2.s == C.Sync(c, true, true, false, false, ZERO) && t2.p == P.Reset();
    var t3 := Run(k, e3);
    assert t3.s == C.Sync(c, true, true, true, false, ZERO) && t3.p == P.Reset();
    var t4 := Run(k, e4);
    assert t4.s == C.Sync(c, true, true, true, true, c) && t4.p == P.Reset();
  }
}
