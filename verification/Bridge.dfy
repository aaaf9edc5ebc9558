/**
 The control bridge: commands that keep the receive settings, the receiver's registers and the packet DMA
 in agreement.
 */
module Bridge {
  import opened AxiLite
  import D = IqDma
  import opened Modular
  import opened Options

  const MIN_FREQUENCY := 500_000
  const MAX_FREQUENCY := 108_000_000
  const GAIN_SHIFT := 30

  const DDC_CONTROL := 0x100
  const FREQ_WORD := 0x104
  const DECIM := 0x108
  const GAIN := 0x10c
  const FREQ_HZ_L := 0x118
  const FREQ_HZ_H := 0x11c
  const IQ_RATE := 0x120
  const BANDWIDTH := 0x124
  const GAIN_DB := 0x128

  // ---- register values ----------------------------------------------------------------------------------

  /** `((f << 32) + 125000000) / 250000000`, in 64 bits, cut to 32. */
  function FreqWord(f: nat): nat {
    (f * WORD % STAMP + ADC_RATE / 2) % STAMP / ADC_RATE % WORD
  }

  function Distance(a: int, b: int): nat {
    if a < b then b - a else a - b
  }

  lemma FreqWordFits(f: nat)
    requires f <= MAX_FREQUENCY
    ensures f * WORD + ADC_RATE / 2 < STAMP
    ensures FreqWord(f) == (f * WORD + ADC_RATE / 2) / ADC_RATE
  {
    ModSmall(f * WORD, STAMP);
    ModSmall(f * WORD + ADC_RATE / 2, STAMP);
    ModSmall((f * WORD + ADC_RATE / 2) / ADC_RATE, WORD);
  }

  lemma RoundedIsNearest(target: nat, w: int)
    ensures var r := (target + ADC_RATE / 2) / ADC_RATE * ADC_RATE;
            Distance(r, target) <= ADC_RATE / 2 && Distance(r, target) <= Distance(w * ADC_RATE, target)
  {
  }

  /** Tuning is to the nearest word: no other integer comes closer, and nothing overflows on the way. */
  lemma FreqWordIsNearest(f: nat, w: int)
    requires f <= MAX_FREQUENCY
    ensures f * WORD + ADC_RATE / 2 < STAMP && FreqWord(f) < WORD
    ensures Distance(FreqWord(f) * ADC_RATE, f * WORD) <= ADC_RATE / 2
    ensures Distance(FreqWord(f) * ADC_RATE, f * WORD) <= Distance(w * ADC_RATE, f * WORD)
  {
    FreqWordFits(f);
    RoundedIsNearest(f * WORD, w);
  }

  function DecimationForRate(rate: nat): nat {
    if rate == 0 then 0 else ADC_RATE / rate
  }

  predicate SupportedRate(rate: int) {
    rate == 125_000 || rate == 250_000 || rate == 500_000 || rate == 1_000_000
  }

  // ---- state ----------------------------------------------------------------------------------------------

  datatype Rx = Rx(streamId: int, adcChannel: int, frequencyHz: nat, rate: nat, bandwidth: nat, mode: string,
                   enabled: bool, decimation: nat)

  /** Destination ports and address as last requested. */
  datatype Peer = Peer(iqPort: nat, psdPort: nat, statusPort: nat, address: string)

  /** Where the network layer sends. */
  datatype Target = Target(address: string, iqPort: nat, statusPort: nat)

  datatype RegWrite = RegWrite(addr: nat, value: nat)

  /** The register file, and every write the bridge made. */
  datatype Bus = Bus(regs: map<nat, nat>, writes: seq<RegWrite>)

  datatype State = State(rx: Rx, peer: Peer, target: Option<Target>, peerIp: string, helloSeen: bool, psdEnabled: bool,
                         forwarded: nat, errors: nat, bus: Bus, dma: D.Dma)

  datatype Reply =
    | Accepted
    | UnsupportedVersion
    | InvalidField
    | OutOfRange
    | InvalidCommand
    | HardwareFault

  const FIRST_IP := "192.168.10.1"
  const PACKET_BYTES := 1088

  const FIRST_RX := Rx(0, 0, 98_500_000, 1_000_000, 250_000, "WFM", false, 250)

  function Initial(): State {
    State(FIRST_RX, Peer(9001, 9002, 9003, FIRST_IP), None, FIRST_IP, false, false, 0, 0, Bus(RESET_REGS, []),
          D.PowerUp())
  }

  // ---- the register bus -------------------------------------------------------------------------------------

  /** A 32-bit write; the register file keeps it at a configuration address. */
  function Put(bus: Bus, addr: nat, value: nat): Bus {
    Bus(if addr in CONFIG_REGS then bus.regs[addr := value] else bus.regs, bus.writes + [RegWrite(addr, value)])
  }

  /** This is what the register file does with a write of all four bytes. */
  lemma PutIsBusWrite(bus: Bus, addr: nat, value: nat)
    requires value < WORD && CONFIG_REGS <= bus.regs.Keys
    ensures Put(bus, addr, value).regs == Apply(bus.regs, Write(addr, value, EVERY_BYTE))
  {
    FourBytes(value);
  }

  predicate EnableBit(regs: map<nat, nat>) {
    DDC_CONTROL in regs && regs[DDC_CONTROL] % 2 == 1
  }

  function ControlWord(rx: Rx): nat {
    if rx.adcChannel != 0 then 3 else 1
  }

  /** Everything but the enable bit, written while it is off. */
  function Settings(bus: Bus, rx: Rx): Bus {
    var b1 := Put(bus, CONTROL, 2);
    var b2 := Put(b1, CLEAR_COUNTS, 1);
    var b3 := Put(b2, FREQ_HZ_L, rx.frequencyHz % WORD);
    var b4 := Put(b3, FREQ_HZ_H, rx.frequencyHz / WORD % WORD);
    var b5 := Put(b4, FREQ_WORD, FreqWord(rx.frequencyHz));
    var b6 := Put(b5, IQ_RATE, rx.rate);
    var b7 := Put(b6, DECIM, rx.decimation);
    var b8 := Put(b7, BANDWIDTH, rx.bandwidth);
    var b9 := Put(b8, GAIN, GAIN_SHIFT);
    var b10 := Put(b9, GAIN_DB, 0);
    Put(b10, CONTROL, 1)
  }

  function Program(bus: Bus, rx: Rx): Bus {
    Put(Settings(Put(bus, DDC_CONTROL, 0), rx), DDC_CONTROL, ControlWord(rx))
  }

  function TurnOff(bus: Bus): Bus {
    Put(Put(bus, DDC_CONTROL, 0), CONTROL, 0)
  }

  // ---- commands -----------------------------------------------------------------------------------------------

  /** A parsed `set_rx`: absent fields keep their values. */
  datatype RxRequest = RxRequest(enable: Option<bool>, streamId: Option<int64>, adcChannel: Option<int64>,
                                 frequencyHz: Option<int64>, rate: Option<int64>, bandwidth: Option<int64>,
                                 sampleFormat: Option<string>, mode: Option<string>)

  /** What a buffer of `size` characters keeps of a text, the end mark taking one. */
  function Text(text: string, size: nat): string
    requires size > 0
  {
    if |text| < size then text else text[..size - 1]
  }

  /** The settings asked for, with C's conversions to the field types. */
  function Wanted(rx: Rx, q: RxRequest): Rx {
    var rate := if q.rate.Some? then q.rate.value % WORD else rx.rate;
    Rx(if q.streamId.Some? then Signed32(q.streamId.value) else rx.streamId,
       if q.adcChannel.Some? then Signed32(q.adcChannel.value) else rx.adcChannel,
       if q.frequencyHz.Some? then q.frequencyHz.value % STAMP else rx.frequencyHz,
       rate,
       if q.bandwidth.Some? then q.bandwidth.value % WORD else rx.bandwidth,
       if q.mode.Some? then Text(q.mode.value, 12) else rx.mode,
       true,
       DecimationForRate(rate))
  }

  /** What a `set_rx` that turns the stream on must satisfy. */
  predicate Acceptable(next: Rx, q: RxRequest) {
    && next.streamId == 0
    && 0 <= next.adcChannel <= 1
    && MIN_FREQUENCY <= next.frequencyHz <= MAX_FREQUENCY
    && SupportedRate(next.rate)
    && (q.sampleFormat.Some? ==> q.sampleFormat.value == "SC16_LE")
  }

  /** Each field that a request names is one that the bridge can take; stream, channel and rate are cut to 32 bits. */
  predicate Askable(q: RxRequest) {
    && (q.streamId.Some? ==> q.streamId.value % WORD == 0)
    && (q.adcChannel.Some? ==> 0 <= q.adcChannel.value % WORD <= 1)
    && (q.frequencyHz.Some? ==> 500_000 <= q.frequencyHz.value <= 108_000_000)
    && (q.rate.Some? ==> q.rate.value % WORD in {125_000, 250_000, 500_000, 1_000_000})
    && (q.sampleFormat.Some? ==> q.sampleFormat.value == "SC16_LE")
  }

  /** `next` has what the request names as the request has it, and otherwise what was there before. */
  predicate AsAsked(rx: Rx, q: RxRequest, next: Rx)
    requires next.rate > 0
  {
    && next.streamId == 0 && next.enabled
    && next.adcChannel == (if q.adcChannel.Some? then q.adcChannel.value % WORD else rx.adcChannel)
    && next.frequencyHz == (if q.frequencyHz.Some? then q.frequencyHz.value else rx.frequencyHz)
    && next.rate == (if q.rate.Some? then q.rate.value % WORD else rx.rate)
    && next.decimation == 250_000_000 / next.rate
    && next.bandwidth == (if q.bandwidth.Some? then q.bandwidth.value % WORD else rx.bandwidth)
    && next.mode ==
       (if q.mode.None? then rx.mode else if |q.mode.value| <= 11 then q.mode.value else q.mode.value[..11])
  }

  /** A number cut to 32 bits, as a signed one. */
  lemma CutToInt(v: int)
    ensures Signed32(v) == 0 <==> v % WORD == 0
    ensures 0 <= Signed32(v) <= 1 <==> v % WORD <= 1
    ensures 0 <= Signed32(v) <= 1 ==> Signed32(v) == v % WORD
  {
  }

  /** A frequency survives the conversion to an unsigned number. */
  lemma CutToUnsigned(v: int64)
    ensures MIN_FREQUENCY <= v % STAMP <= MAX_FREQUENCY <==> 500_000 <= v <= 108_000_000
    ensures MIN_FREQUENCY <= v % STAMP <= MAX_FREQUENCY ==> v % STAMP == v
  {
  }

  /** The facts on the numbers that a request names. */
  lemma CutNumbers(q: RxRequest)
    ensures q.streamId.Some? ==> (Signed32(q.streamId.value) == 0 <==> q.streamId.value % WORD == 0)
    ensures q.adcChannel.Some? ==>
              var v := q.adcChannel.value;
              (0 <= Signed32(v) <= 1 <==> v % WORD <= 1) && (v % WORD <= 1 ==> Signed32(v) == v % WORD)
    ensures q.frequencyHz.Some? ==>
              var v := q.frequencyHz.value;
              && (MIN_FREQUENCY <= v % STAMP <= MAX_FREQUENCY <==> 500_000 <= v <= 108_000_000)
              && (500_000 <= v <= 108_000_000 ==> v % STAMP == v)
  {
    if q.streamId.Some? {
      CutToInt(q.streamId.value);
    }
    if q.adcChannel.Some? {
      CutToInt(q.adcChannel.value);
    }
    if q.frequencyHz.Some? {
      CutToUnsigned(q.frequencyHz.value);
    }
  }

  lemma WantedIsAsked(rx: Rx, q: RxRequest)
    ensures Acceptable(Wanted(rx, q), q) ==> Askable(q) && Wanted(rx, q).rate > 0 && AsAsked(rx, q, Wanted(rx, q))
    ensures Sound(rx) ==> (Acceptable(Wanted(rx, q), q) <==> Askable(q))
  {
    CutNumbers(q);
  }

  function StopAll(s: State): State {
    s.(rx := s.rx.(enabled := false), psdEnabled := false, dma := D.Stop(s.dma), bus := TurnOff(s.bus))
  }

  /** `accepted`: whether the engine takes the first transfer. */
  function SetRx(s: State, q: RxRequest, accepted: bool): (State, Reply) {
    if q.enable == Some(false) then (StopAll(s), Accepted)
    else
      var next := Wanted(s.rx, q);
      if !Acceptable(next, q) then (s, OutOfRange)
      else
        var (dma, started) := D.Start(D.Stop(s.dma), accepted);
        if started then (s.(rx := next, dma := dma, bus := Program(s.bus, next)), Accepted)
        else (s.(dma := dma, bus := TurnOff(Program(s.bus, next))), HardwareFault)
  }

  function SetPsd(s: State, enable: Option<bool>): (State, Reply) {
    if enable == Some(false) then (s.(psdEnabled := false), Accepted) else (s, InvalidCommand)
  }

  /** A parsed `hello`; `sockets`: lwIP has one for each port; `parses`: it can read the address. */
  datatype HelloRequest = HelloRequest(version: Option<int64>, iqPort: Option<int64>, psdPort: Option<int64>,
                                       statusPort: Option<int64>,
                                       address: Option<string>, sockets: bool, parses: bool)

  /** The requested peer as far as the fields go before the first that is missing. */
  function HelloPeer(s: State, q: HelloRequest): Peer {
    if q.version != Some(1) || q.iqPort.None? then s.peer
    else
      var p1 := s.peer.(iqPort := q.iqPort.value % 0x1_0000);
      if q.psdPort.None? then p1
      else
        var p2 := p1.(psdPort := q.psdPort.value % 0x1_0000);
        if q.statusPort.None? then p2
        else p2.(statusPort := q.statusPort.value % 0x1_0000,
            address := Text(if q.address.Some? then q.address.value else s.peerIp, 48))
  }

  predicate HelloSucceeds(s: State, q: HelloRequest) {
    && q.version == Some(1) && q.iqPort.Some? && q.psdPort.Some? && q.statusPort.Some?
    && q.iqPort.value % 0x1_0000 != 0 && q.statusPort.value % 0x1_0000 != 0 && q.sockets && q.parses
  }

  function Hello(s: State, q: HelloRequest): (State, Reply) {
    var s' := s.(peer := HelloPeer(s, q));
    if q.version != Some(1) then (s', UnsupportedVersion)
    else if q.iqPort.None? || q.psdPort.None? || q.statusPort.None? then (s', InvalidField)
    else if HelloSucceeds(s, q) then
      (s'.(helloSeen := true, target := Some(Target(s'.peer.address, s'.peer.iqPort, s'.peer.statusPort))), Accepted)
    else (s', HardwareFault)
  }

  predicate Forwards(s: State) {
    s.helloSeen && s.rx.enabled
  }

  /** A packet of some length, or a null pointer, is offered to the network, which answers `rc`, zero for success. */
  function Forward(s: State, packet: Option<nat>, rc: int): (State, int) {
    if packet.None? then (s, -1)
    else if !Forwards(s) then (s, 0)
    else if packet.value != PACKET_BYTES then (s.(errors := (s.errors + 1) % WORD), -2)
    else if rc == 0 then (s.(forwarded := (s.forwarded + 1) % WORD), 0)
    else (s.(errors := (s.errors + 1) % WORD), rc)
  }

  function Poll(s: State, busy: bool, rc: int, accepted: bool): (State, int) {
    if !D.Finished(s.dma, busy) then (s, 0)
    else
      var (s', result) := Forward(s, Some(PACKET_BYTES), rc);
      var (dma, armed) := D.Poll(s.dma, busy, Forwards(s), accepted);
      (s'.(dma := dma), if armed then result else -1)
  }

  /** A control connection is accepted from an address. */
  function Connect(s: State, ip: string): State {
    if ip == "" then s else s.(peerIp := Text(ip, 48))
  }

  // ---- the objects -------------------------------------------------------------------------------------------

  class SdrControl {
    var rx: Rx
    var peer: Peer
    var peerIp: string
    var target: Option<Target>
    var helloSeen: bool
    var psdEnabled: bool
    var forwarded: nat
    var errors: nat
    var bus: Bus
    const dma: D.IqDmaDriver

    ghost function Abs(): State
      reads this, dma
    {
      State(rx, peer, target, peerIp, helloSeen, psdEnabled, forwarded, errors, bus, dma.State())
    }

    constructor ()
      ensures fresh(dma) && Abs() == Initial()
    {
      rx := Rx(0, 0, 98_500_000, 1_000_000, 250_000, "WFM", false, DecimationForRate(1_000_000));
      peer, target, peerIp := Peer(9001, 9002, 9003, FIRST_IP), None, FIRST_IP;
      helloSeen, psdEnabled, forwarded, errors := false, false, 0, 0;
      bus := Bus(RESET_REGS, []);
      dma := new D.IqDmaDriver();
    }

    method WriteReg(addr: nat, value: nat)
      modifies this`bus
      ensures bus == Put(old(bus), addr, value)
    {
      bus := Bus(if addr in CONFIG_REGS then bus.regs[addr := value] else bus.regs, bus.writes + [RegWrite(addr,
          value)]);
    }

    method ProgramRxRegisters(next: Rx)
      modifies this`bus, dma
      ensures bus == Program(old(bus), next) && dma.State() == D.Stop(old(dma.State()))
    {
      var controlWord := if next.adcChannel != 0 then 3 else 1;
      dma.StopTransfers();
      WriteReg(DDC_CONTROL, 0);
      WriteReg(CONTROL, 2);
      WriteReg(CLEAR_COUNTS, 1);
      WriteReg(FREQ_HZ_L, next.frequencyHz % WORD);
      WriteReg(FREQ_HZ_H, next.frequencyHz / WORD % WORD);
      WriteReg(FREQ_WORD, FreqWord(next.frequencyHz));
      WriteReg(IQ_RATE, next.rate);
      WriteReg(DECIM, next.decimation);
      WriteReg(BANDWIDTH, next.bandwidth);
      WriteReg(GAIN, GAIN_SHIFT);
      WriteReg(GAIN_DB, 0);
      WriteReg(CONTROL, 1);
      WriteReg(DDC_CONTROL, controlWord);
    }

    method StopStreams()
      modifies this`rx, this`psdEnabled, this`bus, dma
      ensures Abs() == StopAll(old(Abs()))
    {
      rx := rx.(enabled := false);
      psdEnabled := false;
      dma.StopTransfers();
      WriteReg(DDC_CONTROL, 0);
      WriteReg(CONTROL, 0);
    }

    /** Copies the fields present into the settings, checking each; `ok` is false at the first that fails. */
    method ReadRequest(q: RxRequest) returns (ok: bool, next: Rx)
      requires q.enable != Some(false)
      ensures ok == Acceptable(Wanted(rx, q), q)
      ensures ok ==> next == Wanted(rx, q)
      ensures ok ==> Askable(q) && next.rate > 0 && AsAsked(rx, q, next)
      ensures Sound(rx) ==> (ok <==> Askable(q))
    {
      WantedIsAsked(rx, q);
      next := rx.(enabled := true);
      if q.streamId.Some? {
        next := next.(streamId := Signed32(q.streamId.value));
      }
      if next.streamId != 0 {
        return false, next;
      }
      if q.adcChannel.Some? {
        next := next.(adcChannel := Signed32(q.adcChannel.value));
      }
      if next.adcChannel != 0 && next.adcChannel != 1 {
        return false, next;
      }
      if q.frequencyHz.Some? {
        next := next.(frequencyHz := q.frequencyHz.value % STAMP);
      }
      if next.frequencyHz < MIN_FREQUENCY || next.frequencyHz > MAX_FREQUENCY {
        return false, next;
      }
      if q.rate.Some? {
        next := next.(rate := q.rate.value % WORD);
      }
      if !SupportedRate(next.rate) {
        return false, next;
      }
      if q.bandwidth.Some? {
        next := next.(bandwidth := q.bandwidth.value % WORD);
      }
      if q.sampleFormat.Some? && q.sampleFormat.value != "SC16_LE" {
        return false, next;
      }
      if q.mode.Some? {
        next := next.(mode := Text(q.mode.value, 12));
      }
      next := next.(decimation := DecimationForRate(next.rate));
      ok := true;
    }

    method CmdSetRx(q: RxRequest, accepted: bool) returns (reply: Reply)
      modifies this`rx, this`psdEnabled, this`bus, dma
      ensures (Abs(), reply) == SetRx(old(Abs()), q, accepted)
    {
      if q.enable == Some(false) {
        StopStreams();
        return Accepted;
      }
      var ok, next := ReadRequest(q);
      if !ok {
        return OutOfRange;
      }
      ProgramRxRegisters(next);
      var started := dma.StartTransfers(accepted);
      if !started {
        WriteReg(DDC_CONTROL, 0);
        WriteReg(CONTROL, 0);
        return HardwareFault;
      }
      rx := next;
      reply := Accepted;
    }

    method CmdSetPsd(enable: Option<bool>) returns (reply: Reply)
      modifies this`psdEnabled
      ensures (Abs(), reply) == SetPsd(old(Abs()), enable)
    {
      if enable == Some(false) {
        psdEnabled := false;
        return Accepted;
      }
      reply := InvalidCommand;
    }

    method CmdHello(q: HelloRequest) returns (reply: Reply)
      modifies this`peer, this`target, this`helloSeen
      ensures (Abs(), reply) == Hello(old(Abs()), q)
    {
      if q.version != Some(1) {
        return UnsupportedVersion;
      }
      if q.iqPort.None? {
        return InvalidField;
      }
      peer := peer.(iqPort := q.iqPort.value % 0x1_0000);
      if q.psdPort.None? {
        return InvalidField;
      }
      peer := peer.(psdPort := q.psdPort.value % 0x1_0000);
      if q.statusPort.None? {
        return InvalidField;
      }
      peer := peer.(statusPort := q.statusPort.value % 0x1_0000);
      if q.address.Some? {
        peer := peer.(address := Text(q.address.value, 48));
      } else {
        peer := peer.(address := Text(peerIp, 48));
      }
      if peer.iqPort == 0 || peer.statusPort == 0 {
        return HardwareFault;
      }
      if !q.sockets {
        return HardwareFault;
      }
      if !q.parses {
        return HardwareFault;
      }
      target := Some(Target(peer.address, peer.iqPort, peer.statusPort));
      helloSeen := true;
      reply := Accepted;
    }

    /** Hands the buffer to the network when the stream is wanted. */
    method ForwardIqPacket(packet: Option<nat>, rc: int) returns (result: int)
      modifies this`forwarded, this`errors, dma`events
      ensures Abs() == Forward(old(Abs()), packet, rc).0.(dma := dma.State())
      ensures result == Forward(old(Abs()), packet, rc).1
      ensures dma.events ==
              old(dma.events) + if Forwards(old(Abs())) && packet == Some(PACKET_BYTES) then [D.Forward] else []
    {
      if packet.None? {
        return -1;
      }
      if !helloSeen || !rx.enabled {
        return 0;
      }
      if packet.value != PACKET_BYTES {
        errors := (errors + 1) % WORD;
        return -2;
      }
      dma.events := dma.events + [D.Forward];
      if rc == 0 {
        forwarded := (forwarded + 1) % WORD;
      } else {
        errors := (errors + 1) % WORD;
      }
      result := rc;
    }

    method PollIqDma(busy: bool, rc: int, accepted: bool) returns (result: int)
      modifies this`forwarded, this`errors, dma
      ensures (Abs(), result) == Poll(old(Abs()), busy, rc, accepted)
    {
      if !dma.running || !dma.armed {
        return 0;
      }
      if busy {
        return 0;
      }
      dma.armed := false;
      dma.events := dma.events + [D.Idle];
      result := ForwardIqPacket(Some(PACKET_BYTES), rc);
      assert !Forwards(old(Abs())) ==> dma.events == old(dma.events) + [D.Idle];
      if dma.running {
        var ok := dma.ArmTransfer(accepted);
        if !ok {
          return -1;
        }
      }
    }

    method SetPeerIp(ip: string)
      modifies this`peerIp
      ensures Abs() == Connect(old(Abs()), ip)
    {
      if ip == "" {
        return;
      }
      peerIp := Text(ip, 48);
    }
  }

  // ---- runs ---------------------------------------------------------------------------------------------------

  datatype Step =
    | DoInit(setup: D.Setup)
    | DoHello(hello: HelloRequest)
    | DoSetRx(request: RxRequest, accepted: bool)
    | DoSetPsd(enable: Option<bool>)
    | DoStopAll
    | DoPoll(busy: bool, rc: int, accepted: bool)
    | DoConnect(ip: string)

  function Advance(s: State, step: Step): State {
    match step
    case DoInit(setup) => s.(dma := D.Init(s.dma, setup).0)
    case DoHello(q) => Hello(s, q).0
    case DoSetRx(q, accepted) => SetRx(s, q, accepted).0
    case DoSetPsd(enable) => SetPsd(s, enable).0
    case DoStopAll => StopAll(s)
    case DoPoll(busy, rc, accepted) => Poll(s, busy, rc, accepted).0
    case DoConnect(ip) => Connect(s, ip)
  }

  function Run(steps: seq<Step>): State {
    if steps == [] then Initial() else Advance(Run(steps[..|steps| - 1]), steps[|steps| - 1])
  }

  /** Settings the receiver can run with. */
  predicate Sound(rx: Rx) {
    && rx.streamId == 0
    && 0 <= rx.adcChannel <= 1
    && MIN_FREQUENCY <= rx.frequencyHz <= MAX_FREQUENCY
    && SupportedRate(rx.rate)
    && rx.decimation * rx.rate == ADC_RATE
    && rx.bandwidth < WORD
    && |rx.mode| <= 11
  }

  predicate Holds(regs: map<nat, nat>, addr: nat, value: int) {
    addr in regs && regs[addr] == value
  }

  predicate SettingsMatch(regs: map<nat, nat>, rx: Rx) {
    && Holds(regs, FREQ_HZ_L, rx.frequencyHz)
    && Holds(regs, FREQ_HZ_H, 0)
    && Holds(regs, FREQ_WORD, FreqWord(rx.frequencyHz))
    && Holds(regs, IQ_RATE, rx.rate)
    && Holds(regs, DECIM, rx.decimation)
    && Holds(regs, BANDWIDTH, rx.bandwidth)
    && Holds(regs, GAIN, GAIN_SHIFT)
    && Holds(regs, GAIN_DB, 0)
    && Holds(regs, CONTROL, 1)
  }

  /** Every register that the bridge programs holds the value for the settings. */
  predicate Matches(regs: map<nat, nat>, rx: Rx) {
    SettingsMatch(regs, rx) && Holds(regs, DDC_CONTROL, 1 + 2 * rx.adcChannel)
  }

  /** The enable bit as the writes left it. */
  predicate OnAfter(writes: seq<RegWrite>) {
    && writes != []
    && var w := writes[|writes| - 1];
       if w.addr == DDC_CONTROL then w.value % 2 == 1 else OnAfter(writes[..|writes| - 1])
  }

  /** No register but the one with the enable bit is written while that bit is set. */
  ghost predicate GlitchFree(writes: seq<RegWrite>) {
    forall i :: 0 <= i < |writes| ==> writes[i].addr == DDC_CONTROL || !OnAfter(writes[..i])
  }

  /** The register file after the same writes over the bus. */
  function Replay(writes: seq<RegWrite>): (regs: map<nat, nat>)
    ensures CONFIG_REGS <= regs.Keys
  {
    if writes == [] then RESET_REGS
    else
      var w := writes[|writes| - 1];
      Apply(Replay(writes[..|writes| - 1]), Write(w.addr, w.value, EVERY_BYTE))
  }

  ghost predicate BusOk(bus: Bus) {
    && EnableBit(bus.regs) == OnAfter(bus.writes)
    && GlitchFree(bus.writes)
    && bus.regs == Replay(bus.writes)
  }

  lemma {:induction false} GlitchFreeAppend(writes: seq<RegWrite>, w: RegWrite)
    requires GlitchFree(writes) && (w.addr == DDC_CONTROL || !OnAfter(writes))
    ensures GlitchFree(writes + [w])
  {
    var all := writes + [w];
    forall i | 0 <= i < |all|
      ensures all[i].addr == DDC_CONTROL || !OnAfter(all[..i])
    {
      assert all[..i] == if i < |writes| then writes[..i] else writes;
      assert i < |writes| ==> all[i] == writes[i];
    }
  }

  lemma PutKeeps(bus: Bus, addr: nat, value: nat)
    requires BusOk(bus) && value < WORD && (addr == DDC_CONTROL || !EnableBit(bus.regs))
    ensures BusOk(Put(bus, addr, value))
    ensures EnableBit(Put(bus, addr, value).regs) == if addr == DDC_CONTROL then value % 2 == 1 else EnableBit(bus.regs)
  {
    var w := RegWrite(addr, value);
    GlitchFreeAppend(bus.writes, w);
    PutIsBusWrite(bus, addr, value);
    assert (bus.writes + [w])[..|bus.writes|] == bus.writes;
  }

  lemma TurnOffKeeps(bus: Bus)
    requires BusOk(bus)
    ensures BusOk(TurnOff(bus)) && !EnableBit(TurnOff(bus).regs)
  {
    PutKeeps(bus, DDC_CONTROL, 0);
    PutKeeps(Put(bus, DDC_CONTROL, 0), CONTROL, 0);
  }

  /** A write while the stream is off leaves it off. */
  ghost predicate Quiet(bus: Bus) {
    BusOk(bus) && !EnableBit(bus.regs)
  }

  lemma QuietPut(bus: Bus, addr: nat, value: nat)
    requires Quiet(bus) && value < WORD && addr != DDC_CONTROL
    ensures Quiet(Put(bus, addr, value))
  {
    PutKeeps(bus, addr, value);
  }

  lemma SettingsKeep(bus: Bus, rx: Rx)
    requires Quiet(bus) && Sound(rx)
    ensures Quiet(Settings(bus, rx))
  {
    FreqWordIsNearest(rx.frequencyHz, 0);
    assert rx.decimation < WORD;
    QuietPut(bus, CONTROL, 2);
    var b1 := Put(bus, CONTROL, 2);
    QuietPut(b1, CLEAR_COUNTS, 1);
    var b2 := Put(b1, CLEAR_COUNTS, 1);
    QuietPut(b2, FREQ_HZ_L, rx.frequencyHz % WORD);
    var b3 := Put(b2, FREQ_HZ_L, rx.frequencyHz % WORD);
    QuietPut(b3, FREQ_HZ_H, rx.frequencyHz / WORD % WORD);
    var b4 := Put(b3, FREQ_HZ_H, rx.frequencyHz / WORD % WORD);
    QuietPut(b4, FREQ_WORD, FreqWord(rx.frequencyHz));
    var b5 := Put(b4, FREQ_WORD, FreqWord(rx.frequencyHz));
    QuietPut(b5, IQ_RATE, rx.rate);
    var b6 := Put(b5, IQ_RATE, rx.rate);
    QuietPut(b6, DECIM, rx.decimation);
    var b7 := Put(b6, DECIM, rx.decimation);
    QuietPut(b7, BANDWIDTH, rx.bandwidth);
    var b8 := Put(b7, BANDWIDTH, rx.bandwidth);
    QuietPut(b8, GAIN, GAIN_SHIFT);
    var b9 := Put(b8, GAIN, GAIN_SHIFT);
    QuietPut(b9, GAIN_DB, 0);
    QuietPut(Put(b9, GAIN_DB, 0), CONTROL, 1);
  }

  lemma SettingsTake(bus: Bus, rx: Rx)
    requires rx.frequencyHz < WORD
    ensures SettingsMatch(Settings(bus, rx).regs, rx)
  {
    ModSmall(rx.frequencyHz, WORD);
    ModSmall(0, WORD);
  }

  lemma EnableKeepsSettings(bus: Bus, value: nat, rx: Rx)
    requires SettingsMatch(bus.regs, rx)
    ensures SettingsMatch(Put(bus, DDC_CONTROL, value).regs, rx) && Holds(Put(bus, DDC_CONTROL, value).regs,
            DDC_CONTROL, value)
  {
  }

  lemma EnableTakes(bus: Bus, rx: Rx)
    requires Quiet(bus) && SettingsMatch(bus.regs, rx) && 0 <= rx.adcChannel <= 1
    ensures var on := Put(bus, DDC_CONTROL, ControlWord(rx)); BusOk(on) && EnableBit(on.regs) && Matches(on.regs, rx)
  {
    PutKeeps(bus, DDC_CONTROL, ControlWord(rx));
    EnableKeepsSettings(bus, ControlWord(rx), rx);
  }

  /** Programming writes the settings with the stream off, then turns it on. */
  lemma ProgramTakes(bus: Bus, rx: Rx)
    requires BusOk(bus) && Sound(rx)
    ensures BusOk(Program(bus, rx)) && EnableBit(Program(bus, rx).regs) && Matches(Program(bus, rx).regs, rx)
  {
    PutKeeps(bus, DDC_CONTROL, 0);
    var off := Put(bus, DDC_CONTROL, 0);
    SettingsKeep(off, rx);
    SettingsTake(off, rx);
    EnableTakes(Settings(off, rx), rx);
  }

  /** What holds between commands. */
  ghost predicate Inv(s: State) {
    && Sound(s.rx)
    && BusOk(s.bus)
    && D.Inv(s.dma)
    && (EnableBit(s.bus.regs) ==> s.rx.enabled && Matches(s.bus.regs, s.rx))
    && (s.dma.armed ==> EnableBit(s.bus.regs))
  }

  lemma AcceptableIsSound(rx: Rx, q: RxRequest)
    requires Sound(rx) && Acceptable(Wanted(rx, q), q)
    ensures Sound(Wanted(rx, q))
  {
  }

  lemma StopAllKeepsInv(s: State)
    requires Inv(s)
    ensures Inv(StopAll(s)) && !EnableBit(StopAll(s).bus.regs)
  {
    TurnOffKeeps(s.bus);
    D.StopKeepsInv(s.dma);
  }

  /** A failed start leaves nothing armed. */
  lemma StartOutcome(d: D.Dma, accepted: bool)
    requires D.Inv(d)
    ensures var (d', started) := D.Start(D.Stop(d), accepted); D.Inv(d') && d'.armed == started
  {
    D.StopKeepsInv(d);
    D.StartKeepsInv(D.Stop(d), accepted);
  }

  lemma SetRxKeepsInv(s: State, q: RxRequest, accepted: bool)
    requires Inv(s)
    ensures Inv(SetRx(s, q, accepted).0)
  {
    var next := Wanted(s.rx, q);
    if q.enable == Some(false) {
      StopAllKeepsInv(s);
    } else if Acceptable(next, q) {
      AcceptableIsSound(s.rx, q);
      StartOutcome(s.dma, accepted);
      ProgramTakes(s.bus, next);
      TurnOffKeeps(Program(s.bus, next));
    }
  }

  lemma PollKeepsInv(s: State, busy: bool, rc: int, accepted: bool)
    requires Inv(s)
    ensures Inv(Poll(s, busy, rc, accepted).0)
  {
    D.PollKeepsInv(s.dma, busy, Forwards(s), accepted);
  }

  /** Steps that leave settings and registers alone. */
  lemma ElsewhereKeepsInv(s: State, s': State)
    requires Inv(s) && s'.rx == s.rx && s'.bus == s.bus && D.Inv(s'.dma) && (s'.dma.armed ==> s.dma.armed)
    ensures Inv(s')
  {
  }

  lemma AdvanceKeepsInv(s: State, step: Step)
    requires Inv(s)
    ensures Inv(Advance(s, step))
  {
    match step
    case DoInit(setup) =>
      D.InitKeepsInv(s.dma, setup);
      ElsewhereKeepsInv(s, Advance(s, step));
    case DoHello(_) => ElsewhereKeepsInv(s, Advance(s, step));
    case DoSetRx(q, accepted) => SetRxKeepsInv(s, q, accepted);
    case DoSetPsd(_) => ElsewhereKeepsInv(s, Advance(s, step));
    case DoStopAll => StopAllKeepsInv(s);
    case DoPoll(busy, rc, accepted) => PollKeepsInv(s, busy, rc, accepted);
    case DoConnect(_) => ElsewhereKeepsInv(s, Advance(s, step));
  }

  /**
   After every sequence of commands, polls and initialisations, with refused transfers at any point: a set
   enable bit means that the stream is on in software and that every programmed register matches it; the
   settings are always sound; an armed DMA means a running stream; and no register was ever changed under
   a running stream.
   */
  lemma {:induction false} RunInv(steps: seq<Step>)
    ensures Inv(Run(steps))
  {
    if steps != [] {
      RunInv(steps[..|steps| - 1]);
      AdvanceKeepsInv(Run(steps[..|steps| - 1]), steps[|steps| - 1]);
    }
  }

  // ---- what one command does ------------------------------------------------------------------------------

  /** `set_rx` changes nothing when it is rejected, takes everything or, when the DMA does not start, turns the
      stream off. */
  lemma SetRxAllOrNothing(s: State, q: RxRequest, accepted: bool)
    requires Inv(s) && q.enable != Some(false)
    ensures var (s', reply) := SetRx(s, q, accepted);
            && (reply == OutOfRange <==> !Askable(q))
            && (reply == OutOfRange ==> s' == s)
            && (reply == Accepted <==> Askable(q) && s.dma.ready && accepted)
            && (reply == Accepted ==> s'.rx.rate > 0 && AsAsked(s.rx, q, s'.rx))
            && (reply == Accepted ==> s'.rx == Wanted(s.rx, q) && EnableBit(s'.bus.regs) && s'.dma.armed)
            && (reply == HardwareFault ==> s'.rx == s.rx && !EnableBit(s'.bus.regs) && !s'.dma.armed)
  {
    WantedIsAsked(s.rx, q);
    var next := Wanted(s.rx, q);
    if Acceptable(next, q) {
      AcceptableIsSound(s.rx, q);
      StartOutcome(s.dma, accepted);
      ProgramTakes(s.bus, next);
      TurnOffKeeps(Program(s.bus, next));
    }
  }

  /** Software and receiver agree on whether the stream is on. */
  predicate Agree(s: State) {
    s.rx.enabled == EnableBit(s.bus.regs)
  }

  /** `set_rx` breaks the agreement exactly when the DMA does not start for new settings of a running stream. */
  lemma AgreementLostIff(s: State, q: RxRequest, accepted: bool)
    requires Inv(s) && Agree(s)
    ensures !Agree(SetRx(s, q, accepted).0) <==>
            q.enable != Some(false) && Askable(q) && s.rx.enabled && !(s.dma.ready && accepted)
  {
    if q.enable == Some(false) {
      StopAllKeepsInv(s);
    } else {
      SetRxAllOrNothing(s, q, accepted);
    }
  }

  lemma SecondStartFails(s: State, q: RxRequest)
    requires Inv(s) && s.dma.ready && q.enable == None && Acceptable(Wanted(s.rx, q), q)
    requires Acceptable(Wanted(Wanted(s.rx, q), q), q)
    ensures var s1 := SetRx(s, q, true).0; var s2 := SetRx(s1, q, false).0; s2.rx.enabled && !EnableBit(s2.bus.regs)
  {
    SetRxAllOrNothing(s, q, true);
    SetRxKeepsInv(s, q, true);
    SetRxAllOrNothing(SetRx(s, q, true).0, q, false);
  }

  /** It does happen: a default `set_rx` that starts, and one more whose transfer is refused. */
  lemma AgreementCanBeLost()
    ensures var q := RxRequest(None, None, None, None, None, None, None, None);
            var s0 := Advance(Initial(), DoInit(D.Done(true)));
            var s := Advance(Advance(s0, DoSetRx(q, true)), DoSetRx(q, false));
            s.rx.enabled && !EnableBit(s.bus.regs)
  {
    var q := RxRequest(None, None, None, None, None, None, None, None);
    var s0 := Advance(Initial(), DoInit(D.Done(true)));
    RunInv([]);
    AdvanceKeepsInv(Initial(), DoInit(D.Done(true)));
    SecondStartFails(s0, q);
  }

  // ---- forwarding -------------------------------------------------------------------------------------------

  function ForwardCount(events: seq<D.Event>): nat {
    if events == [] then 0
    else ForwardCount(events[..|events| - 1]) + if events[|events| - 1].Forward? then 1 else 0
  }

  lemma CountLog(d: D.Dma, e: D.Event)
    ensures ForwardCount(D.Log(d, e).events) == ForwardCount(d.events) + if e.Forward? then 1 else 0
  {
    assert (d.events + [e])[..|d.events|] == d.events;
  }

  lemma CountArm(d: D.Dma, accepted: bool)
    ensures ForwardCount(D.Arm(d, accepted).0.events) == ForwardCount(d.events)
  {
    CountLog(d, D.Submit);
  }

  lemma CountInit(d: D.Dma, setup: D.Setup)
    ensures ForwardCount(D.Init(d, setup).0.events) == ForwardCount(d.events)
  {
    CountLog(d, D.EngineReset);
  }

  lemma CountStop(d: D.Dma)
    ensures ForwardCount(D.Stop(d).events) == ForwardCount(d.events)
  {
    CountLog(d, D.EngineReset);
  }

  lemma CountStart(d: D.Dma, accepted: bool)
    ensures ForwardCount(D.Start(d, accepted).0.events) == ForwardCount(d.events)
  {
    CountArm(d.(running := true), accepted);
  }

  lemma CountPoll(d: D.Dma, busy: bool, forwards: bool, accepted: bool)
    ensures ForwardCount(D.Poll(d, busy, forwards, accepted).0.events) ==
            ForwardCount(d.events) + if D.Finished(d, busy) && forwards then 1 else 0
  {
    var idle := D.Log(d.(armed := false), D.Idle);
    CountLog(d.(armed := false), D.Idle);
    CountLog(idle, D.Forward);
    CountArm(if forwards then D.Log(idle, D.Forward) else idle, accepted);
  }

  lemma CountSetRx(s: State, q: RxRequest, accepted: bool)
    ensures ForwardCount(SetRx(s, q, accepted).0.dma.events) == ForwardCount(s.dma.events)
  {
    CountStop(s.dma);
    CountStart(D.Stop(s.dma), accepted);
  }

  lemma CountAdvance(s: State, step: Step)
    ensures ForwardCount(Advance(s, step).dma.events) ==
            ForwardCount(s.dma.events) + if step.DoPoll? && D.Finished(s.dma, step.busy) && Forwards(s) then 1 else 0
  {
    match step
    case DoInit(setup) => CountInit(s.dma, setup);
    case DoHello(_) =>
    case DoSetRx(q, accepted) => CountSetRx(s, q, accepted);
    case DoSetPsd(_) =>
    case DoStopAll => CountStop(s.dma);
    case DoPoll(busy, _, accepted) => CountPoll(s.dma, busy, Forwards(s), accepted);
    case DoConnect(_) =>
  }

  /**
   The buffer is forwarded exactly when a poll finds a finished transfer after a hello, and then the stream
   is on in software and in the receiver, whose registers match.
   */
  lemma ForwardOnlyWhenStreaming(steps: seq<Step>, step: Step)
    ensures var s := Run(steps);
            var forwards := step.DoPoll? && D.Finished(s.dma, step.busy) && s.helloSeen;
            && ForwardCount(Advance(s, step).dma.events) == ForwardCount(s.dma.events) + (if forwards then 1 else 0)
            && (forwards ==> s.rx.enabled && EnableBit(s.bus.regs) && Matches(s.bus.regs, s.rx))
  {
    RunInv(steps);
    CountAdvance(Run(steps), step);
  }

  /** A hello of version 1 with all ports, none but the PSD port zero in its 16 bits, that the network layer takes. */
  predicate GoodHello(step: Step) {
    && step.DoHello?
    && var q := step.hello;
       && q.version == Some(1) && q.iqPort.Some? && q.psdPort.Some? && q.statusPort.Some?
       && q.iqPort.value % 0x1_0000 > 0 && q.statusPort.value % 0x1_0000 > 0
       && q.sockets && q.parses
  }

  /** What a hello is answered. */
  lemma HelloReplies(s: State, q: HelloRequest)
    ensures var reply := Hello(s, q).1;
            && (reply == UnsupportedVersion <==> q.version != Some(1))
            && (reply == InvalidField <==>
                q.version == Some(1) && (q.iqPort.None? || q.psdPort.None? || q.statusPort.None?))
            && (reply == Accepted <==> GoodHello(DoHello(q)))
            && reply in {UnsupportedVersion, InvalidField, Accepted, HardwareFault}
  {
  }

  lemma AdvanceHello(s: State, step: Step)
    ensures Advance(s, step).helloSeen == (s.helloSeen || GoodHello(step))
  {
  }

  /** `hello_seen` records exactly whether some hello succeeded. */
  lemma {:induction false} HelloSeenIffHelloSucceeded(steps: seq<Step>)
    ensures Run(steps).helloSeen <==> exists k :: 0 <= k < |steps| && GoodHello(steps[k])
  {
    if steps != [] {
      var init, last := steps[..|steps| - 1], |steps| - 1;
      HelloSeenIffHelloSucceeded(init);
      AdvanceHello(Run(init), steps[last]);
      assert forall k :: 0 <= k < last ==> init[k] == steps[k];
    }
  }

  // ---- PSD ------------------------------------------------------------------------------------------------

  /** The bridge never enables PSD: only the request to switch it off succeeds, and it changes nothing. */
  lemma {:induction false} PsdNeverEnabled(steps: seq<Step>, enable: Option<bool>)
    ensures !Run(steps).psdEnabled
    ensures SetPsd(Run(steps), enable) == (Run(steps), if enable == Some(false) then Accepted else InvalidCommand)
  {
    if steps != [] {
      PsdNeverEnabled(steps[..|steps| - 1], enable);
    }
  }

  // ---- forwarding only what arrived ---------------------------------------------------------------------------

  /** The hardware is initialised once, before anything else. */
  predicate InitOnce(steps: seq<Step>) {
    forall k :: 0 < k < |steps| ==> !steps[k].DoInit?
  }

  /** A driver whose transfer is in the engine, and whose forwarded packets all arrived. */
  predicate Good(d: D.Dma) {
    D.Live(d) && D.AllArrived(d.events)
  }

  lemma GoodKept(d: D.Dma, op: D.Op)
    requires Good(d) && !op.OpInit?
    ensures Good(D.Step(d, op))
  {
    D.LiveKept(d, op);
    D.ArrivedKept(d, op);
  }

  lemma GoodAdvance(s: State, step: Step)
    requires Good(s.dma) && !step.DoInit?
    ensures Good(Advance(s, step).dma)
  {
    match step
    case DoSetRx(q, accepted) =>
      GoodKept(s.dma, D.OpStop);
      GoodKept(D.Stop(s.dma), D.OpStart(accepted));
    case DoStopAll => GoodKept(s.dma, D.OpStop);
    case DoPoll(busy, _, accepted) => GoodKept(s.dma, D.OpPoll(busy, Forwards(s), accepted));
    case _ =>
  }

  /**
   With one initialisation at the start, as the firmware does it: every packet that the bridge ever handed to the
   network came from a transfer that was in the engine when the engine went idle.
   */
  lemma {:induction false} ForwardedPacketsArrived(steps: seq<Step>)
    requires InitOnce(steps)
    ensures D.AllArrived(Run(steps).dma.events) && D.Live(Run(steps).dma)
  {
    if steps != [] {
      var init, step := steps[..|steps| - 1], steps[|steps| - 1];
      ForwardedPacketsArrived(init);
      if !step.DoInit? {
        GoodAdvance(Run(init), step);
      } else {
        assert init == [];
      }
    }
  }

  // ---- where packets go -----------------------------------------------------------------------------------------

  /** The address of the last control connection that has one. */
  function LastConnection(steps: seq<Step>): string {
    if steps == [] then FIRST_IP
    else
      var step := steps[|steps| - 1];
      if step.DoConnect? && step.ip != "" then step.ip else LastConnection(steps[..|steps| - 1])
  }

  lemma ConnectionKept(s: State, step: Step)
    ensures Advance(s, step).peerIp == if step.DoConnect? && step.ip != "" then Kept(step.ip) else s.peerIp
  {
  }

  lemma {:induction false} PeerIpIsLastConnection(steps: seq<Step>)
    ensures Run(steps).peerIp == Kept(LastConnection(steps))
  {
    if steps != [] {
      var init, step := steps[..|steps| - 1], steps[|steps| - 1];
      PeerIpIsLastConnection(init);
      ConnectionKept(Run(init), step);
    }
  }

  /** An address as its buffer of 48 characters keeps it. */
  function Kept(address: string): string {
    if |address| <= 47 then address else address[..47]
  }

  lemma TargetKept(s: State, step: Step)
    ensures !GoodHello(step) ==> Advance(s, step).target == s.target
  {
  }

  lemma TargetSet(s: State, step: Step)
    requires GoodHello(step)
    ensures var q := step.hello;
            var address := if q.address.Some? then Kept(q.address.value) else Kept(s.peerIp);
            var iq, psd, status := q.iqPort.value % 0x1_0000, q.psdPort.value % 0x1_0000, q.statusPort.value % 0x1_0000;
            Advance(s, step).target == Some(Target(address, iq, status)) &&
            Advance(s, step).peer == Peer(iq, psd, status, address)
  {
  }

  /** Step `k` is the last successful hello. */
  predicate LastHello(steps: seq<Step>, k: nat) {
    k < |steps| && GoodHello(steps[k]) && forall n :: k < n < |steps| ==> !GoodHello(steps[n])
  }

  /**
   In every run, packets go to the ports and the address of the last successful hello; if that names no address, to that
   of the last control connection before it; and nowhere before the first.
   */
  lemma {:induction false} PacketsGoToLastHello(steps: seq<Step>, k: nat)
    requires k == |steps| || LastHello(steps, k)
    requires k == |steps| ==> forall n :: 0 <= n < |steps| ==> !GoodHello(steps[n])
    ensures Run(steps).target ==
            if k == |steps| then None
            else
              var q := steps[k].hello;
              var address := if q.address.Some? then q.address.value else LastConnection(steps[..k]);
              Some(Target(Kept(address), q.iqPort.value % 0x1_0000, q.statusPort.value % 0x1_0000))
  {
    if steps != [] {
      var init, step := steps[..|steps| - 1], steps[|steps| - 1];
      if k == |init| {
        PeerIpIsLastConnection(init);
        TargetSet(Run(init), step);
      } else {
        PacketsGoToLastHello(init, if k == |steps| then |init| else k);
        TargetKept(Run(init), step);
        assert k < |init| ==> init[..k] == steps[..k];
      }
    }
  }

  // ---- what the registers hold, and what a poll answers ------------------------------------------------------------

  /** The registers of a running receiver, by address. */
  predicate RegistersFor(regs: map<nat, nat>, rx: Rx) {
    && Holds(regs, 0x008, 1) && Holds(regs, 0x100, 1 + 2 * rx.adcChannel)
    && Holds(regs, 0x104, FreqWord(rx.frequencyHz)) && Holds(regs, 0x108, rx.decimation)
    && Holds(regs, 0x10c, 30) && Holds(regs, 0x118, rx.frequencyHz) && Holds(regs, 0x11c, 0)
    && Holds(regs, 0x120, rx.rate) && Holds(regs, 0x124, rx.bandwidth) && Holds(regs, 0x128, 0)
  }

  /** In every run, a set enable bit finds every register at its value for the settings. */
  lemma RunningRegisters(steps: seq<Step>)
    ensures var s := Run(steps); EnableBit(s.bus.regs) ==> RegistersFor(s.bus.regs, s.rx)
  {
    RunInv(steps);
  }

  /** The stop command, or a `set_rx` that asks for the stream to be off, whatever else it names. */
  predicate Stops(step: Step) {
    step.DoStopAll? || (step.DoSetRx? && step.request.enable == Some(false))
  }

  /** Stopping turns the stream off in software, in the driver and in the receiver, and forgets nothing else. */
  lemma StopTurnsOff(steps: seq<Step>, step: Step)
    requires Stops(step)
    ensures var s, s' := Run(steps), Run(steps + [step]);
            && !s'.rx.enabled && s' == s.(rx := s.rx.(enabled := false), bus := s'.bus, dma := s'.dma)
            && !s'.dma.running && !s'.dma.armed
            && Holds(s'.bus.regs, 0x100, 0) && Holds(s'.bus.regs, 0x008, 0)
    ensures step.DoSetRx? ==> SetRx(Run(steps), step.request, step.accepted).1 == Accepted
  {
    PsdNeverEnabled(steps, None);
    assert (steps + [step])[..|steps|] == steps;
  }

  /** The writes of one programming: off, soft reset, counters cleared, the settings, core on, stream on. */
  lemma ProgramWrites(bus: Bus, rx: Rx)
    requires Sound(rx)
    ensures Program(bus, rx).writes == bus.writes + [
              RegWrite(0x100, 0), RegWrite(0x008, 2), RegWrite(0x020, 1), RegWrite(0x118, rx.frequencyHz),
              RegWrite(0x11c, 0), RegWrite(0x104, FreqWord(rx.frequencyHz)), RegWrite(0x120, rx.rate),
              RegWrite(0x108, rx.decimation), RegWrite(0x124, rx.bandwidth), RegWrite(0x10c, 30), RegWrite(0x128, 0),
              RegWrite(0x008, 1), RegWrite(0x100, 1 + 2 * rx.adcChannel)]
  {
  }

  /** What is done with a packet that is handed on, or with a null pointer. */
  lemma ForwardAnswers(s: State, packet: Option<nat>, rc: int)
    ensures var (s', answer) := Forward(s, packet, rc);
            var on := packet.Some? && s.helloSeen && s.rx.enabled;
            && answer == (if packet.None? then -1 else if !on then 0 else if packet.value != 1088 then -2 else rc)
            && s' == s.(forwarded := s'.forwarded, errors := s'.errors)
            && s'.forwarded == (if on && packet.value == 1088 && rc == 0 then (s.forwarded + 1) % WORD else s.forwarded)
            && s'.errors == (if on && (packet.value != 1088 || rc != 0) then (s.errors + 1) % WORD else s.errors)
  {
  }

  /** A poll answers 0 when nothing is to be done, -1 when the DMA cannot be armed again, else what the network said. */
  lemma PollAnswers(s: State, busy: bool, rc: int, accepted: bool)
    requires Inv(s)
    ensures Poll(s, busy, rc, accepted).1 ==
            if !s.dma.running || !s.dma.armed || busy then 0
            else if !accepted then -1
            else if s.helloSeen && s.rx.enabled then rc
            else 0
  {
  }

  // ---- counters ---------------------------------------------------------------------------------------------------

  /** The step is a poll that hands a packet to the network, and the network answers so. */
  predicate Sends(s: State, step: Step, delivered: bool) {
    && step.DoPoll? && s.dma.running && s.dma.armed && !step.busy && s.helloSeen && s.rx.enabled
    && (step.rc == 0) == delivered
  }

  function SendCount(steps: seq<Step>, delivered: bool): nat {
    if steps == [] then 0
    else
      var init := steps[..|steps| - 1];
      SendCount(init, delivered) + if Sends(Run(init), steps[|steps| - 1], delivered) then 1 else 0
  }

  lemma CountersAdvance(s: State, step: Step)
    ensures Advance(s, step).forwarded == if Sends(s, step, true) then (s.forwarded + 1) % WORD else s.forwarded
    ensures Advance(s, step).errors == if Sends(s, step, false) then (s.errors + 1) % WORD else s.errors
  {
  }

  /** In every run the two counters are the packets that the network took and those it refused, modulo 2^32. */
  lemma {:induction false} CountersCountSends(steps: seq<Step>)
    ensures Run(steps).forwarded == SendCount(steps, true) % WORD
    ensures Run(steps).errors == SendCount(steps, false) % WORD
  {
    if steps != [] {
      var init := steps[..|steps| - 1];
      CountersCountSends(init);
      CountersAdvance(Run(init), steps[|steps| - 1]);
      ModAddLeft(SendCount(init, true), 1, WORD);
      ModAddLeft(SendCount(init, false), 1, WORD);
    }
  }
}
