/**
 The packetizer: an IDLE / HEADER / PAYLOAD machine that frames IQ samples into packets of sixteen
 header words and FRAME_SAMPLES payload words on an AXI-Stream output.
 */
module IqPacketizer {
  import opened Modular

  const HEADER_WORDS := 16
  const MAGIC := 0x5149_4453

  /** Parameters of an instance. */
  datatype Params = Params(streamId: nat, frameSamples: nat)

  predicate ValidParams(k: Params) {
    k.streamId < 0x1_0000 && 0 < k.frameSamples < 0x1_0000
  }

  /** Stream settings, as presented on the inputs and as latched for one packet. */
  datatype Settings = Settings(frequencyHz: nat, sampleRateHz: nat, bandwidthHz: nat, decimation: nat, flags: nat,
                               gainDbQ8: int)

  datatype Phase = Idle | Header | Payload

  datatype Beat = Beat(data: nat, keep: nat, last: bool)

  datatype Packetizer = Packetizer(
    phase: Phase, headerIndex: nat, payloadCount: nat,
    packetTimestamp: nat, nextTimestamp: nat, latched: Settings,
    firstPacket: bool, packetSeq: nat, packetCount: nat,
    tvalid: bool, out: Beat)

  /** Inputs during one clock cycle. */
  datatype In = In(enable: bool, configChanged: bool, sData: nat, sValid: bool, seed: nat, settings: Settings,
                   mReady: bool)

  function Reset(): Packetizer {
    Packetizer(Idle, 0, 0, 0, 0, Settings(0, 0, 0, 1, 0, 0), true, 0, 0, false, Beat(0, 0xf, false))
  }

  /** `out_ready`: the output register is free or being emptied. */
  predicate OutReady(p: Packetizer, i: In) {
    !p.tvalid || i.mReady
  }

  /** `s_axis_tready`; it does not look at the enable or the reconfiguration strobe. */
  predicate InReady(p: Packetizer, i: In) {
    p.phase.Payload? && OutReady(p, i)
  }

  /** What the header of the packet in progress says. */
  datatype HeaderInfo = HeaderInfo(seqNo: nat, timestamp: nat, settings: Settings, first: bool)

  function Info(p: Packetizer): HeaderInfo {
    HeaderInfo(p.packetSeq, p.packetTimestamp, p.latched, p.firstPacket)
  }

  /** Bitwise or with DISCONTINUITY (4) and CONFIG_CHANGED (8). */
  function WithFirstFlags(flags: nat): nat {
    flags / 16 * 16 + 12 + flags % 4
  }

  function PacketFlags(h: HeaderInfo): nat {
    if h.first then WithFirstFlags(h.settings.flags) else h.settings.flags
  }

  /** The sixteen-bit pattern of a signed value. */
  function Pattern16(v: int): nat {
    v % 0x1_0000
  }

  function HeaderWord(k: Params, h: HeaderInfo, index: nat): nat {
    match index
    case 0 => MAGIC
    case 1 => 64 * 0x1_0000 + 1
    case 2 => k.streamId * 0x1_0000 + 1
    case 3 => h.seqNo
    case 4 => h.timestamp % WORD
    case 5 => h.timestamp / WORD
    case 6 => h.settings.frequencyHz % WORD
    case 7 => h.settings.frequencyHz / WORD
    case 8 => h.settings.sampleRateHz
    case 9 => h.settings.bandwidthHz
    case 10 => k.frameSamples * 0x1_0000 + 1
    case 11 => Pattern16(h.settings.gainDbQ8) * 0x1_0000 + PacketFlags(h)
    case 12 => h.settings.decimation
    case 13 => k.frameSamples * 4
    case _ => 0
  }

  function TimestampStep(k: Params, s: Settings): nat {
    s.decimation * k.frameSamples
  }

  /** Settings as the IDLE state latches them: a decimation of zero becomes one. */
  function Latched(s: Settings): Settings {
    s.(decimation := if s.decimation == 0 then 1 else s.decimation)
  }

  /** The output register once an accepted beat has left it. */
  function Drained(p: Packetizer, i: In): Packetizer {
    if p.tvalid && i.mReady then p.(tvalid := false, out := p.out.(last := false)) else p
  }

  function IdleStep(p: Packetizer, i: In): Packetizer {
    p.(packetTimestamp := p.nextTimestamp, latched := Latched(i.settings), headerIndex := 0, payloadCount := 0,
        phase := Header)
  }

  function HeaderStep(k: Params, p: Packetizer): Packetizer {
    var q := p.(tvalid := true, out := Beat(HeaderWord(k, Info(p), p.headerIndex), 0xf, false));
    if p.headerIndex == 15 then q.(headerIndex := 0, phase := Payload)
    else q.(headerIndex := p.headerIndex + 1)
  }

  /** The packet is complete: count it and compute the next timestamp. */
  function Closed(k: Params, p: Packetizer): Packetizer {
    p.(payloadCount := 0, phase := Idle,
       packetSeq := (p.packetSeq + 1) % WORD, packetCount := (p.packetCount + 1) % WORD,
       nextTimestamp := (p.packetTimestamp + TimestampStep(k, p.latched)) % STAMP, firstPacket := false)
  }

  function PayloadStep(k: Params, p: Packetizer, i: In): Packetizer {
    if !i.sValid then p
    else if p.payloadCount == k.frameSamples - 1 then
      Closed(k, p).(tvalid := true, out := Beat(i.sData, 0xf, true))
    else
      p.(tvalid := true, out := Beat(i.sData, 0xf, p.out.last), payloadCount := p.payloadCount + 1)
  }

  /** One clock edge out of reset. */
  function Step(k: Params, p: Packetizer, i: In): Packetizer {
    var q := Drained(p, i);
    if !i.enable then q.(phase := Idle, headerIndex := 0, payloadCount := 0, firstPacket := true)
    else if i.configChanged then
      q.(phase := Idle, headerIndex := 0, payloadCount := 0, packetSeq := 0,
         packetTimestamp := i.seed, nextTimestamp := i.seed, firstPacket := true)
    else if !OutReady(p, i) then q
    else match p.phase
      case Idle => IdleStep(q, i)
      case Header => HeaderStep(k, q)
      case Payload => PayloadStep(k, q, i)
  }

  // ---- what the outside sees -------------------------------------------------------------------------

  datatype Trace = Trace(p: Packetizer, accepted: seq<Beat>, consumed: seq<nat>)

  function Advance(k: Params, t: Trace, i: In): Trace {
    Trace(
      Step(k, t.p, i),
      t.accepted + (if t.p.tvalid && i.mReady then [t.p.out] else []),
      t.consumed + (if InReady(t.p, i) && i.sValid then [i.sData] else []))
  }

  function Run(k: Params, p: Packetizer, ins: seq<In>): Trace {
    if ins == [] then Trace(p, [], []) else Advance(k, Run(k, p, ins[..|ins| - 1]), ins[|ins| - 1])
  }

  /** The word waiting on the output, if any. */
  function Pending(p: Packetizer): seq<Beat> {
    if p.tvalid then [p.out] else []
  }

  /**
   A presented word stays as it is while the sink stalls, for any number of cycles and whatever the
   enable, the reconfiguration strobe and the inputs do meanwhile.
   */
  lemma {:induction false} HeldUntilAccepted(k: Params, p: Packetizer, ins: seq<In>)
    requires p.tvalid && forall n :: 0 <= n < |ins| ==> !ins[n].mReady
    ensures Run(k, p, ins).p.tvalid && Run(k, p, ins).p.out == p.out && Run(k, p, ins).accepted == []
  {
    if ins != [] {
      HeldUntilAccepted(k, p, ins[..|ins| - 1]);
    }
  }

  /** TLAST is low while no word is presented. */
  lemma {:induction false} LastNeedsValid(k: Params, ins: seq<In>)
    ensures !Run(k, Reset(), ins).p.tvalid ==> !Run(k, Reset(), ins).p.out.last
  {
    if ins != [] {
      LastNeedsValid(k, ins[..|ins| - 1]);
    }
  }

  // ---- framing ---------------------------------------------------------------------------------------

  datatype Packet = Packet(header: HeaderInfo, samples: seq<nat>)

  function HeaderBeats(k: Params, h: HeaderInfo, n: nat): (b: seq<Beat>)
    ensures |b| == n
  {
    seq(n, i requires 0 <= i < n => Beat(HeaderWord(k, h, i), 0xf, false))
  }

  /** Payload words, the one at position `frameSamples - 1` marked last. */
  function PayloadBeats(k: Params, samples: seq<nat>): (b: seq<Beat>)
    ensures |b| == |samples|
  {
    seq(|samples|, i requires 0 <= i < |samples| => Beat(samples[i], 0xf, i == k.frameSamples - 1))
  }

  function PacketBeats(k: Params, q: Packet): seq<Beat> {
    HeaderBeats(k, q.header, HEADER_WORDS) + PayloadBeats(k, q.samples)
  }

  function Stream(k: Params, packets: seq<Packet>): seq<Beat> {
    if packets == [] then []
    else Stream(k, packets[..|packets| - 1]) + PacketBeats(k, packets[|packets| - 1])
  }

  function AllSamples(packets: seq<Packet>): seq<nat> {
    if packets == [] then [] else AllSamples(packets[..|packets| - 1]) + packets[|packets| - 1].samples
  }

  /** The timestamp due after `packets`, the first of them due at `start`. */
  function DueTimestamp(k: Params, start: nat, packets: seq<Packet>): nat {
    if packets == [] then start
    else
      var h := packets[|packets| - 1].header;
      (h.timestamp + TimestampStep(k, h.settings)) % STAMP
  }

  ghost predicate InSequence(k: Params, p0: Packetizer, packets: seq<Packet>, n: nat)
    requires n < |packets|
  {
    && |packets[n].samples| == k.frameSamples
    && packets[n].header.seqNo == (p0.packetSeq + n) % WORD
    && packets[n].header.timestamp == DueTimestamp(k, p0.nextTimestamp, packets[..n])
    && packets[n].header.first == (p0.firstPacket && n == 0)
  }

  /** Packets numbered, stamped and flagged as consecutive packets of one episode that began at `p0`. */
  ghost predicate Consecutive(k: Params, p0: Packetizer, packets: seq<Packet>) {
    forall n :: 0 <= n < |packets| ==> InSequence(k, p0, packets, n)
  }

  /** The part of the packet in progress that has been put on the output. */
  function OpenBeats(k: Params, p: Packetizer, samples: seq<nat>): seq<Beat> {
    match p.phase
    case Idle => []
    case Header => HeaderBeats(k, Info(p), p.headerIndex)
    case Payload => HeaderBeats(k, Info(p), HEADER_WORDS) + PayloadBeats(k, samples)
  }

  /** Words seen so far: the initial pending word, whole packets, and the start of the open packet. */
  ghost predicate FramedWords(k: Params, p0: Packetizer, t: Trace, done: seq<Packet>, open: seq<nat>) {
    && t.accepted + Pending(t.p) == Pending(p0) + Stream(k, done) + OpenBeats(k, t.p, open)
    && t.consumed == AllSamples(done) + open
  }

  /** Counters, timestamp and first-packet mark after `done` whole packets. */
  ghost predicate Counters(k: Params, p0: Packetizer, p: Packetizer, done: seq<Packet>) {
    && p.packetSeq == (p0.packetSeq + |done|) % WORD
    && p.packetCount == (p0.packetCount + |done|) % WORD
    && p.nextTimestamp == DueTimestamp(k, p0.nextTimestamp, done)
    && p.firstPacket == (p0.firstPacket && |done| == 0)
  }

  /** The position inside the open packet, `open` being its samples so far. */
  predicate Position(k: Params, p: Packetizer, open: seq<nat>) {
    && (!p.phase.Idle? ==> p.packetTimestamp == p.nextTimestamp)
    && (if p.phase.Payload? then |open| == p.payloadCount < k.frameSamples else open == [] && p.payloadCount == 0)
    && p.headerIndex < HEADER_WORDS && (!p.phase.Header? ==> p.headerIndex == 0)
    && (p.phase.Payload? ==> !p.out.last)
  }

  ghost predicate Framed(k: Params, p0: Packetizer, t: Trace, done: seq<Packet>, open: seq<nat>) {
    && FramedWords(k, p0, t, done, open)
    && Consecutive(k, p0, done)
    && Counters(k, p0, t.p, done)
    && Position(k, t.p, open)
  }

  /** The stream is enabled and not being reconfigured. */
  predicate Steady(i: In) {
    i.enable && !i.configChanged
  }

  lemma StalledFramed(k: Params, p0: Packetizer, t: Trace, i: In, done: seq<Packet>, open: seq<nat>)
    requires Framed(k, p0, t, done, open) && Steady(i) && !OutReady(t.p, i)
    ensures Framed(k, p0, Advance(k, t, i), done, open)
  {
  }

  /** An edge with room on the output moves the pending word to the accepted ones. */
  lemma AcceptedSoFar(k: Params, t: Trace, i: In)
    requires OutReady(t.p, i)
    ensures Advance(k, t, i).accepted == t.accepted + Pending(t.p)
  {
  }

  lemma IdleFramed(k: Params, p0: Packetizer, t: Trace, i: In, done: seq<Packet>, open: seq<nat>)
    requires Framed(k, p0, t, done, open) && Steady(i) && OutReady(t.p, i) && t.p.phase.Idle?
    ensures Framed(k, p0, Advance(k, t, i), done, open)
  {
    AcceptedSoFar(k, t, i);
  }

  lemma HeaderWordBeats(k: Params, p: Packetizer, p': Packetizer, open: seq<nat>, i: In)
    requires p.phase.Header? && Steady(i) && OutReady(p, i) && p' == Step(k, p, i) && open == []
            && p.headerIndex < HEADER_WORDS
    ensures OpenBeats(k, p', open) == OpenBeats(k, p, open) + [p'.out]
  {
    var n := p.headerIndex;
    assert HeaderBeats(k, Info(p), n + 1) == HeaderBeats(k, Info(p), n) + [p'.out];
    assert PayloadBeats(k, []) == [];
  }

  lemma HeaderFramed(k: Params, p0: Packetizer, t: Trace, i: In, done: seq<Packet>, open: seq<nat>)
    requires Framed(k, p0, t, done, open) && Steady(i) && OutReady(t.p, i) && t.p.phase.Header? && ValidParams(k)
    ensures Framed(k, p0, Advance(k, t, i), done, open)
  {
    AcceptedSoFar(k, t, i);
    HeaderWordBeats(k, t.p, Advance(k, t, i).p, open, i);
  }

  lemma PayloadWordFramed(k: Params, p0: Packetizer, t: Trace, i: In, done: seq<Packet>, open: seq<nat>)
    requires Framed(k, p0, t, done, open) && Steady(i) && OutReady(t.p, i) && t.p.phase.Payload? && ValidParams(k)
    requires i.sValid && t.p.payloadCount != k.frameSamples - 1
    ensures Framed(k, p0, Advance(k, t, i), done, open + [i.sData])
  {
    AcceptedSoFar(k, t, i);
    var p, p' := t.p, Advance(k, t, i).p;
    assert PayloadBeats(k, open + [i.sData]) == PayloadBeats(k, open) + [p'.out];
    assert OpenBeats(k, p', open + [i.sData]) == OpenBeats(k, p, open) + [p'.out];
  }

  lemma ConsecutiveAppend(k: Params, p0: Packetizer, done: seq<Packet>, q: Packet)
    requires Consecutive(k, p0, done) && |q.samples| == k.frameSamples
    requires q.header.seqNo == (p0.packetSeq + |done|) % WORD
    requires q.header.timestamp == DueTimestamp(k, p0.nextTimestamp, done)
    requires q.header.first == (p0.firstPacket && |done| == 0)
    ensures Consecutive(k, p0, done + [q])
  {
    var all := done + [q];
    forall n | 0 <= n < |all|
      ensures InSequence(k, p0, all, n)
    {
      if n < |done| {
        assert all[..n] == done[..n] && all[n] == done[n];
        assert InSequence(k, p0, done, n);
      } else {
        assert all[..n] == done;
      }
    }
  }

  lemma StreamAppend(k: Params, done: seq<Packet>, q: Packet)
    ensures Stream(k, done + [q]) == Stream(k, done) + PacketBeats(k, q)
    ensures AllSamples(done + [q]) == AllSamples(done) + q.samples
    ensures DueTimestamp(k, 0, done + [q]) == (q.header.timestamp + TimestampStep(k, q.header.settings)) % STAMP
  {
    assert (done + [q])[..|done|] == done;
  }

  /** The last payload word closes the packet. */
  lemma LastWordClosesPacket(k: Params, p: Packetizer, open: seq<nat>, word: nat)
    requires ValidParams(k) && p.phase.Payload? && |open| == k.frameSamples - 1
    ensures PacketBeats(k, Packet(Info(p), open + [word])) == OpenBeats(k, p, open) + [Beat(word, 0xf, true)]
  {
    assert PayloadBeats(k, open + [word]) == PayloadBeats(k, open) + [Beat(word, 0xf, true)];
  }

  lemma ClosedWords(sent: seq<Beat>, first: seq<Beat>, stream: seq<Beat>, part: seq<Beat>, last: Beat,
                    longer: seq<Beat>)
    requires sent == first + stream + part && longer == stream + (part + [last])
    ensures sent + [last] == first + longer + []
  {
  }

  lemma PacketDoneWords(k: Params, p0: Packetizer, t: Trace, i: In, done: seq<Packet>, open: seq<nat>)
    requires FramedWords(k, p0, t, done, open) && ValidParams(k) && |open| == k.frameSamples - 1
    requires Steady(i) && OutReady(t.p, i) && t.p.phase.Payload? && i.sValid && t.p.payloadCount == k.frameSamples - 1
    ensures FramedWords(k, p0, Advance(k, t, i), done + [Packet(Info(t.p), open + [i.sData])], [])
  {
    var q, b := Packet(Info(t.p), open + [i.sData]), Beat(i.sData, 0xf, true);
    var t' := Advance(k, t, i);
    AcceptedSoFar(k, t, i);
    LastWordClosesPacket(k, t.p, open, i.sData);
    StreamAppend(k, done, q);
    ClosedWords(t'.accepted, Pending(p0), Stream(k, done), OpenBeats(k, t.p, open), b, Stream(k, done + [q]));
  }

  lemma CountAhead(start: nat, n: nat)
    ensures ((start + n) % WORD + 1) % WORD == (start + (n + 1)) % WORD
  {
    ModAddLeft(start + n, 1, WORD);
  }

  /** The edge that takes the last sample of a packet counts it and computes the next timestamp. */
  lemma PacketDoneCounters(k: Params, p0: Packetizer, p: Packetizer, i: In, done: seq<Packet>, samples: seq<nat>)
    requires Counters(k, p0, p, done)
    requires Steady(i) && OutReady(p, i) && p.phase.Payload? && i.sValid && p.payloadCount == k.frameSamples - 1
    ensures Counters(k, p0, Step(k, p, i), done + [Packet(Info(p), samples)])
  {
    assert (done + [Packet(Info(p), samples)])[|done|] == Packet(Info(p), samples);
    CountAhead(p0.packetSeq, |done|);
    CountAhead(p0.packetCount, |done|);
  }

  lemma GapFramed(k: Params, p0: Packetizer, t: Trace, i: In, done: seq<Packet>, open: seq<nat>)
    requires Framed(k, p0, t, done, open) && Steady(i) && OutReady(t.p, i) && t.p.phase.Payload? && !i.sValid
    ensures Framed(k, p0, Advance(k, t, i), done, open)
  {
    AcceptedSoFar(k, t, i);
  }

  lemma PacketDoneFramed(k: Params, p0: Packetizer, t: Trace, i: In, done: seq<Packet>, open: seq<nat>)
    requires Framed(k, p0, t, done, open) && Steady(i) && OutReady(t.p, i) && t.p.phase.Payload? && ValidParams(k)
    requires i.sValid && t.p.payloadCount == k.frameSamples - 1
    ensures Framed(k, p0, Advance(k, t, i), done + [Packet(Info(t.p), open + [i.sData])], [])
  {
    PacketDoneWords(k, p0, t, i, done, open);
    PacketDoneCounters(k, p0, t.p, i, done, open + [i.sData]);
    ConsecutiveAppend(k, p0, done, Packet(Info(t.p), open + [i.sData]));
  }

  /** What one cycle adds to the packets: nothing, a sample of the open one, or that one, complete. */
  predicate Grown(p: Packetizer, i: In, done: seq<Packet>, open: seq<nat>, done': seq<Packet>, open': seq<nat>) {
    || (done' == done && (open' == open || open' == open + [i.sData]))
    || (!p.phase.Idle? && done' == done + [Packet(Info(p), open + [i.sData])] && open' == [])
  }

  lemma StepFramed(k: Params, p0: Packetizer, t: Trace, i: In, done: seq<Packet>, open: seq<nat>)
    returns (done': seq<Packet>, open': seq<nat>)
    requires ValidParams(k) && Framed(k, p0, t, done, open) && Steady(i)
    ensures Framed(k, p0, Advance(k, t, i), done', open')
    ensures Grown(t.p, i, done, open, done', open')
  {
    done', open' := done, open;
    if !OutReady(t.p, i) {
      StalledFramed(k, p0, t, i, done, open);
    } else if t.p.phase.Idle? {
      IdleFramed(k, p0, t, i, done, open);
    } else if t.p.phase.Header? {
      HeaderFramed(k, p0, t, i, done, open);
    } else if !i.sValid {
      GapFramed(k, p0, t, i, done, open);
    } else if t.p.payloadCount == k.frameSamples - 1 {
      PacketDoneFramed(k, p0, t, i, done, open);
      done', open' := done + [Packet(Info(t.p), open + [i.sData])], [];
    } else {
      PayloadWordFramed(k, p0, t, i, done, open);
      open' := open + [i.sData];
    }
  }

  /**
   While enabled and not reconfigured, from any packet boundary, under any back-pressure and any input
   gaps: the words that left, then the one waiting, are the word that was waiting at the start, a
   concatenation of whole packets, and the beginning of the next packet. The samples in them are the
   consumed ones in order, and the packets are numbered, stamped and flagged consecutively.
   */
  lemma {:induction false} SteadyStreamIsPackets(k: Params, p0: Packetizer, ins: seq<In>)
    returns (done: seq<Packet>, open: seq<nat>)
    requires ValidParams(k) && p0.phase.Idle? && p0.headerIndex == 0 && p0.payloadCount == 0
    requires p0.packetSeq < WORD && p0.packetCount < WORD
    requires forall n :: 0 <= n < |ins| ==> Steady(ins[n])
    ensures Framed(k, p0, Run(k, p0, ins), done, open)
  {
    if ins == [] {
      done, open := [], [];
    } else {
      done, open := SteadyStreamIsPackets(k, p0, ins[..|ins| - 1]);
      done, open := StepFramed(k, p0, Run(k, p0, ins[..|ins| - 1]), ins[|ins| - 1], done, open);
    }
  }

  /** A modular count that grows by `step` each time. */
  lemma {:induction false} StampsAdvance(stamps: seq<nat>, start: nat, step: nat, size: nat, n: nat)
    requires n < |stamps| && stamps[0] == start < size
    requires forall m :: 0 < m < |stamps| ==> stamps[m] == (stamps[m - 1] + step) % size
    ensures stamps[n] == (start + n * step) % size
  {
    if n > 0 {
      StampsAdvance(stamps, start, step, size, n - 1);
      ModAddLeft(start + (n - 1) * step, step, size);
      assert (n - 1) * step + step == n * step;
    } else {
      ModSmall(start, size);
    }
  }

  /** With constant settings the timestamps advance by decimation times FRAME_SAMPLES, modulo 2^64. */
  lemma TimestampsAdvance(k: Params, p0: Packetizer, packets: seq<Packet>, step: nat, n: nat)
    requires Consecutive(k, p0, packets) && n < |packets| && p0.nextTimestamp < STAMP
    requires forall m :: 0 <= m < |packets| ==> TimestampStep(k, packets[m].header.settings) == step
    ensures packets[n].header.timestamp == (p0.nextTimestamp + n * step) % STAMP
  {
    var stamps := seq(|packets|, m requires 0 <= m < |packets| => packets[m].header.timestamp);
    assert packets[..0] == [];
    assert InSequence(k, p0, packets, 0);
    forall m | 0 < m < |stamps|
      ensures stamps[m] == (stamps[m - 1] + step) % STAMP
    {
      assert InSequence(k, p0, packets, m);
      assert packets[..m][|packets[..m]| - 1] == packets[m - 1];
    }
    StampsAdvance(stamps, p0.nextTimestamp, step, STAMP, n);
  }

  /** The packetizer's registers, updated in place. */
  class IqPacketizer {
    const k: Params
    var phase: Phase
    var headerIndex: nat
    var payloadCount: nat
    var packetTimestamp: nat
    var nextTimestamp: nat
    var latched: Settings
    var firstPacket: bool
    var packetSeq: nat
    var packetCount: nat
    var tdata: nat
    var tkeep: nat
    var tvalid: bool
    var tlast: bool

    ghost function Regs(): Packetizer
      reads this
    {
      Packetizer(phase, headerIndex, payloadCount, packetTimestamp, nextTimestamp, latched,
                 firstPacket, packetSeq, packetCount, tvalid, Beat(tdata, tkeep, tlast))
    }

    constructor (k: Params)
      ensures this.k == k && Regs() == Reset()
    {
      this.k := k;
      phase, headerIndex, payloadCount := Idle, 0, 0;
      packetTimestamp, nextTimestamp := 0, 0;
      latched := Settings(0, 0, 0, 1, 0, 0);
      firstPacket, packetSeq, packetCount := true, 0, 0;
      tdata, tkeep, tvalid, tlast := 0, 0xf, false, false;
    }

    method LatchSettings(i: In)
      modifies this
      ensures Regs() == IdleStep(old(Regs()), i)
    {
      packetTimestamp := nextTimestamp;
      latched := Settings(i.settings.frequencyHz, i.settings.sampleRateHz, i.settings.bandwidthHz,
                          if i.settings.decimation == 0 then 1 else i.settings.decimation,
                          i.settings.flags, i.settings.gainDbQ8);
      headerIndex, payloadCount, phase := 0, 0, Header;
    }

    method EmitHeaderWord()
      modifies this
      ensures Regs() == HeaderStep(k, old(Regs()))
    {
      tdata := HeaderWord(k, HeaderInfo(packetSeq, packetTimestamp, latched, firstPacket), headerIndex);
      tvalid, tkeep, tlast := true, 0xf, false;
      if headerIndex == 15 {
        headerIndex, phase := 0, Payload;
      } else {
        headerIndex := headerIndex + 1;
      }
    }

    method ClosePacket()
      modifies this
      ensures Regs() == Closed(k, old(Regs()))
    {
      payloadCount, phase := 0, Idle;
      packetSeq, packetCount := (packetSeq + 1) % WORD, (packetCount + 1) % WORD;
      nextTimestamp := (packetTimestamp + TimestampStep(k, latched)) % STAMP;
      firstPacket := false;
    }

    method EmitPayloadWord(i: In)
      modifies this
      ensures Regs() == PayloadStep(k, old(Regs()), i)
    {
      if i.sValid {
        tdata, tkeep, tvalid := i.sData, 0xf, true;
        if payloadCount == k.frameSamples - 1 {
          tlast := true;
          ClosePacket();
        } else {
          payloadCount := payloadCount + 1;
        }
      }
    }

    method Clock(rst: bool, i: In)
      modifies this
      ensures Regs() == if rst then Reset() else Step(k, old(Regs()), i)
    {
      if rst {
        phase, headerIndex, payloadCount := Idle, 0, 0;
        packetTimestamp, nextTimestamp := 0, 0;
        latched := Settings(0, 0, 0, 1, 0, 0);
        firstPacket, packetSeq, packetCount := true, 0, 0;
        tdata, tkeep, tvalid, tlast := 0, 0xf, false, false;
        return;
      }
      var outReady := !tvalid || i.mReady;
      if tvalid && i.mReady {
        tvalid, tlast := false, false;
      }
      if !i.enable {
        phase, headerIndex, payloadCount, firstPacket := Idle, 0, 0, true;
      } else if i.configChanged {
        phase, headerIndex, payloadCount, firstPacket := Idle, 0, 0, true;
        packetSeq, packetTimestamp, nextTimestamp := 0, i.seed, i.seed;
      } else if outReady {
        match phase
        case Idle => LatchSettings(i);
        case Header => EmitHeaderWord();
        case Payload => EmitPayloadWord(i);
      }
    }
  }
}
