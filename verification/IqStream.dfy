/**
 From the packetizer's output to the receiver's statistics: the words of whole runs, cut at TLAST, unpacked, and tallied
 over a link that loses packets.
 */
module IqStream {
  import opened Datagrams
  import opened IqPacketizer
  import opened LittleEndian
  import opened Modular
  import opened PacketPieces
  import opened Packets
  import opened Sequences
  import H = HeaderLayout
  import L = IqLink

  /** The receiver unpacks a packet's datagram to exactly the latched fields. */
  lemma PacketUnpacks(k: Params, q: Packet)
    requires H.WithinWidths(k, q.header)
    ensures HeaderIn(PacketBeats(k, q)) == Ok(H.Announced(k, q.header))
  {
    var header, payload := HeaderBeats(k, q.header, HEADER_WORDS), PayloadBeats(k, q.samples);
    WordsJoin(header, payload);
    assert Words(header) == H.HeaderWords(k, q.header);
    BytesJoin(Words(header), Words(payload));
    H.EmittedHeaderUnpacks(k, q.header, H.BytesOf(Words(payload)));
  }

  // ---- the headers of an episode ------------------------------------------------------------------------------

  /** Settings within the register widths, with the decimation of the episode. */
  predicate EpisodeSettings(s: Settings, decimation: nat) {
    SettingsFit(s) && s.decimation == decimation
  }

  predicate EpisodeInputs(ins: seq<In>, decimation: nat) {
    forall n :: 0 <= n < |ins| ==> Steady(ins[n]) && EpisodeSettings(ins[n].settings, decimation)
  }

  function Effective(decimation: nat): nat {
    if decimation == 0 then 1 else decimation
  }

  predicate HeadersFit(done: seq<Packet>, decimation: nat) {
    forall n :: 0 <= n < |done| ==> EpisodeSettings(done[n].header.settings, Effective(decimation))
  }

  lemma LatchedFits(k: Params, p: Packetizer, i: In, decimation: nat)
    requires Steady(i) && EpisodeSettings(i.settings, decimation)
    requires !p.phase.Idle? ==> EpisodeSettings(p.latched, Effective(decimation))
    ensures !Step(k, p, i).phase.Idle? ==> EpisodeSettings(Step(k, p, i).latched, Effective(decimation))
  {
  }

  /** A start at a packet boundary, whatever word still waits. */
  predicate AtBoundary(p: Packetizer) {
    AtStart(p) && p.nextTimestamp < STAMP
  }

  /** The packets of a steady run, with the settings of its cycles. */
  lemma {:induction false} EpisodePackets(k: Params, p0: Packetizer, ins: seq<In>, decimation: nat)
    returns (done: seq<Packet>, open: seq<nat>)
    requires ValidParams(k) && AtBoundary(p0) && EpisodeInputs(ins, decimation)
    ensures Framed(k, p0, Run(k, p0, ins), done, open) && HeadersFit(done, decimation)
    ensures !Run(k, p0, ins).p.phase.Idle? ==> EpisodeSettings(Run(k, p0, ins).p.latched, Effective(decimation))
  {
    if ins == [] {
      done, open := [], [];
      StartFramed(k, p0);
    } else {
      var init, i := ins[..|ins| - 1], ins[|ins| - 1];
      var before;
      before, open := EpisodePackets(k, p0, init, decimation);
      var t := Run(k, p0, init);
      LatchedFits(k, t.p, i, decimation);
      done, open := StepFramed(k, p0, t, i, before, open);
    }
  }

  function NumberingOf(k: Params, p0: Packetizer, decimation: nat): L.Numbering {
    L.Numbering(p0.packetSeq, p0.nextTimestamp, Effective(decimation) * k.frameSamples)
  }

  lemma HeaderIsNth(k: Params, p0: Packetizer, done: seq<Packet>, decimation: nat, n: nat)
    requires ValidParams(k) && AtBoundary(p0) && Consecutive(k, p0, done) && HeadersFit(done, decimation) && n < |done|
    ensures H.WithinWidths(k, done[n].header)
    ensures L.IsNth(NumberingOf(k, p0, decimation), H.Announced(k, done[n].header), n)
  {
    assert InSequence(k, p0, done, n);
    TimestampsAdvance(k, p0, done, Effective(decimation) * k.frameSamples, n);
  }

  // ---- the datagrams of an episode ------------------------------------------------------------------------------

  lemma {:induction false} RunConcat(k: Params, s: Packetizer, pre: seq<In>, ins: seq<In>)
    ensures var a := Run(k, s, pre);
            var b := Run(k, a.p, ins);
            Run(k, s, pre + ins) == Trace(b.p, a.accepted + b.accepted, a.consumed + b.consumed)
  {
    if ins == [] {
      assert pre + ins == pre;
    } else {
      var init, i := ins[..|ins| - 1], ins[|ins| - 1];
      RunConcat(k, s, pre, init);
      assert ins == init + [i] && pre + ins == pre + init + [i];
      RunStep(k, s, pre + init, i);
      RunStep(k, Run(k, s, pre).p, init, i);
      ConcatStep(k, Run(k, s, pre), Run(k, Run(k, s, pre).p, init), i);
    }
  }

  lemma ConcatStep(k: Params, a: Trace, b: Trace, i: In)
    ensures var t := Advance(k, Trace(b.p, a.accepted + b.accepted, a.consumed + b.consumed), i);
            var c := Advance(k, b, i);
            t == Trace(c.p, a.accepted + c.accepted, a.consumed + c.consumed)
  {
  }

  /** What the words before an episode leave: complete datagrams, and words that go in front of its first packet. */
  function Leftover(k: Params, s: Packetizer, pre: seq<In>): Cutting {
    CutAtLast(Run(k, s, pre).accepted + Pending(Run(k, s, pre).p))
  }

  /** All datagrams that have left by the end of the episode. */
  function Frames(k: Params, s: Packetizer, pre: seq<In>, ins: seq<In>): seq<seq<Beat>> {
    CutAtLast(Run(k, s, pre + ins).accepted).frames
  }

  lemma FramesOf(k: Params, s: Packetizer, pre: seq<In>, ins: seq<In>)
    ensures var a := Run(k, s, pre);
            Frames(k, s, pre, ins) == CutAtLast(a.accepted + Run(k, a.p, ins).accepted).frames
  {
    RunConcat(k, s, pre, ins);
  }

  lemma {:induction false} WholesFrames(k: Params, start: Cutting, done: seq<Packet>, n: nat)
    requires n < |done|
    ensures var frames := Grouped(k, start, Wholes(done)).frames;
            && |frames| == |start.frames| + |done|
            && frames[|start.frames| + n] == Lead(start, n) + PacketBeats(k, done[n])
            && Grouped(k, start, Wholes(done)).rest == []
  {
    var init, q := done[..|done| - 1], done[|done| - 1];
    assert Wholes(done) == Wholes(init) + [Whole(q)];
    GroupedStep(k, start, Wholes(init), Whole(q));
    if init != [] {
      WholesFrames(k, start, init, if n < |init| then n else 0);
    }
  }

  lemma WholesCount(k: Params, start: Cutting, done: seq<Packet>)
    ensures |Grouped(k, start, Wholes(done)).frames| == |start.frames| + |done|
  {
    if done != [] {
      WholesFrames(k, start, done, 0);
    }
  }

  /** The words that have left and the one that waits, since the very start. */
  lemma EpisodeWords(k: Params, a: seq<Beat>, p0: Packetizer, t: Trace, done: seq<Packet>, open: seq<nat>)
    requires FramedWords(k, p0, t, done, open)
    ensures a + t.accepted + Pending(t.p) == a + Pending(p0) + Beats(k, Wholes(done)) + OpenBeats(k, t.p, open)
  {
    WholesBeats(k, [], done);
    assert [] + Wholes(done) == Wholes(done) && [] + Stream(k, done) == Stream(k, done);
    Assoc(a, t.accepted, Pending(t.p));
    Assoc(a, Pending(p0), Stream(k, done));
    Assoc(a, Pending(p0) + Stream(k, done), OpenBeats(k, t.p, open));
  }

  lemma OpenHasNoLast(k: Params, p: Packetizer, open: seq<nat>)
    requires Position(k, p, open)
    ensures NoLast(OpenBeats(k, p, open))
  {
  }

  lemma WholesWellCut(k: Params, p0: Packetizer, done: seq<Packet>)
    requires Consecutive(k, p0, done)
    ensures AllWellCut(k, Wholes(done))
  {
    forall n | 0 <= n < |done|
      ensures WellCut(k, Wholes(done)[n])
    {
      assert InSequence(k, p0, done, n);
    }
  }

  /** The datagrams of an episode are its packets; words left over before it go in front of the first. */
  lemma EpisodeDatagrams(k: Params, a: seq<Beat>, p0: Packetizer, t: Trace, done: seq<Packet>, open: seq<nat>)
    requires ValidParams(k) && Framed(k, p0, t, done, open)
    ensures CutAtLast(a + t.accepted).frames ==
            LeftFrames(Grouped(k, CutAtLast(a + Pending(p0)), Wholes(done)).frames, t.p)
  {
    EpisodeWords(k, a, p0, t, done, open);
    WholesWellCut(k, p0, done);
    CutOfPieces(k, a + Pending(p0), Wholes(done));
    OpenHasNoLast(k, t.p, open);
    CutWithoutLast(a + Pending(p0) + Beats(k, Wholes(done)), OpenBeats(k, t.p, open));
    CutAccepted(a + t.accepted, t.p);
  }

  lemma NthDatagram(k: Params, start: Cutting, done: seq<Packet>, p: Packetizer, frames: seq<seq<Beat>>, n: nat)
    requires frames == LeftFrames(Grouped(k, start, Wholes(done)).frames, p) && |start.frames| + n < |frames|
    ensures n < |done| && frames[|start.frames| + n] == Lead(start, n) + PacketBeats(k, done[n])
  {
    LeftPrefix(Grouped(k, start, Wholes(done)).frames, p, |start.frames| + n);
    WholesCount(k, start, done);
    WholesFrames(k, start, done, n);
  }

  lemma NthOfTrace(k: Params, a: Trace, t: Trace, start: Cutting, frames: seq<seq<Beat>>, done: seq<Packet>,
                   open: seq<nat>, n: nat)
    requires ValidParams(k) && Framed(k, a.p, t, done, open) && start == CutAtLast(a.accepted + Pending(a.p))
    requires frames == CutAtLast(a.accepted + t.accepted).frames && |start.frames| + n < |frames|
    ensures n < |done| && frames[|start.frames| + n] == Lead(start, n) + PacketBeats(k, done[n])
  {
    EpisodeDatagrams(k, a.accepted, a.p, t, done, open);
    NthDatagram(k, start, done, t.p, frames, n);
  }

  lemma DatagramAfter(k: Params, a: Trace, ins: seq<In>, decimation: nat, start: Cutting, frames: seq<seq<Beat>>,
                      n: nat)
    returns (done: seq<Packet>)
    requires ValidParams(k) && AtBoundary(a.p) && EpisodeInputs(ins, decimation)
    requires start == CutAtLast(a.accepted + Pending(a.p)) && |start.frames| + n < |frames|
    requires frames == CutAtLast(a.accepted + Run(k, a.p, ins).accepted).frames
    ensures n < |done| && Consecutive(k, a.p, done) && HeadersFit(done, decimation)
    ensures frames[|start.frames| + n] == Lead(start, n) + PacketBeats(k, done[n])
  {
    var open;
    done, open := EpisodePackets(k, a.p, ins, decimation);
    NthOfTrace(k, a, Run(k, a.p, ins), start, frames, done, open, n);
  }

  /** Datagram `n` of an episode is packet `n`, and in front of packet 0 what was left over. */
  lemma EpisodeDatagram(k: Params, s: Packetizer, pre: seq<In>, ins: seq<In>, decimation: nat, n: nat)
    returns (done: seq<Packet>)
    requires ValidParams(k) && AtBoundary(Run(k, s, pre).p) && EpisodeInputs(ins, decimation)
    requires |Leftover(k, s, pre).frames| + n < |Frames(k, s, pre, ins)|
    ensures n < |done| && Consecutive(k, Run(k, s, pre).p, done) && HeadersFit(done, decimation)
    ensures Frames(k, s, pre, ins)[|Leftover(k, s, pre).frames| + n] ==
            Lead(Leftover(k, s, pre), n) + PacketBeats(k, done[n])
  {
    FramesOf(k, s, pre, ins);
    done := DatagramAfter(k, Run(k, s, pre), ins, decimation, Leftover(k, s, pre), Frames(k, s, pre, ins), n);
  }

  // ---- the receiver's statistics ------------------------------------------------------------------------------

  /** A datagram that unpacks to header number `n`. */
  predicate IsDatagram(m: L.Numbering, datagram: seq<Beat>, n: nat) {
    HeaderIn(datagram).Ok? && L.IsNth(m, HeaderIn(datagram).value, n)
  }

  lemma PacketIsDatagram(k: Params, p0: Packetizer, done: seq<Packet>, decimation: nat, n: nat)
    requires ValidParams(k) && AtBoundary(p0) && Consecutive(k, p0, done) && HeadersFit(done, decimation) && n < |done|
    ensures IsDatagram(NumberingOf(k, p0, decimation), PacketBeats(k, done[n]), n)
  {
    HeaderIsNth(k, p0, done, decimation, n);
    PacketUnpacks(k, done[n]);
  }

  /** Nothing of a cut packet goes in front of packet `n`. */
  predicate Clean(k: Params, s: Packetizer, pre: seq<In>, n: nat) {
    n > 0 || Leftover(k, s, pre).rest == []
  }

  /**
   After any run, the datagrams of a steady stretch unpack to consecutively numbered and stamped headers, the first of
   them if nothing of a cut packet is in front of it.
   */
  lemma DatagramsAreNumbered(k: Params, s: Packetizer, pre: seq<In>, ins: seq<In>, decimation: nat, n: nat)
    requires ValidParams(k) && AtBoundary(Run(k, s, pre).p) && EpisodeInputs(ins, decimation) && Clean(k, s, pre, n)
    requires |Leftover(k, s, pre).frames| + n < |Frames(k, s, pre, ins)|
    ensures IsDatagram(NumberingOf(k, Run(k, s, pre).p, decimation),
                       Frames(k, s, pre, ins)[|Leftover(k, s, pre).frames| + n], n)
  {
    var done := EpisodeDatagram(k, s, pre, ins, decimation, n);
    PacketIsDatagram(k, Run(k, s, pre).p, done, decimation, n);
    assert [] + PacketBeats(k, done[n]) == PacketBeats(k, done[n]);
  }

  /** Datagrams that unpack to the headers numbered by `ns`. */
  predicate AllNumbered(m: L.Numbering, datagrams: seq<seq<Beat>>, ns: seq<nat>) {
    |datagrams| == |ns| && forall i :: 0 <= i < |ns| ==> IsDatagram(m, datagrams[i], ns[i])
  }

  /** The datagrams that arrive, of those after the first `skip`. */
  function Arriving(frames: seq<seq<Beat>>, skip: nat, ns: seq<nat>): (ds: seq<seq<Beat>>)
    requires forall i :: 0 <= i < |ns| ==> skip + ns[i] < |frames|
    ensures |ds| == |ns| && forall i :: 0 <= i < |ns| ==> ds[i] == frames[skip + ns[i]]
  {
    seq(|ns|, i requires 0 <= i < |ns| => frames[skip + ns[i]])
  }

  /** What the receiver unpacks from datagrams; what does not unpack is not tallied. */
  function Unpacked(datagrams: seq<seq<Beat>>): seq<IqHeader> {
    if datagrams == [] then []
    else
      var hs, h := Unpacked(datagrams[..|datagrams| - 1]), HeaderIn(datagrams[|datagrams| - 1]);
      if h.Ok? then hs + [h.value] else hs
  }

  lemma {:induction false} AllUnpacked(m: L.Numbering, datagrams: seq<seq<Beat>>, ns: seq<nat>)
    requires AllNumbered(m, datagrams, ns)
    ensures var hs := Unpacked(datagrams);
            |hs| == |ns| && forall i :: 0 <= i < |ns| ==> L.IsNth(m, hs[i], ns[i])
  {
    if ns != [] {
      var j := |ns| - 1;
      assert IsDatagram(m, datagrams[j], ns[j]);
      AllUnpacked(m, datagrams[..j], ns[..j]);
    }
  }

  lemma ArrivingNumbered(m: L.Numbering, frames: seq<seq<Beat>>, skip: nat, ns: seq<nat>)
    requires forall i :: 0 <= i < |ns| ==> skip + ns[i] < |frames| && IsDatagram(m, frames[skip + ns[i]], ns[i])
    ensures AllNumbered(m, Arriving(frames, skip, ns), ns)
  {
  }

  lemma ArrivingAreNumbered(k: Params, s: Packetizer, pre: seq<In>, ins: seq<In>, decimation: nat, ns: seq<nat>)
    requires ValidParams(k) && AtBoundary(Run(k, s, pre).p) && EpisodeInputs(ins, decimation)
    requires forall i :: 0 <= i < |ns| ==>
               |Leftover(k, s, pre).frames| + ns[i] < |Frames(k, s, pre, ins)| && Clean(k, s, pre, ns[i])
    ensures AllNumbered(NumberingOf(k, Run(k, s, pre).p, decimation),
                        Arriving(Frames(k, s, pre, ins), |Leftover(k, s, pre).frames|, ns), ns)
  {
    var m, frames := NumberingOf(k, Run(k, s, pre).p, decimation), Frames(k, s, pre, ins);
    var skip := |Leftover(k, s, pre).frames|;
    forall i | 0 <= i < |ns|
      ensures skip + ns[i] < |frames| && IsDatagram(m, frames[skip + ns[i]], ns[i])
    {
      DatagramsAreNumbered(k, s, pre, ins, decimation, ns[i]);
    }
    ArrivingNumbered(m, frames, skip, ns);
  }

  lemma DatagramsAccounted(m: L.Numbering, streamId: nat, datagrams: seq<seq<Beat>>, ns: seq<nat>)
    requires L.Arrivals(ns) && AllNumbered(m, datagrams, ns)
    ensures L.Accounted(m, streamId, ns, L.Tally(streamId, Unpacked(datagrams)))
  {
    AllUnpacked(m, datagrams, ns);
    L.EpisodeAccounted(m, streamId, ns, Unpacked(datagrams));
  }

  /**
   End to end: after any run, take a steady stretch of the packetizer, under any back-pressure and input gaps; cut all
   the words that have left at TLAST, lose any of the stretch's datagrams in bursts shorter than 2^32, its first among
   them if words of a cut packet are in front of it, and unpack the rest. Then packets received plus packets counted as
   lost is the true span, and the timestamp gaps are the bursts that show.
   */
  lemma ReceiverAccountsForTheStream(k: Params, s: Packetizer, pre: seq<In>, ins: seq<In>, decimation: nat,
                                     ns: seq<nat>)
    requires ValidParams(k) && AtBoundary(Run(k, s, pre).p) && EpisodeInputs(ins, decimation) && L.Arrivals(ns)
    requires forall i :: 0 <= i < |ns| ==>
               |Leftover(k, s, pre).frames| + ns[i] < |Frames(k, s, pre, ins)| && Clean(k, s, pre, ns[i])
    ensures var arriving := Arriving(Frames(k, s, pre, ins), |Leftover(k, s, pre).frames|, ns);
            L.Accounted(NumberingOf(k, Run(k, s, pre).p, decimation), k.streamId, ns,
                        L.Tally(k.streamId, Unpacked(arriving)))
  {
    ArrivingAreNumbered(k, s, pre, ins, decimation, ns);
    DatagramsAccounted(NumberingOf(k, Run(k, s, pre).p, decimation), k.streamId,
                       Arriving(Frames(k, s, pre, ins), |Leftover(k, s, pre).frames|, ns), ns);
  }
}
