/**
 Loss accounting on the IQ link: the device numbers and stamps packets, the network drops some, and
 the backend reconstructs from the headers how many are missing.
 */
module IqLink {
  import opened Modular
  import opened Options
  import opened Packets

  // ---- the sender --------------------------------------------------------------------------------

  /** What stays fixed while a stream runs. */
  datatype Stream = Stream(streamId: int, frequencyHz: int, iqSampleRateHz: nat, bandwidthHz: int, sampleCount: nat,
                           injectAdcOr: bool, injectOverflow: bool)

  predicate ValidStream(c: Stream) { c.iqSampleRateHz > 0 }

  function Decimation(c: Stream): nat
    requires ValidStream(c)
  {
    ADC_RATE / c.iqSampleRateHz
  }

  /** ADC ticks per packet. */
  function Delta(c: Stream): nat
    requires ValidStream(c)
  {
    Decimation(c) * c.sampleCount
  }

  function FlagsOf(c: Stream, first: bool): nat {
    (if first then 12 else 0) + (if c.injectAdcOr then 1 else 0) + if c.injectOverflow then 2 else 0
  }

  /** The header of a packet with the given running values. */
  function HeaderOf(c: Stream, seqNo: nat, timestamp: nat, first: bool): IqHeader
    requires ValidStream(c)
  {
    IqHeader(IQ_MAGIC, VERSION, IQ_HEADER_SIZE, FRAME_IQ, c.streamId, seqNo, timestamp, c.frequencyHz, c.iqSampleRateHz,
             c.bandwidthHz, SC16_LE, c.sampleCount, FlagsOf(c, first), 0, Decimation(c), c.sampleCount * 4, 0)
  }

  /** The header of packet `n` of an episode. */
  function NthHeader(c: Stream, n: nat): IqHeader
    requires ValidStream(c)
  {
    HeaderOf(c, n % WORD, n * Delta(c) % STAMP, n == 0)
  }

  /** A sent header passes the receiver's checks and tells what was injected, and which packet is the first. */
  lemma SentHeaderTells(c: Stream, n: nat)
    requires ValidStream(c)
    ensures var h := NthHeader(c, n);
            && h.Validate().Ok? && h.streamId == c.streamId
            && h.frequencyHz == c.frequencyHz && h.iqSampleRateHz == c.iqSampleRateHz && h.bandwidthHz == c.bandwidthHz
            && h.decimation == 250_000_000 / c.iqSampleRateHz && h.NextTimestampDelta() == Delta(c)
            && h.flags < 16 && (h.flags % 2 == 1 <==> c.injectAdcOr) && (h.flags / 2 % 2 == 1 <==> c.injectOverflow)
            && h.flags / 4 == (if n == 0 then 3 else 0)
  {
  }

  /** The device's state of one stream. */
  class StreamState {
    const cfg: Stream
    var seqNo: nat
    var adcTimestamp: nat
    var firstPacket: bool
    var fifoOverflowCount: nat
    ghost var sent: nat

    /** The running values are those of packet number `sent`. */
    ghost predicate Valid()
      reads this
    {
      && ValidStream(cfg)
      && seqNo == sent % WORD
      && adcTimestamp == sent * Delta(cfg) % STAMP
      && firstPacket == (sent == 0)
    }

    constructor (cfg: Stream)
      requires ValidStream(cfg)
      ensures Valid() && this.cfg == cfg && sent == 0 && fifoOverflowCount == 0
    {
      this.cfg := cfg;
      seqNo, adcTimestamp, firstPacket, fifoOverflowCount, sent := 0, 0, true, 0, 0;
    }

    method ResetForEnable()
      requires ValidStream(cfg)
      modifies this
      ensures Valid() && sent == 0 && fifoOverflowCount == old(fifoOverflowCount)
    {
      seqNo, adcTimestamp, firstPacket, sent := 0, 0, true, 0;
    }

    /** Builds the next packet's header and moves on, whether or not the packet is then transmitted. */
    method SendIqPacket() returns (header: IqHeader)
      requires Valid()
      modifies this
      ensures Valid() && sent == old(sent) + 1
      ensures header == NthHeader(cfg, old(sent))
      ensures fifoOverflowCount == old(fifoOverflowCount) + if cfg.injectOverflow then 1 else 0
    {
      header := HeaderOf(cfg, seqNo, adcTimestamp, firstPacket);
      firstPacket := false;
      if cfg.injectOverflow {
        fifoOverflowCount := fifoOverflowCount + 1;
      }
      SeqAdvances(sent);
      StampAdvances(sent, Delta(cfg));
      seqNo := (seqNo + 1) % WORD;
      adcTimestamp := (adcTimestamp + header.NextTimestampDelta()) % STAMP;
      sent := sent + 1;
    }
  }

  lemma SeqAdvances(n: nat)
    ensures (n % WORD + 1) % WORD == (n + 1) % WORD
  {
    ModAddLeft(n, 1, WORD);
  }

  lemma StampAdvances(n: nat, delta: nat)
    ensures (n * delta % STAMP + delta) % STAMP == (n + 1) * delta % STAMP
  {
    ModAddLeft(n * delta, delta, STAMP);
    assert n * delta + delta == (n + 1) * delta;
  }

  // ---- the receiver --------------------------------------------------------------------------------

  datatype StreamStats = StreamStats(
    streamId: int, packets: nat, lostPackets: nat, timestampGaps: nat, adcOrCount: nat, fifoOverflowCount: nat,
    lastSeq: Option<int>, lastTimestamp: Option<int>,
    lastFrequencyHz: int, lastIqSampleRateHz: int, lastBandwidthHz: int, lastFlags: int)

  function FreshStats(streamId: int): StreamStats {
    StreamStats(streamId, 0, 0, 0, 0, 0, None, None, 0, 0, 0, 0)
  }

  function Lost(s: StreamStats, h: IqHeader): nat {
    if s.lastSeq.None? then 0
    else
      var expected := (s.lastSeq.value + 1) % WORD;
      if h.seqNo != expected then (h.seqNo - expected) % WORD else 0
  }

  predicate Gap(s: StreamStats, h: IqHeader) {
    s.lastTimestamp.Some? && h.adcTimestamp != (s.lastTimestamp.value + h.NextTimestampDelta()) % STAMP
  }

  /** The statistics after one more header. */
  function Ingest(s: StreamStats, h: IqHeader): StreamStats {
    StreamStats(
      s.streamId, s.packets + 1, s.lostPackets + Lost(s, h), s.timestampGaps + (if Gap(s, h) then 1 else 0),
      s.adcOrCount + h.flags % 2, s.fifoOverflowCount + h.flags / 2 % 2,
      Some(h.seqNo), Some(h.adcTimestamp), h.frequencyHz, h.iqSampleRateHz, h.bandwidthHz, h.flags)
  }

  /** All streams after one more header. */
  function Receive(streams: map<int, StreamStats>, h: IqHeader): map<int, StreamStats> {
    var id := h.streamId;
    streams[id := Ingest(if id in streams then streams[id] else FreshStats(id), h)]
  }

  class AppState {
    var streams: map<int, StreamStats>

    constructor ()
      ensures streams == map[]
    {
      streams := map[];
    }

    method IngestIqHeader(header: IqHeader) returns (stats: StreamStats)
      modifies this
      ensures streams == Receive(old(streams), header) && stats == streams[header.streamId]
    {
      stats := if header.streamId in streams then streams[header.streamId] else FreshStats(header.streamId);
      if stats.lastSeq.Some? {
        var expected := (stats.lastSeq.value + 1) % WORD;
        if header.seqNo != expected {
          stats := stats.(lostPackets := stats.lostPackets + (header.seqNo - expected) % WORD);
        }
      }
      if stats.lastTimestamp.Some? {
        var expected := (stats.lastTimestamp.value + header.NextTimestampDelta()) % STAMP;
        if header.adcTimestamp != expected {
          stats := stats.(timestampGaps := stats.timestampGaps + 1);
        }
      }
      if header.flags % 2 == 1 {
        stats := stats.(adcOrCount := stats.adcOrCount + 1);
      }
      if header.flags / 2 % 2 == 1 {
        stats := stats.(fifoOverflowCount := stats.fifoOverflowCount + 1);
      }
      stats := stats.(packets := stats.packets + 1, lastSeq := Some(header.seqNo),
          lastTimestamp := Some(header.adcTimestamp),
                      lastFrequencyHz := header.frequencyHz, lastIqSampleRateHz := header.iqSampleRateHz,
                      lastBandwidthHz := header.bandwidthHz, lastFlags := header.flags);
      streams := streams[header.streamId := stats];
    }
  }

  // ---- a link that only drops packets ---------------------------------------------------------------

  /** The numbers of the packets that arrived: increasing, and no burst of 2^32 or more missing. */
  predicate Arrivals(ns: seq<nat>) {
    forall i :: 0 < i < |ns| ==> ns[i - 1] < ns[i] <= ns[i - 1] + WORD
  }

  /** The statistics of a stream after its headers. */
  function Tally(streamId: int, hs: seq<IqHeader>): StreamStats {
    if hs == [] then FreshStats(streamId) else Ingest(Tally(streamId, hs[..|hs| - 1]), hs[|hs| - 1])
  }

  // ---- the other statistics ------------------------------------------------------------------------

  /** Headers with a flag, given as its value, a power of two. */
  function FlagCount(hs: seq<IqHeader>, flag: nat): nat
    requires flag > 0
  {
    if hs == [] then 0
    else FlagCount(hs[..|hs| - 1], flag) + if hs[|hs| - 1].flags / flag % 2 == 1 then 1 else 0
  }

  /** The fields that describe the last header. */
  predicate Describes(t: StreamStats, h: IqHeader) {
    && t.lastSeq == Some(h.seqNo) && t.lastTimestamp == Some(h.adcTimestamp)
    && t.lastFrequencyHz == h.frequencyHz && t.lastIqSampleRateHz == h.iqSampleRateHz
    && t.lastBandwidthHz == h.bandwidthHz && t.lastFlags == h.flags
  }

  /** ADC_OR is flag 1 and FIFO_OVERFLOW is flag 2; each is counted, and the last header is described. */
  lemma {:induction false} TallyTells(streamId: int, hs: seq<IqHeader>)
    ensures var t := Tally(streamId, hs);
            && t.streamId == streamId && t.packets == |hs|
            && t.adcOrCount == FlagCount(hs, 1) && t.fifoOverflowCount == FlagCount(hs, 2)
            && (hs != [] ==> Describes(t, hs[|hs| - 1]))
  {
    if hs != [] {
      TallyTells(streamId, hs[..|hs| - 1]);
    }
  }

  function ReceiveAll(hs: seq<IqHeader>): map<int, StreamStats> {
    if hs == [] then map[] else Receive(ReceiveAll(hs[..|hs| - 1]), hs[|hs| - 1])
  }

  /** The headers of one stream. */
  function OfStream(hs: seq<IqHeader>, id: int): seq<IqHeader> {
    if hs == [] then []
    else OfStream(hs[..|hs| - 1], id) + if hs[|hs| - 1].streamId == id then [hs[|hs| - 1]] else []
  }

  /** Streams do not disturb each other: each has the tally of its own headers, and exists if it has any. */
  lemma {:induction false} StreamsAreSeparate(hs: seq<IqHeader>, id: int)
    ensures id in ReceiveAll(hs) <==> OfStream(hs, id) != []
    ensures id in ReceiveAll(hs) ==> ReceiveAll(hs)[id] == Tally(id, OfStream(hs, id))
  {
    if hs != [] {
      var init, h := hs[..|hs| - 1], hs[|hs| - 1];
      StreamsAreSeparate(init, id);
      if h.streamId == id {
        assert OfStream(hs, id) == OfStream(init, id) + [h];
        TallyOneMore(id, OfStream(init, id), h);
      } else {
        assert OfStream(hs, id) == OfStream(init, id);
      }
    }
  }

  lemma TallyOneMore(id: int, hs: seq<IqHeader>, h: IqHeader)
    ensures Tally(id, hs + [h]) == Ingest(Tally(id, hs), h) && Tally(id, []) == FreshStats(id)
  {
    assert (hs + [h])[..|hs|] == hs;
  }

  /** Packets missing just before the last arrival. */
  function LastBurst(ns: seq<nat>): int {
    if |ns| < 2 then 0 else ns[|ns| - 1] as int - (ns[|ns| - 2] + 1)
  }

  function Bursts(ns: seq<nat>): nat {
    if ns == [] then 0 else Bursts(ns[..|ns| - 1]) + if LastBurst(ns) > 0 then 1 else 0
  }

  /** The missing ticks are not a multiple of the timestamp's 2^64. */
  predicate Shows(burst: int, delta: nat) { burst * delta % STAMP != 0 }

  /** Bursts that show in the timestamps. */
  function VisibleBursts(ns: seq<nat>, delta: nat): nat {
    if ns == [] then 0 else VisibleBursts(ns[..|ns| - 1], delta) + if Shows(LastBurst(ns), delta) then 1 else 0
  }

  /** The burst before arrival `i`. */
  function BurstBefore(ns: seq<nat>, i: nat): int
    requires 0 < i < |ns|
  {
    ns[i] as int - (ns[i - 1] + 1)
  }

  /** The sequence numbers give the exact length of a burst. */
  lemma LossOfBurst(i: nat, j: nat)
    requires i < j <= i + WORD
    ensures var expected := (i % WORD + 1) % WORD;
            (if j % WORD != expected then (j % WORD - expected) % WORD else 0) == j - i - 1
  {
    SeqAdvances(i);
    ModSub(j, i + 1, WORD);
    ModSmall(j - i - 1, WORD);
    if j % WORD == (i + 1) % WORD {
      ModEqualClose(j, i + 1, WORD);
    }
  }

  /** The timestamps agree exactly when the missing ticks are a multiple of 2^64. */
  lemma GapOfBurst(base: nat, i: nat, j: nat, delta: nat)
    requires i < j
    ensures (base + j * delta) % STAMP != ((base + i * delta) % STAMP + delta) % STAMP <==> Shows(j - (i + 1), delta)
  {
    ModAddLeft(base + i * delta, delta, STAMP);
    assert base + i * delta + delta == base + (i + 1) * delta;
    assert base + j * delta - (base + (i + 1) * delta) == (j - i - 1) * delta;
    ModDifference(base + j * delta, base + (i + 1) * delta, STAMP);
  }

  lemma ModDifference(a: int, b: int, m: int)
    requires m > 0
    ensures a % m == b % m <==> (a - b) % m == 0
  {
    ModSub(a, b, m);
    ModSmall(0, m);
    if (a - b) % m == 0 {
      var k := (a - b) / m;
      assert a == b + k * m;
      ModAddMultiple(b, k, m);
    }
  }

  /** How an episode's packets are numbered and stamped. */
  datatype Numbering = Numbering(seq0: nat, stamp0: nat, delta: nat)

  predicate IsNth(m: Numbering, h: IqHeader, n: nat) {
    && h.seqNo == (m.seq0 + n) % WORD
    && h.adcTimestamp == (m.stamp0 + n * m.delta) % STAMP
    && h.NextTimestampDelta() == m.delta
  }

  /** What the header of packet `n` adds to statistics whose last packet was `i`. */
  lemma IngestAfter(m: Numbering, s: StreamStats, i: nat, n: nat, h: IqHeader)
    requires IsNth(m, h, n) && i < n <= i + WORD
    requires s.lastSeq == Some((m.seq0 + i) % WORD) && s.lastTimestamp == Some((m.stamp0 + i * m.delta) % STAMP)
    ensures Lost(s, h) == n - i - 1
    ensures Gap(s, h) <==> Shows(n - (i + 1), m.delta)
  {
    LossOfBurst(m.seq0 + i, m.seq0 + n);
    GapOfBurst(m.stamp0, i, n, m.delta);
  }

  ghost predicate Accounted(m: Numbering, streamId: int, ns: seq<nat>, s: StreamStats) {
    && s.packets == |ns|
    && s.timestampGaps == VisibleBursts(ns, m.delta)
    && if ns == [] then s == FreshStats(streamId)
       else
         && ns[0] + s.packets + s.lostPackets == ns[|ns| - 1] + 1
         && s.lastSeq == Some((m.seq0 + ns[|ns| - 1]) % WORD)
         && s.lastTimestamp == Some((m.stamp0 + ns[|ns| - 1] * m.delta) % STAMP)
  }

  lemma FirstAccounted(m: Numbering, streamId: int, n: nat, h: IqHeader)
    requires IsNth(m, h, n)
    ensures Accounted(m, streamId, [n], Ingest(FreshStats(streamId), h))
  {
    NoBurstDoesNotShow(m.delta);
    assert [n][..0] == [];
  }

  lemma BurstsExtend(ns: seq<nat>, n: nat, delta: nat)
    requires ns != []
    ensures VisibleBursts(ns + [n], delta) ==
            VisibleBursts(ns, delta) + if Shows(n as int - (ns[|ns| - 1] + 1), delta) then 1 else 0
  {
    assert (ns + [n])[..|ns|] == ns;
  }

  lemma NextAccounted(m: Numbering, streamId: int, ns: seq<nat>, s: StreamStats, n: nat, h: IqHeader)
    requires ns != [] && Accounted(m, streamId, ns, s) && IsNth(m, h, n) && ns[|ns| - 1] < n <= ns[|ns| - 1] + WORD
    ensures Accounted(m, streamId, ns + [n], Ingest(s, h))
  {
    IngestAfter(m, s, ns[|ns| - 1], n, h);
    BurstsExtend(ns, n, m.delta);
  }

  /** The headers are those numbered by `ns`. */
  predicate AllNth(m: Numbering, hs: seq<IqHeader>, ns: seq<nat>) {
    |hs| == |ns| && forall i :: 0 <= i < |ns| ==> IsNth(m, hs[i], ns[i])
  }

  lemma FirstNth(m: Numbering, hs: seq<IqHeader>, ns: seq<nat>, n: nat)
    requires AllNth(m, hs, ns) && Arrivals(ns) && n <= |ns|
    ensures AllNth(m, hs[..n], ns[..n]) && Arrivals(ns[..n])
  {
  }

  /**
   Any episode over a link that drops packets: received plus lost is the true span from the first to the last
   packet received, and the timestamp gaps are the bursts the timestamps can show.
   */
  lemma {:induction false} EpisodeAccounted(m: Numbering, streamId: int, ns: seq<nat>, hs: seq<IqHeader>)
    requires Arrivals(ns) && AllNth(m, hs, ns)
    ensures Accounted(m, streamId, ns, Tally(streamId, hs))
  {
    if ns != [] {
      var last := |ns| - 1;
      var init, before := ns[..last], hs[..last];
      assert ns == init + [ns[last]];
      FirstNth(m, hs, ns, last);
      EpisodeAccounted(m, streamId, init, before);
      if init == [] {
        FirstAccounted(m, streamId, ns[last], hs[last]);
      } else {
        NextAccounted(m, streamId, init, Tally(streamId, before), ns[last], hs[last]);
      }
    }
  }

  // ---- the simulated device over such a link --------------------------------------------------------------

  function Headers(c: Stream, ns: seq<nat>): (hs: seq<IqHeader>)
    requires ValidStream(c)
    ensures |hs| == |ns| && forall i :: 0 <= i < |ns| ==> hs[i] == NthHeader(c, ns[i])
  {
    if ns == [] then [] else Headers(c, ns[..|ns| - 1]) + [NthHeader(c, ns[|ns| - 1])]
  }

  function Received(c: Stream, ns: seq<nat>): StreamStats
    requires ValidStream(c)
  {
    Tally(c.streamId, Headers(c, ns))
  }

  /** The device numbers from zero, so the accounting holds of each of its episodes. */
  lemma LossAccounting(c: Stream, ns: seq<nat>)
    requires ValidStream(c) && Arrivals(ns)
    ensures Accounted(Numbering(0, 0, Delta(c)), c.streamId, ns, Received(c, ns))
  {
    EpisodeAccounted(Numbering(0, 0, Delta(c)), c.streamId, ns, Headers(c, ns));
  }

  lemma NoBurstDoesNotShow(delta: nat)
    ensures !Shows(0, delta)
  {
  }

  /** No burst before packet `i`, or one that the timestamps show. */
  predicate Unhidden(ns: seq<nat>, i: nat, delta: nat)
    requires 0 < i < |ns|
    requires Arrivals(ns)
  {
    BurstBefore(ns, i) > 0 ==> Shows(BurstBefore(ns, i), delta)
  }

  lemma LastUnhidden(ns: seq<nat>, delta: nat)
    requires Arrivals(ns) && |ns| > 1
    ensures VisibleBursts(ns, delta) == VisibleBursts(ns[..|ns| - 1], delta) + (if Shows(LastBurst(ns),
            delta) then 1 else 0)
    ensures Bursts(ns) == Bursts(ns[..|ns| - 1]) + (if LastBurst(ns) > 0 then 1 else 0)
    ensures Unhidden(ns, |ns| - 1, delta) <==> (LastBurst(ns) > 0 ==> Shows(LastBurst(ns), delta))
    ensures Shows(LastBurst(ns), delta) ==> LastBurst(ns) > 0
  {
    NoBurstDoesNotShow(delta);
    assert LastBurst(ns) == BurstBefore(ns, |ns| - 1);
  }

  /** Timestamp gaps count the bursts exactly when no burst is hidden by the timestamp's wrap. */
  lemma {:induction false} VisibleIffNoHiddenBurst(ns: seq<nat>, delta: nat)
    requires Arrivals(ns)
    ensures VisibleBursts(ns, delta) <= Bursts(ns)
    ensures VisibleBursts(ns, delta) == Bursts(ns) <==> forall i :: 0 < i < |ns| ==> Unhidden(ns, i, delta)
  {
    if |ns| > 1 {
      var init := ns[..|ns| - 1];
      VisibleIffNoHiddenBurst(init, delta);
      LastUnhidden(ns, delta);
      assert forall i :: 0 < i < |init| ==> Unhidden(init, i, delta) == Unhidden(ns, i, delta);
    } else if |ns| == 1 {
      assert VisibleBursts(ns[..0], delta) == 0 && Bursts(ns[..0]) == 0;
      NoBurstDoesNotShow(delta);
    }
  }

  lemma {:induction false} NoTicksNoGaps(ns: seq<nat>)
    ensures VisibleBursts(ns, 0) == 0
  {
    if ns != [] {
      NoTicksNoGaps(ns[..|ns| - 1]);
    }
  }

  /** A burst does stay hidden: packets without samples span no ticks. */
  lemma BurstCanBeHidden(c: Stream, ns: seq<nat>)
    requires ns == [0, 2] && ValidStream(c) && c.sampleCount == 0
    ensures Bursts(ns) == 1 && Received(c, ns).timestampGaps == 0
  {
    var first := ns[..1];
    assert first[..0] == [] && LastBurst(first) == 0 && Bursts(first) == 0;
    assert LastBurst(ns) == 1;
    LossAccounting(c, ns);
    NoTicksNoGaps(ns);
  }

  /** No burst is hidden when a packet spans between one and 2^32 ticks. */
  lemma GapsAreBursts(c: Stream, ns: seq<nat>)
    requires ValidStream(c) && Arrivals(ns) && 0 < Delta(c) <= WORD
    ensures Received(c, ns).timestampGaps == Bursts(ns)
  {
    LossAccounting(c, ns);
    forall i | 0 < i < |ns|
      ensures Unhidden(ns, i, Delta(c))
    {
      if BurstBefore(ns, i) > 0 {
        BurstTicks(BurstBefore(ns, i), Delta(c));
      }
    }
    VisibleIffNoHiddenBurst(ns, Delta(c));
  }

  lemma BurstTicks(burst: nat, delta: nat)
    requires 0 < burst < WORD && 0 < delta <= WORD
    ensures Shows(burst, delta)
  {
    ProductBounds(burst, delta, WORD);
    ModSmall(burst * delta, STAMP);
  }

  lemma ProductBounds(a: nat, b: nat, m: nat)
    requires 0 < a < m && 0 < b <= m
    ensures 0 < a * b < m * m
  {
    assert a * b <= a * m by {
      assert a * (m - b) >= 0;
    }
    assert a * m < m * m by {
      assert (m - a) * m > 0;
    }
  }

  /** Every rate the device accepts, with a 16-bit sample count above zero, is within that range. */
  lemma SupportedRatesCountBursts(c: Stream, ns: seq<nat>)
    requires c.iqSampleRateHz == 125_000 || c.iqSampleRateHz == 250_000 || c.iqSampleRateHz ==
            500_000 || c.iqSampleRateHz == 1_000_000
    requires 0 < c.sampleCount < 0x1_0000 && Arrivals(ns)
    ensures Received(c, ns).timestampGaps == Bursts(ns)
  {
    assert Decimation(c) == 2000 || Decimation(c) == 1000 || Decimation(c) == 500 || Decimation(c) == 250;
    GapsAreBursts(c, ns);
  }

  lemma {:induction false} FlagCounts(c: Stream, ns: seq<nat>)
    requires ValidStream(c)
    ensures FlagCount(Headers(c, ns), 1) == if c.injectAdcOr then |ns| else 0
    ensures FlagCount(Headers(c, ns), 2) == if c.injectOverflow then |ns| else 0
  {
    if ns != [] {
      var init := ns[..|ns| - 1];
      FlagCounts(c, init);
      SentHeaderTells(c, ns[|ns| - 1]);
      assert Headers(c, ns)[..|ns| - 1] == Headers(c, init);
    }
  }

  /** What the device injects is counted at the receiver, once for each packet that arrives. */
  lemma InjectedFlagsAreCounted(c: Stream, ns: seq<nat>)
    requires ValidStream(c)
    ensures var t := Received(c, ns);
            && t.adcOrCount == (if c.injectAdcOr then |ns| else 0)
            && t.fifoOverflowCount == (if c.injectOverflow then |ns| else 0)
  {
    TallyTells(c.streamId, Headers(c, ns));
    FlagCounts(c, ns);
  }
}
