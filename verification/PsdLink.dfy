/**
 PSD frames from the device to the published spectrum: segmentation, a link that loses segments and
 reorders them within a frame, and reassembly.
 */
module PsdLink {
  import opened LittleEndian
  import opened Modular
  import opened Packets
  import opened PsdAccounting
  import opened PsdReassembly
  import opened Rounding

  const PER_SEGMENT := 512

  /** The PSD settings in force. */
  datatype Psd = Psd(psdId: int, startHz: int, stopHz: int, fftSize: int, totalBins: nat)

  /** The bin spacing that the headers state, in millihertz. */
  function Spacing(c: Psd): int {
    if c.totalBins == 0 then 0 else RoundHalfEven(1000 * (c.stopHz - c.startHz), c.totalBins)
  }

  function SegmentCount(c: Psd): nat {
    c.totalBins / PER_SEGMENT
  }

  /** A bin in 1/256 dB. */
  type int16 = x: int | -0x8000 <= x < 0x8000

  function EncodeBin(v: int16): (b: seq<byte>)
    ensures |b| == 2
  {
    BinFits(v);
    EncodeField(S(2), v)
  }

  lemma BinFits(v: int16)
    ensures Fits(S(2), v)
  {
    assert Pow256(2) == 0x1_0000;
  }

  function EncodeBins(bins: seq<int16>): (b: seq<byte>)
    ensures |b| == 2 * |bins|
  {
    if bins == [] then [] else EncodeBins(bins[..|bins| - 1]) + EncodeBin(bins[|bins| - 1])
  }

  /** The bins a segment carries. */
  function SegmentBins(bins: seq<int16>, i: nat): (s: seq<int16>)
    requires PER_SEGMENT * (i + 1) <= |bins|
    ensures |s| == PER_SEGMENT
  {
    bins[PER_SEGMENT * i..PER_SEGMENT * i + PER_SEGMENT]
  }

  function SegmentHeader(c: Psd, frame: nat, i: nat, stamp: int): PsdHeader {
    PsdHeader(PSD_MAGIC, VERSION, PSD_HEADER_SIZE, FRAME_PSD, c.psdId, frame % WORD, stamp, c.startHz, Spacing(c),
              c.fftSize, c.totalBins, i, SegmentCount(c), PER_SEGMENT * i, PER_SEGMENT, I16_DBFS_Q8,
              if frame == 0 then 2 else 0, 4, 2 * PER_SEGMENT, c.stopHz)
  }

  /** Segment `i` of frame number `frame`. */
  function SegmentOf(c: Psd, frame: nat, bins: seq<int16>, i: nat, stamp: int): Segment
    requires |bins| == c.totalBins && i < SegmentCount(c)
  {
    Segment(SegmentHeader(c, frame, i, stamp), EncodeBins(SegmentBins(bins, i)))
  }

  // ---- the sender --------------------------------------------------------------------------------------

  class PsdSender {
    const cfg: Psd
    var frameSeq: nat
    var firstFrame: bool
    ghost var sent: nat

    ghost predicate Valid()
      reads this
    {
      frameSeq == sent % WORD && firstFrame == (sent == 0)
    }

    constructor (cfg: Psd)
      ensures Valid() && this.cfg == cfg && sent == 0
    {
      this.cfg := cfg;
      frameSeq, firstFrame, sent := 0, true, 0;
    }

    /** Appends the little-endian values of a segment's bins. */
    method PayloadOf(segment: seq<int16>) returns (payload: seq<byte>)
      ensures payload == EncodeBins(segment)
    {
      payload := [];
      for i := 0 to |segment|
        invariant payload == EncodeBins(segment[..i])
      {
        assert segment[..i + 1][..i] == segment[..i];
        payload := payload + EncodeBin(segment[i]);
      }
      assert segment[..|segment|] == segment;
    }

    /**
     Splits one frame; `stamps` are the device times read as the segments are built. Without bins the computation of
     their spacing fails before anything changes.
     */
    method SendPsdFrame(bins: seq<int16>, stamps: seq<int>) returns (segments: seq<Segment>, ok: bool)
      requires Valid() && |bins| == cfg.totalBins && |stamps| == SegmentCount(cfg)
      modifies this
      ensures Valid() && ok == (cfg.totalBins != 0) && sent == old(sent) + (if ok then 1 else 0)
      ensures |segments| == SegmentCount(cfg)
      ensures forall i :: 0 <= i < |segments| ==> segments[i] == SegmentOf(cfg, old(sent), bins, i, stamps[i])
    {
      if cfg.totalBins == 0 {
        return [], false;
      }
      var spacing := RoundHalfEven(1000 * (cfg.stopHz - cfg.startHz), cfg.totalBins);
      var flags := if firstFrame then 2 else 0;
      firstFrame := false;
      segments, ok := [], true;
      for i := 0 to SegmentCount(cfg)
        invariant |segments| == i && frameSeq == old(frameSeq) && sent == old(sent) && !firstFrame
        invariant forall j :: 0 <= j < i ==> segments[j] == SegmentOf(cfg, old(sent), bins, j, stamps[j])
      {
        var payload := PayloadOf(bins[PER_SEGMENT * i..PER_SEGMENT * i + PER_SEGMENT]);
        var header := PsdHeader(
          PSD_MAGIC, VERSION, PSD_HEADER_SIZE, FRAME_PSD, cfg.psdId, frameSeq, stamps[i], cfg.startHz, spacing,
          cfg.fftSize, cfg.totalBins, i, SegmentCount(cfg), PER_SEGMENT * i, PER_SEGMENT, I16_DBFS_Q8, flags, 4,
          |payload|, cfg.stopHz);
        segments := segments + [Segment(header, payload)];
      }
      ModAddLeft(sent, 1, WORD);
      frameSeq := (frameSeq + 1) % WORD;
      sent := sent + 1;
    }
  }

  // ---- the wire ------------------------------------------------------------------------------------------

  /** What the UDP receiver passes on: nothing for a short datagram, else header and announced payload. */
  function Parse(datagram: seq<byte>): Result<Segment> {
    if |datagram| < PSD_HEADER_SIZE then Err(TooShort)
    else
      var h := UnpackPsd(datagram[..PSD_HEADER_SIZE]);
      if h.Err? then Err(h.error)
      else
        var rest := datagram[PSD_HEADER_SIZE..];
        var n := h.value.payloadBytes;
        Ok(Segment(h.value, if 0 <= n <= |rest| then rest[..n] else rest))
  }

  lemma ParseSplit(head: seq<byte>, h: PsdHeader, payload: seq<byte>)
    requires |head| == PSD_HEADER_SIZE && UnpackPsd(head) == Ok(h) && |payload| == h.payloadBytes
    ensures Parse(head + payload) == Ok(Segment(h, payload))
  {
    assert (head + payload)[..PSD_HEADER_SIZE] == head;
    assert (head + payload)[PSD_HEADER_SIZE..] == payload == payload[..|payload|];
  }

  /** Bytes beyond the announced payload are ignored, and a payload cut short is passed on as it is. */
  lemma PayloadIsAsAnnounced(head: seq<byte>, h: PsdHeader, rest: seq<byte>)
    requires |head| == PSD_HEADER_SIZE && UnpackPsd(head) == Ok(h) && h.payloadBytes >= 0
    ensures Parse(head + rest) == Ok(Segment(h, if h.payloadBytes < |rest| then rest[..h.payloadBytes] else rest))
  {
    assert (head + rest)[..PSD_HEADER_SIZE] == head;
    assert (head + rest)[PSD_HEADER_SIZE..] == rest && rest[..|rest|] == rest;
  }

  /** A segment whose header packs is parsed back from its datagram unchanged. */
  lemma SegmentSurvivesTheWire(m: Segment)
    requires PackPsd(m.header).Ok? && |m.payload| == m.header.payloadBytes
    ensures Parse(PackPsd(m.header).value + m.payload) == Ok(m)
  {
    var head := PackPsd(m.header).value;
    PsdRoundTrip(m.header, []);
    assert head + [] == head;
    ParseSplit(head, m.header, m.payload);
  }

  /** Settings and a time that fit the header's members. */
  predicate WithinWidths(c: Psd, stamp: int) {
    && 0 <= c.psdId < 0x1_0000 && 0 <= c.startHz < STAMP && 0 <= c.stopHz < STAMP && 0 <= Spacing(c) < STAMP
    && 0 <= c.fftSize < WORD && c.totalBins < 0x1_0000 && 0 <= stamp < STAMP
  }

  lemma HeaderFits(c: Psd, frame: nat, i: nat, stamp: int)
    requires WithinWidths(c, stamp) && i < SegmentCount(c)
    ensures SegmentHeader(c, frame, i, stamp).Validate().Ok? && AllFit(PsdFields(), SegmentHeader(c, frame, i,
            stamp).Values())
  {
    Powers();
    assert PER_SEGMENT * i < c.totalBins;
  }

  /** Every segment that is sent is parsed back by the receiver, header and bins. */
  lemma SentSegmentIsReceived(c: Psd, frame: nat, bins: seq<int16>, i: nat, stamp: int)
    requires |bins| == c.totalBins && i < SegmentCount(c) && WithinWidths(c, stamp)
    ensures var m := SegmentOf(c, frame, bins, i, stamp);
            PackPsd(m.header).Ok? && Parse(PackPsd(m.header).value + m.payload) == Ok(m)
  {
    HeaderFits(c, frame, i, stamp);
    SegmentSurvivesTheWire(SegmentOf(c, frame, bins, i, stamp));
  }

  // ---- encoding and decoding bins -----------------------------------------------------------------------

  lemma {:induction false} EncodeJoin(a: seq<int16>, b: seq<int16>)
    ensures EncodeBins(a + b) == EncodeBins(a) + EncodeBins(b)
  {
    if b == [] {
      assert a + b == a;
    } else {
      var b' := b[..|b| - 1];
      assert (a + b)[..|a + b| - 1] == a + b';
      EncodeJoin(a, b');
    }
  }

  lemma DecodeEncodeBin(v: int16)
    ensures DecodeField(S(2), EncodeBin(v)) == v
  {
    BinFits(v);
    DecodeEncodeField(S(2), v);
  }

  /** Decoding gives back the bins that were encoded. */
  lemma {:induction false} DecodeEncodeBins(bins: seq<int16>)
    ensures DecodeBins(EncodeBins(bins)) == bins
    decreases |bins|
  {
    if bins != [] {
      var head, rest := bins[..1], bins[1..];
      assert bins == head + rest;
      EncodeJoin(head, rest);
      var e := EncodeBin(bins[0]);
      assert head[..0] == [];
      assert EncodeBins(head) == e;
      DecodeEncodeBin(bins[0]);
      DecodeEncodeBins(rest);
      assert EncodeBins(bins)[..2] == e && EncodeBins(bins)[2..] == EncodeBins(rest);
    }
  }

  // ---- arrivals ------------------------------------------------------------------------------------------

  /** A segment that arrived, and the time it was built. */
  datatype Hop = Hop(index: nat, stamp: int)

  /** What arrived of one frame, in order of arrival. */
  datatype Arrival = Arrival(frame: nat, bins: seq<int16>, hops: seq<Hop>)

  function Indices(hops: seq<Hop>): set<int> {
    set h | h in hops :: h.index
  }

  predicate Covers(c: Psd, hops: seq<Hop>) {
    forall i :: 0 <= i < SegmentCount(c) ==> i in Indices(hops)
  }

  /** At least one segment arrived, in any order, and none after the frame was complete. */
  ghost predicate ValidArrival(c: Psd, a: Arrival) {
    && |a.bins| == c.totalBins
    && a.hops != []
    && (forall j :: 0 <= j < |a.hops| ==> a.hops[j].index < SegmentCount(c))
    && (forall j :: 0 <= j < |a.hops| ==> !Covers(c, a.hops[..j]))
  }

  /** Frames arrive in the order sent, fewer than 2^31 frames apart; any of them may be lost altogether. */
  ghost predicate Link(c: Psd, arrivals: seq<Arrival>) {
    && (forall i :: 0 <= i < |arrivals| ==> ValidArrival(c, arrivals[i]))
    && (forall i :: 0 < i < |arrivals| ==>
          arrivals[i - 1].frame < arrivals[i].frame < arrivals[i - 1].frame + 0x8000_0000)
  }

  function SegmentAt(c: Psd, a: Arrival, j: nat): Segment
    requires |a.bins| == c.totalBins && j < |a.hops| && a.hops[j].index < SegmentCount(c)
  {
    SegmentOf(c, a.frame, a.bins, a.hops[j].index, a.hops[j].stamp)
  }

  /** The segments that arrive of a frame. */
  ghost function Segments(c: Psd, a: Arrival): (ms: seq<Segment>)
    requires ValidArrival(c, a)
    ensures |ms| == |a.hops| && forall j :: 0 <= j < |ms| ==> ms[j] == SegmentAt(c, a, j)
  {
    seq(|a.hops|, j requires 0 <= j < |a.hops| => SegmentAt(c, a, j))
  }

  /** Everything that arrives, in order. */
  ghost function AllSegments(c: Psd, arrivals: seq<Arrival>): seq<Segment>
    requires forall i :: 0 <= i < |arrivals| ==> ValidArrival(c, arrivals[i])
  {
    if arrivals == [] then []
    else
      var a := arrivals[|arrivals| - 1];
      AllSegments(c, arrivals[..|arrivals| - 1]) + Segments(c, a)
  }

  ghost function PublishedBy(o: Outcome): seq<Frame> {
    if o.Published? then [o.frame] else []
  }

  type Handler = (Reassembler, Segment) -> (Reassembler, seq<Frame>)

  /** One segment ingested, and the frames published on it. */
  ghost function Take(r: Reassembler, m: Segment): (Reassembler, seq<Frame>) {
    var (r', o) := Ingest(r, m.header, m.payload);
    (r', PublishedBy(o))
  }

  /** Segments handled one after another, and all frames published. */
  ghost function Feed(take: Handler, r: Reassembler, ms: seq<Segment>): (Reassembler, seq<Frame>) {
    if ms == [] then (r, [])
    else
      var (r0, out) := Feed(take, r, ms[..|ms| - 1]);
      var (r1, more) := take(r0, ms[|ms| - 1]);
      (r1, out + more)
  }

  lemma FeedStep(take: Handler, r: Reassembler, ms: seq<Segment>, m: Segment)
    ensures var before := Feed(take, r, ms);
            var after := take(before.0, m);
            Feed(take, r, ms + [m]) == (after.0, before.1 + after.1)
  {
    assert (ms + [m])[..|ms|] == ms;
  }

  lemma {:induction false} FeedConcat(take: Handler, r: Reassembler, ms: seq<Segment>, more: seq<Segment>)
    ensures var before := Feed(take, r, ms);
            var after := Feed(take, before.0, more);
            Feed(take, r, ms + more) == (after.0, before.1 + after.1)
  {
    if more == [] {
      assert ms + more == ms;
      assert Feed(take, r, ms).1 + [] == Feed(take, r, ms).1;
    } else {
      var init, m := more[..|more| - 1], more[|more| - 1];
      FeedConcat(take, r, ms, init);
      assert ms + more == ms + init + [m];
      assert more == init + [m];
      FeedStep(take, r, ms + init, m);
      var (before, out) := Feed(take, r, ms);
      FeedStep(take, before, init, m);
      var mid := Feed(take, before, init);
      assert out + mid.1 + take(mid.0, m).1 == out + (mid.1 + take(mid.0, m).1);
    }
  }

  ghost predicate Leads(take: Handler, ms: seq<Segment>, states: seq<(Reassembler, seq<Frame>)>, i: nat)
    requires 0 < i < |ms| == |states|
  {
    states[i - 1].1 == [] && take(states[i - 1].0, ms[i]) == states[i]
  }

  /** Segments that publish nothing but possibly on the last of them, with the states they lead through. */
  lemma {:induction false} FeedThrough(take: Handler, r: Reassembler, ms: seq<Segment>, states: seq<(Reassembler,
                                       seq<Frame>)>, j: nat)
    requires |states| == |ms| && j < |ms|
    requires take(r, ms[0]) == states[0]
    requires forall i :: 0 < i < |ms| ==> Leads(take, ms, states, i)
    ensures Feed(take, r, ms[..j + 1]) == states[j]
  {
    assert ms[..j + 1] == ms[..j] + [ms[j]];
    FeedStep(take, r, ms[..j], ms[j]);
    if j > 0 {
      assert Leads(take, ms, states, j);
      FeedThrough(take, r, ms, states, j - 1);
    }
    assert [] + states[j].1 == states[j].1;
  }

  lemma FeedWhole(take: Handler, r: Reassembler, ms: seq<Segment>, states: seq<(Reassembler, seq<Frame>)>)
    requires |states| == |ms| > 0 && take(r, ms[0]) == states[0]
    requires forall i :: 0 < i < |ms| ==> Leads(take, ms, states, i)
    ensures Feed(take, r, ms) == states[|ms| - 1]
  {
    FeedThrough(take, r, ms, states, |ms| - 1);
    assert ms[..|ms|] == ms;
  }

  /** The frame to publish for a fully delivered arrival. */
  function FullFrame(c: Psd, a: Arrival): Frame
    requires |a.bins| == c.totalBins
  {
    var (stop, spacing) := FrequencyBounds(c.startHz, c.stopHz, Spacing(c), c.totalBins);
    Frame(c.psdId, a.frame % WORD, c.startHz, stop, spacing, c.fftSize, c.totalBins,
          InHundredths(a.bins[..PER_SEGMENT * SegmentCount(c)]), if a.frame == 0 then 2 else 0)
  }

  /** The frames of the fully delivered arrivals, in order. */
  ghost function Delivered(c: Psd, arrivals: seq<Arrival>): seq<Frame>
    requires forall i :: 0 <= i < |arrivals| ==> ValidArrival(c, arrivals[i])
  {
    if arrivals == [] then []
    else
      var a := arrivals[|arrivals| - 1];
      assert ValidArrival(c, a);
      Delivered(c, arrivals[..|arrivals| - 1]) + if Covers(c, a.hops) then [FullFrame(c, a)] else []
  }

  // ---- one frame ------------------------------------------------------------------------------------------

  /** The segments of `a` that its first `j` hops brought. */
  ghost function SegmentMap(c: Psd, a: Arrival, j: nat): map<int, seq<byte>>
    requires ValidArrival(c, a) && j <= |a.hops|
  {
    map i | i in Indices(a.hops[..j]) && 0 <= i < SegmentCount(c) :: EncodeBins(SegmentBins(a.bins, i))
  }

  function KeyFor(c: Psd, a: Arrival): Key {
    (c.psdId, a.frame % WORD)
  }

  lemma {:induction false} CoveringSize(s: set<int>, n: nat)
    requires forall i :: 0 <= i < n ==> i in s
    ensures |s| >= n
  {
    if n > 0 {
      CoveringSize(s - {n - 1}, n - 1);
    }
  }

  lemma IndicesAppend(hops: seq<Hop>, j: nat)
    requires j < |hops|
    ensures Indices(hops[..j + 1]) == Indices(hops[..j]) + {hops[j].index}
  {
    assert hops[..j + 1] == hops[..j] + [hops[j]];
  }

  lemma SegmentKeys(c: Psd, a: Arrival, j: nat)
    requires ValidArrival(c, a) && j <= |a.hops|
    ensures SegmentMap(c, a, j).Keys == Indices(a.hops[..j])
  {
    forall i | i in Indices(a.hops[..j])
      ensures 0 <= i < SegmentCount(c)
    {
      var h :| h in a.hops[..j] && h.index == i;
    }
  }

  lemma SegmentMapStep(c: Psd, a: Arrival, j: nat)
    requires ValidArrival(c, a) && j < |a.hops|
    ensures SegmentMap(c, a, j + 1) == SegmentMap(c, a, j)[a.hops[j].index as int := SegmentAt(c, a, j).payload]
  {
    IndicesAppend(a.hops, j);
  }

  /** A frame's buffer is complete exactly when its hops cover all indices. */
  lemma CompleteIffCovered(c: Psd, a: Arrival, j: nat)
    requires ValidArrival(c, a) && j <= |a.hops|
    ensures IsComplete(SegmentMap(c, a, j), SegmentCount(c)) <==> Covers(c, a.hops[..j])
  {
    SegmentKeys(c, a, j);
    var segments := SegmentMap(c, a, j);
    assert forall i: int :: i in segments <==> i in Indices(a.hops[..j]);
    if Covers(c, a.hops[..j]) {
      CoveringSize(segments.Keys, SegmentCount(c));
    }
  }

  lemma SplitLast(bins: seq<int16>, n: nat)
    requires n > 0 && PER_SEGMENT * n <= |bins|
    ensures EncodeBins(bins[..PER_SEGMENT * n]) == EncodeBins(bins[..PER_SEGMENT * (n - 1)])
            + EncodeBins(SegmentBins(bins, n - 1))
  {
    var before, here := bins[..PER_SEGMENT * (n - 1)], SegmentBins(bins, n - 1);
    assert bins[..PER_SEGMENT * n] == before + here;
    EncodeJoin(before, here);
  }

  /** The map holds segment `i` of the bins. */
  ghost predicate HoldsSegment(segments: map<int, seq<byte>>, bins: seq<int16>, i: nat)
  {
    PER_SEGMENT * (i + 1) <= |bins| && i in segments && segments[i] == EncodeBins(SegmentBins(bins, i))
  }

  /** Joining the segments in index order restores the frame's bins, whatever order they came in. */
  lemma {:induction false} JoinRestoresBins(segments: map<int, seq<byte>>, bins: seq<int16>, n: nat)
    requires PER_SEGMENT * n <= |bins|
    requires HasAll(segments, n) && forall i :: 0 <= i < n ==> HoldsSegment(segments, bins, i)
    ensures Join(segments, n) == EncodeBins(bins[..PER_SEGMENT * n])
  {
    if n > 0 {
      JoinRestoresBins(segments, bins, n - 1);
      assert HoldsSegment(segments, bins, n - 1);
      SplitLast(bins, n);
    }
  }

  /** What is published for a covered frame is what was sent. */
  lemma PublishedFrame(c: Psd, a: Arrival, j: nat, h: PsdHeader)
    requires ValidArrival(c, a) && j <= |a.hops| && HasAll(SegmentMap(c, a, j), SegmentCount(c))
    requires exists i, stamp :: h == SegmentHeader(c, a.frame, i, stamp)
    ensures FrameOf(h, Join(SegmentMap(c, a, j), SegmentCount(c))) == FullFrame(c, a)
  {
    var n := SegmentCount(c);
    assert forall i :: 0 <= i < n ==> HoldsSegment(SegmentMap(c, a, j), a.bins, i);
    JoinRestoresBins(SegmentMap(c, a, j), a.bins, n);
    DecodeEncodeBins(a.bins[..PER_SEGMENT * n]);
  }

  /** The buffer of a frame of which `j` segments arrived. */
  ghost function Pending(c: Psd, a: Arrival, j: nat): FrameBuffer
    requires ValidArrival(c, a) && j <= |a.hops|
  {
    FrameBuffer(SegmentAt(c, a, 0).header, SegmentMap(c, a, j))
  }

  /** The reassembler when only frame `a` is under way, with its first `j` segments. */
  ghost function Waiting(c: Psd, a: Arrival, j: nat, stats: Stats): Reassembler
    requires ValidArrival(c, a) && j <= |a.hops|
  {
    Reassembler(if j == 0 then map[] else map[KeyFor(c, a) := Pending(c, a, j)], stats)
  }

  function Completed(stats: Stats, frameSeq: int): Reassembler {
    Reassembler(map[], stats.(completeFrames := stats.completeFrames + 1, lastFrameSeq := Options.Some(frameSeq)))
  }

  lemma BufferHop(c: Psd, a: Arrival, j: nat, stats: Stats)
    requires ValidArrival(c, a) && j < |a.hops|
    ensures var m := SegmentAt(c, a, j); Buffered(Waiting(c, a, j, stats), m.header, m.payload) == Pending(c, a, j + 1)
  {
    SegmentMapStep(c, a, j);
    assert SegmentMap(c, a, 0) == map[];
  }

  ghost function AfterHop(c: Psd, a: Arrival, j: nat, stats: Stats): (Reassembler, Outcome)
    requires ValidArrival(c, a) && j <= |a.hops|
  {
    if Covers(c, a.hops[..j])
    then (Completed(stats, a.frame % WORD), Published(FullFrame(c, a), stats.droppedFrames, stats.missingSegments))
    else (Waiting(c, a, j, stats), Incomplete)
  }

  lemma PublishComplete(r: Reassembler, h: PsdHeader, n: nat, segments: map<int, seq<byte>>, frame: Frame)
    requires n == h.segmentCount && h.totalBins > 0 && HasAll(segments, n) && FrameOf(h, Join(segments, n)) == frame
    ensures Publish(r, h, segments) ==
            (Reassembler(r.frames - {(h.psdId, h.frameSeq)}, Completed(r.stats, h.frameSeq).stats),
             Published(frame, r.stats.droppedFrames, r.stats.missingSegments))
  {
  }

  lemma StorePartial(r: Reassembler, h: PsdHeader, payload: seq<byte>, f: FrameBuffer)
    requires f == Buffered(r, h, payload) && !IsComplete(f.segments, h.segmentCount)
    ensures Store(r, h, payload) == (Reassembler(r.frames[(h.psdId, h.frameSeq) := f], r.stats), Incomplete)
  {
  }

  lemma WaitingFrames(c: Psd, a: Arrival, j: nat, stats: Stats)
    requires ValidArrival(c, a) && j < |a.hops|
    ensures var r := Waiting(c, a, j, stats);
            && r.frames - {KeyFor(c, a)} == map[]
            && r.frames[KeyFor(c, a) := Pending(c, a, j + 1)] == Waiting(c, a, j + 1, stats).frames
  {
  }

  lemma StoreLastHop(c: Psd, a: Arrival, j: nat, stats: Stats, m: Segment)
    requires ValidArrival(c, a) && j < |a.hops| && m == SegmentAt(c, a, j) && Covers(c, a.hops[..j + 1])
    ensures Store(Waiting(c, a, j, stats), m.header, m.payload) == AfterHop(c, a, j + 1, stats)
  {
    BufferHop(c, a, j, stats);
    CompleteIffCovered(c, a, j + 1);
    WaitingFrames(c, a, j, stats);
    PublishedFrame(c, a, j + 1, m.header);
    PublishComplete(Waiting(c, a, j, stats), m.header, SegmentCount(c), SegmentMap(c, a, j + 1), FullFrame(c, a));
  }

  lemma StoreEarlierHop(c: Psd, a: Arrival, j: nat, stats: Stats, m: Segment)
    requires ValidArrival(c, a) && j < |a.hops| && m == SegmentAt(c, a, j) && !Covers(c, a.hops[..j + 1])
    ensures Store(Waiting(c, a, j, stats), m.header, m.payload) == AfterHop(c, a, j + 1, stats)
  {
    BufferHop(c, a, j, stats);
    CompleteIffCovered(c, a, j + 1);
    WaitingFrames(c, a, j, stats);
    StorePartial(Waiting(c, a, j, stats), m.header, m.payload, Pending(c, a, j + 1));
  }

  /** One more segment: the frame is published exactly when its segments are now all there. */
  lemma StoreHop(c: Psd, a: Arrival, j: nat, stats: Stats, m: Segment)
    requires ValidArrival(c, a) && j < |a.hops| && m == SegmentAt(c, a, j)
    ensures Store(Waiting(c, a, j, stats), m.header, m.payload) == AfterHop(c, a, j + 1, stats)
  {
    if Covers(c, a.hops[..j + 1]) {
      StoreLastHop(c, a, j, stats, m);
    } else {
      StoreEarlierHop(c, a, j, stats, m);
    }
  }

  lemma NothingStale(c: Psd, a: Arrival, j: nat, stats: Stats)
    requires ValidArrival(c, a) && j <= |a.hops|
    ensures DropOlder(Waiting(c, a, j, stats), c.psdId, a.frame % WORD) == Waiting(c, a, j, stats)
  {
    var r := Waiting(c, a, j, stats);
    assert Stale(r.frames, c.psdId, a.frame % WORD) == {};
    assert r.frames - {} == r.frames;
  }

  /** A segment that finds only its own frame, or nothing, once older frames are gone. */
  lemma TakeHop(c: Psd, r: Reassembler, a: Arrival, j: nat, stats: Stats, m: Segment, after: (Reassembler, seq<Frame>))
    requires ValidArrival(c, a) && j < |a.hops|
    requires DropOlder(r, c.psdId, a.frame % WORD) == Waiting(c, a, j, stats)
    requires m == SegmentAt(c, a, j) && after == AfterArrival(c, a, j + 1, stats)
    ensures Take(r, m) == after
  {
    StoreHop(c, a, j, stats, m);
  }

  ghost function AfterArrival(c: Psd, a: Arrival, j: nat, stats: Stats): (Reassembler, seq<Frame>)
    requires ValidArrival(c, a) && j <= |a.hops|
  {
    (AfterHop(c, a, j, stats).0, PublishedBy(AfterHop(c, a, j, stats).1))
  }

  lemma FirstHops(c: Psd, a: Arrival, j: nat, stats: Stats)
    requires ValidArrival(c, a) && 0 < j < |a.hops|
    ensures AfterArrival(c, a, j, stats) == (Waiting(c, a, j, stats), [])
  {
    assert !Covers(c, a.hops[..j]);
  }

  ghost function States(c: Psd, a: Arrival, stats: Stats): (states: seq<(Reassembler, seq<Frame>)>)
    requires ValidArrival(c, a)
    ensures |states| == |a.hops| && forall i :: 0 <= i < |states| ==> states[i] == AfterArrival(c, a, i + 1, stats)
  {
    seq(|a.hops|, i requires 0 <= i < |a.hops| => AfterArrival(c, a, i + 1, stats))
  }

  lemma TakeNext(c: Psd, a: Arrival, j: nat, stats: Stats, ms: seq<Segment>, states: seq<(Reassembler, seq<Frame>)>)
    requires ValidArrival(c, a) && 0 < j < |a.hops| && ms == Segments(c, a) && states == States(c, a, stats)
    ensures Leads(Take, ms, states, j)
  {
    FirstHops(c, a, j, stats);
    NothingStale(c, a, j, stats);
    assert states[j - 1] == (Waiting(c, a, j, stats), []);
    TakeHop(c, states[j - 1].0, a, j, stats, ms[j], states[j]);
  }

  lemma TakeFirst(c: Psd, r: Reassembler, a: Arrival, stats: Stats, m: Segment, after: (Reassembler, seq<Frame>),
                  j: nat)
    requires ValidArrival(c, a) && j == 0 && m == SegmentAt(c, a, j) && after == AfterArrival(c, a, j + 1, stats)
    requires DropOlder(r, c.psdId, a.frame % WORD) == Waiting(c, a, j, stats)
    ensures Take(r, m) == after
  {
    TakeHop(c, r, a, j, stats, m, after);
  }

  /** Once older frames are out of the way, an arrival leaves only itself, or nothing and its frame published. */
  lemma FeedOne(c: Psd, r: Reassembler, a: Arrival, stats: Stats)
    requires ValidArrival(c, a)
    requires DropOlder(r, c.psdId, a.frame % WORD) == Waiting(c, a, 0, stats)
    ensures Feed(Take, r, Segments(c, a)) == AfterArrival(c, a, |a.hops|, stats)
  {
    var ms, states := Segments(c, a), States(c, a, stats);
    TakeFirst(c, r, a, stats, ms[0], states[0], 0);
    forall j | 0 < j < |ms|
      ensures Leads(Take, ms, states, j)
    {
      TakeNext(c, a, j, stats, ms, states);
    }
    FeedWhole(Take, r, ms, states);
  }

  // ---- all frames -----------------------------------------------------------------------------------------

  /** Segments of a frame that never arrived. */
  ghost function Lost(c: Psd, a: Arrival): int {
    SegmentCount(c) - |Indices(a.hops)|
  }

  /** The number of frames that arrived only in part, and the segments these lack. */
  ghost function PartialFrames(c: Psd, arrivals: seq<Arrival>): nat {
    if arrivals == [] then 0
    else PartialFrames(c, arrivals[..|arrivals| - 1]) + if Covers(c, arrivals[|arrivals| - 1].hops) then 0 else 1
  }

  ghost function LostSegments(c: Psd, arrivals: seq<Arrival>): int {
    if arrivals == [] then 0
    else
      var a := arrivals[|arrivals| - 1];
      LostSegments(c, arrivals[..|arrivals| - 1]) + if Covers(c, a.hops) then 0 else Lost(c, a)
  }

  /** The reassembler after `arrivals`: only the last frame can be waiting, and the counters are exact. */
  ghost predicate Settled(c: Psd, arrivals: seq<Arrival>, r: Reassembler)
    requires forall i :: 0 <= i < |arrivals| ==> ValidArrival(c, arrivals[i])
  {
    && r.stats.completeFrames == |Delivered(c, arrivals)|
    && (if arrivals == [] || Covers(c, arrivals[|arrivals| - 1].hops) then
          && r.frames == map[]
          && r.stats.droppedFrames == PartialFrames(c, arrivals)
          && r.stats.missingSegments == LostSegments(c, arrivals)
        else
          var a := arrivals[|arrivals| - 1];
          && r == Waiting(c, a, |a.hops|, r.stats)
          && r.stats.droppedFrames == PartialFrames(c, arrivals) - 1
          && r.stats.missingSegments == LostSegments(c, arrivals) - Lost(c, a))
  }

  lemma MissingIsLost(c: Psd, a: Arrival)
    requires ValidArrival(c, a) && !Covers(c, a.hops)
    ensures Missing(Pending(c, a, |a.hops|)) == Lost(c, a)
  {
    assert a.hops[..|a.hops|] == a.hops;
    SegmentKeys(c, a, |a.hops|);
    var segments := SegmentMap(c, a, |a.hops|);
    CompleteIffCovered(c, a, |a.hops|);
    GapMeansFewer(segments, SegmentCount(c));
    assert |segments| == |segments.Keys|;
  }

  /** A newer frame less than 2^31 ahead drops the one that waits. */
  lemma NewerDrops(c: Psd, prev: Arrival, frame: nat, stats: Stats)
    requires ValidArrival(c, prev) && prev.frame < frame < prev.frame + 0x8000_0000
    requires !Covers(c, prev.hops)
    ensures var r := Waiting(c, prev, |prev.hops|, stats);
            DropOlder(r, c.psdId, frame % WORD) ==
            Reassembler(map[], stats.(droppedFrames := stats.droppedFrames + 1,
                                      missingSegments := stats.missingSegments + Missing(Pending(c, prev,
                                          |prev.hops|))))
  {
    var r, k := Waiting(c, prev, |prev.hops|, stats), KeyFor(c, prev);
    OlderFrameIsLess(prev.frame, frame);
    assert Stale(r.frames, c.psdId, frame % WORD) == {k};
    TotalMissingPick(r.frames, {k}, k);
    assert r.frames - {k} == map[];
  }

  lemma NothingWaits(stats: Stats, psdId: int, frameSeq: int)
    ensures DropOlder(Reassembler(map[], stats), psdId, frameSeq) == Reassembler(map[], stats)
  {
    var none: map<Key, FrameBuffer> := map[];
    assert Stale(none, psdId, frameSeq) == {};
    assert none - {} == none;
  }

  /** What an arrival finds: nothing in progress, and every earlier partial frame counted. */
  lemma BeforeArrival(c: Psd, arrivals: seq<Arrival>, r: Reassembler, frame: nat)
    requires Link(c, arrivals) && Settled(c, arrivals, r)
    requires arrivals != [] ==> arrivals[|arrivals| - 1].frame < frame < arrivals[|arrivals| - 1].frame + 0x8000_0000
    ensures var d := DropOlder(r, c.psdId, frame % WORD);
            && d.frames == map[]
            && d.stats.completeFrames == |Delivered(c, arrivals)|
            && d.stats.droppedFrames == PartialFrames(c, arrivals)
            && d.stats.missingSegments == LostSegments(c, arrivals)
  {
    if arrivals == [] || Covers(c, arrivals[|arrivals| - 1].hops) {
      assert r == Reassembler(map[], r.stats);
      NothingWaits(r.stats, c.psdId, frame % WORD);
    } else {
      var prev := arrivals[|arrivals| - 1];
      NewerDrops(c, prev, frame, r.stats);
      MissingIsLost(c, prev);
    }
  }

  /** What an arrival leaves. */
  lemma SettledAfter(c: Psd, init: seq<Arrival>, a: Arrival, stats: Stats)
    requires forall i :: 0 <= i < |init| ==> ValidArrival(c, init[i])
    requires ValidArrival(c, a)
    requires stats.completeFrames == |Delivered(c, init)|
    requires stats.droppedFrames == PartialFrames(c, init) && stats.missingSegments == LostSegments(c, init)
    ensures var (r, out) := AfterArrival(c, a, |a.hops|, stats);
            Settled(c, init + [a], r) && Delivered(c, init + [a]) == Delivered(c, init) + out
  {
    assert a.hops[..|a.hops|] == a.hops;
    assert (init + [a])[..|init|] == init;
  }

  lemma {:induction false} AllSegmentsStep(c: Psd, init: seq<Arrival>, a: Arrival)
    requires forall i :: 0 <= i < |init| ==> ValidArrival(c, init[i])
    requires ValidArrival(c, a)
    ensures AllSegments(c, init + [a]) == AllSegments(c, init) + Segments(c, a)
  {
    assert (init + [a])[..|init|] == init;
  }

  lemma ArrivalFed(c: Psd, init: seq<Arrival>, a: Arrival, before: (Reassembler, seq<Frame>))
    requires Link(c, init) && ValidArrival(c, a)
    requires init != [] ==> init[|init| - 1].frame < a.frame < init[|init| - 1].frame + 0x8000_0000
    requires before.1 == Delivered(c, init) && Settled(c, init, before.0)
    ensures var after := Feed(Take, before.0, Segments(c, a));
            before.1 + after.1 == Delivered(c, init + [a]) && Settled(c, init + [a], after.0)
  {
    BeforeArrival(c, init, before.0, a.frame);
    var stats := DropOlder(before.0, c.psdId, a.frame % WORD).stats;
    FeedOne(c, before.0, a, stats);
    SettledAfter(c, init, a, stats);
  }

  /** After some segments exactly the delivered frames are published, and the rest is accounted for. */
  ghost predicate Caught(c: Psd, arrivals: seq<Arrival>, after: (Reassembler, seq<Frame>)) {
    && (forall i :: 0 <= i < |arrivals| ==> ValidArrival(c, arrivals[i]))
    && after.1 == Delivered(c, arrivals) && Settled(c, arrivals, after.0)
  }

  lemma FeedArrival(c: Psd, init: seq<Arrival>, a: Arrival, ms: seq<Segment>)
    requires Link(c, init) && ValidArrival(c, a)
    requires init != [] ==> init[|init| - 1].frame < a.frame < init[|init| - 1].frame + 0x8000_0000
    requires Caught(c, init, Feed(Take, Empty(), ms))
    ensures Caught(c, init + [a], Feed(Take, Empty(), ms + Segments(c, a)))
  {
    ArrivalFed(c, init, a, Feed(Take, Empty(), ms));
    FeedConcat(Take, Empty(), ms, Segments(c, a));
  }

  /**
   The reassembler publishes exactly the fully delivered frames, once each and in order, with the bins
   that were sent, and counts the others and their missing segments exactly.
   */
  lemma {:induction false} PublishesExactlyTheDelivered(c: Psd, arrivals: seq<Arrival>)
    requires Link(c, arrivals)
    ensures Feed(Take, Empty(), AllSegments(c, arrivals)).1 == Delivered(c, arrivals)
    ensures Settled(c, arrivals, Feed(Take, Empty(), AllSegments(c, arrivals)).0)
  {
    if arrivals != [] {
      var init, a := arrivals[..|arrivals| - 1], arrivals[|arrivals| - 1];
      assert arrivals == init + [a];
      PublishesExactlyTheDelivered(c, init);
      AllSegmentsStep(c, init, a);
      FeedArrival(c, init, a, AllSegments(c, init));
    }
  }

  /** The published bins are all the bins of the frame exactly when these fill whole segments. */
  lemma AllBinsIffWholeSegments(c: Psd, a: Arrival)
    requires |a.bins| == c.totalBins
    ensures FullFrame(c, a).bins == InHundredths(a.bins) <==> c.totalBins % PER_SEGMENT == 0
  {
    if c.totalBins % PER_SEGMENT == 0 {
      assert a.bins[..PER_SEGMENT * SegmentCount(c)] == a.bins;
    } else {
      assert |FullFrame(c, a).bins| < |a.bins|;
    }
  }

  /** A segment carries the bins that its header names, and states the spacing to the nearest millihertz. */
  lemma SegmentCarriesItsBins(c: Psd, frame: nat, bins: seq<int16>, i: nat, stamp: int)
    requires |bins| == c.totalBins && i < SegmentCount(c)
    ensures var m := SegmentOf(c, frame, bins, i, stamp);
            var h := m.header;
            && 0 <= h.binStart <= h.binStart + h.binCount <= |bins|
            && DecodeBins(m.payload) == bins[h.binStart..h.binStart + h.binCount]
            && h.binStart == i * 512 && h.binCount == 512 && |m.payload| == h.payloadBytes
            && h.frameSeq == frame % WORD && h.segmentIndex == i && h.segmentCount == c.totalBins / 512
            && h.averagingCount == 4 && h.flags == (if frame == 0 then 2 else 0) && h.adcTimestamp == stamp
            && h.startFrequencyHz == c.startHz && h.stopFrequencyHz == c.stopHz && h.fftSize == c.fftSize
            && IsNearest(1000 * (c.stopHz - c.startHz), c.totalBins, h.binSpacingMillihz)
  {
    DecodeEncodeBins(SegmentBins(bins, i));
    RoundedIsNearest(1000 * (c.stopHz - c.startHz), c.totalBins);
  }
}
