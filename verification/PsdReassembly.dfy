/**
 Wideband PSD frames arrive as segments; the reassembler buffers them by PSD and frame number, drops
 frames that a newer one has overtaken, and publishes a frame when its last segment is in.
 */
module PsdReassembly {
  import opened LittleEndian
  import opened Modular
  import opened Options
  import opened Packets
  import opened Rounding
  import opened Sequences

  type Key = (int, int)

  datatype FrameBuffer = FrameBuffer(header: PsdHeader, segments: map<int, seq<byte>>)

  datatype Stats = Stats(completeFrames: nat, droppedFrames: nat, missingSegments: nat, lastFrameSeq: Option<int>)

  datatype Reassembler = Reassembler(frames: map<Key, FrameBuffer>, stats: Stats)

  function Empty(): Reassembler {
    Reassembler(map[], Stats(0, 0, 0, None))
  }

  /** What is published, with bins in hundredths of a decibel. */
  datatype Frame = Frame(psdId: int, frameSeq: int, startFrequencyHz: int, stopFrequencyHz: real, binSpacingHz: real,
                         fftSize: int, totalBins: int, bins: seq<int>, flags: int)

  datatype Outcome =
    | Incomplete
    | Published(frame: Frame, droppedFrames: nat, missingSegments: nat)
    | DivisionByZero  // a complete frame whose header announces no bins

  // ---- serial numbers --------------------------------------------------------------------------------

  predicate SeqLess(left: int, right: int) {
    left != right && (right - left) % WORD < 0x8000_0000
  }

  /** The order of section 3.2 of RFC 1982 for 32-bit serial numbers. */
  predicate SerialLess(i1: int, i2: int) {
    || (i1 < i2 && i2 - i1 < 0x8000_0000)
    || (i1 > i2 && i1 - i2 > 0x8000_0000)
  }

  lemma SeqLessIsSerialOrder(left: int, right: int)
    requires 0 <= left < WORD && 0 <= right < WORD
    ensures SeqLess(left, right) <==> SerialLess(left, right)
  {
  }

  /** A frame counter compares as older exactly when the later one is less than 2^31 ahead, modulo 2^32. */
  lemma OlderIffWithinHalf(m: nat, n: nat)
    requires m <= n
    ensures SeqLess(m % WORD, n % WORD) <==> 0 < (n - m) % WORD < 0x8000_0000
  {
    ModSub(n, m, WORD);
    if m % WORD == n % WORD {
      assert (n % WORD - m % WORD) % WORD == 0;
    } else {
      assert (n % WORD - m % WORD) % WORD != 0;
    }
  }

  lemma OlderFrameIsLess(m: nat, n: nat)
    requires m < n < m + 0x8000_0000
    ensures SeqLess(m % WORD, n % WORD)
  {
    OlderIffWithinHalf(m, n);
    ModSmall(n - m, WORD);
  }

  // ---- decoding ---------------------------------------------------------------------------------------

  /** Little-endian 16-bit values; an odd last byte is ignored. */
  function DecodeBins(payload: seq<byte>): (bins: seq<int>)
    ensures |bins| == |payload| / 2
  {
    if |payload| < 2 then [] else [DecodeField(S(2), payload[..2])] + DecodeBins(payload[2..])
  }

  /** A bin in 1/256 dB, to the nearest hundredth of a decibel. */
  function Hundredths(q8: int): int {
    RoundHalfEven(100 * q8, 256)
  }

  function InHundredths(bins: seq<int>): (values: seq<int>)
    ensures |values| == |bins| && forall i :: 0 <= i < |bins| ==> values[i] == Hundredths(bins[i])
  {
    seq(|bins|, i requires 0 <= i < |bins| => Hundredths(bins[i]))
  }

  /** The value at `index`, and those after it. */
  lemma DecodeNext(payload: seq<byte>, index: nat, q8: int)
    requires index + 1 < |payload| && q8 == DecodeField(S(2), payload[index..index + 2])
    ensures InHundredths(DecodeBins(payload[index..])) ==
            [Hundredths(q8)] + InHundredths(DecodeBins(payload[index + 2..]))
  {
    var rest := payload[index..];
    assert rest[..2] == payload[index..index + 2] && rest[2..] == payload[index + 2..];
  }

  lemma HundredthsAreNearest(bins: seq<int>, i: nat)
    requires i < |bins|
    ensures IsNearest(100 * bins[i], 256, InHundredths(bins)[i])
  {
    RoundedIsNearest(100 * bins[i], 256);
  }

  /** Each value is the bin in decibels, to two decimals. */
  method DecodeBinsLoop(payload: seq<byte>) returns (values: seq<int>)
    ensures values == InHundredths(DecodeBins(payload))
  {
    values := [];
    var index := 0;
    assert payload[0..] == payload;
    while index < |payload| - 1
      invariant 0 <= index <= |payload|
      invariant values + InHundredths(DecodeBins(payload[index..])) == InHundredths(DecodeBins(payload))
    {
      var q8 := DecodeField(S(2), payload[index..index + 2]);
      DecodeNext(payload, index, q8);
      Assoc(values, [Hundredths(q8)], InHundredths(DecodeBins(payload[index + 2..])));
      values := values + [Hundredths(q8)];
      index := index + 2;
    }
  }

  /** `bins[:n]`. */
  function FirstBins(bins: seq<int>, n: int): seq<int> {
    if n >= |bins| then bins
    else if n >= 0 then bins[..n]
    else if |bins| + n >= 0 then bins[..|bins| + n]
    else []
  }

  // ---- dropping overtaken frames ----------------------------------------------------------------------

  function Stale(frames: map<Key, FrameBuffer>, psdId: int, frameSeq: int): set<Key> {
    set k | k in frames && k.0 == psdId && SeqLess(k.1, frameSeq)
  }

  function Missing(f: FrameBuffer): nat {
    if f.header.segmentCount > |f.segments| then f.header.segmentCount - |f.segments| else 0
  }

  ghost function TotalMissing(frames: map<Key, FrameBuffer>, keys: set<Key>): nat
    requires keys <= frames.Keys
  {
    if keys == {} then 0
    else
      var k :| k in keys;
      Missing(frames[k]) + TotalMissing(frames, keys - {k})
  }

  /** The total does not depend on the order in which frames are dropped. */
  lemma {:induction false} TotalMissingPick(frames: map<Key, FrameBuffer>, keys: set<Key>, k: Key)
    requires keys <= frames.Keys && k in keys
    ensures TotalMissing(frames, keys) == Missing(frames[k]) + TotalMissing(frames, keys - {k})
    decreases keys
  {
    var first :|
      && first in keys
      && TotalMissing(frames, keys) == Missing(frames[first]) + TotalMissing(frames, keys - {first});
    if first != k {
      TotalMissingPick(frames, keys - {first}, k);
      TotalMissingPick(frames, keys - {k}, first);
      assert keys - {first} - {k} == keys - {k} - {first};
    }
  }

  ghost function DropOlder(r: Reassembler, psdId: int, frameSeq: int): Reassembler {
    var stale := Stale(r.frames, psdId, frameSeq);
    Reassembler(r.frames - stale,
                r.stats.(droppedFrames := r.stats.droppedFrames + |stale|,
                         missingSegments := r.stats.missingSegments + TotalMissing(r.frames, stale)))
  }

  // ---- ingesting one segment --------------------------------------------------------------------------

  predicate HasAll(segments: map<int, seq<byte>>, n: int) {
    forall i :: 0 <= i < n ==> i in segments
  }

  function Join(segments: map<int, seq<byte>>, n: nat): seq<byte>
    requires HasAll(segments, n)
  {
    if n == 0 then [] else Join(segments, n - 1) + segments[n - 1]
  }

  predicate IsComplete(segments: map<int, seq<byte>>, n: int) {
    |segments| >= n && HasAll(segments, n)
  }

  /**
   Upper end and bin spacing of the published range: those of a stated range, else by the stated spacing. No frame
   with an empty total and a stated range is published.
   */
  function FrequencyBounds(start: int, stop: int, spacingMillihz: int, totalBins: int): (real, real) {
    if stop > start then (stop as real, if totalBins == 0 then 0.0 else (stop - start) as real / totalBins as real)
    else
      var spacing := spacingMillihz as real / 1000.0;
      (start as real + totalBins as real * spacing, spacing)
  }

  function FrameOf(h: PsdHeader, payload: seq<byte>): Frame {
    var (stop, spacing) := FrequencyBounds(h.startFrequencyHz, h.stopFrequencyHz, h.binSpacingMillihz, h.totalBins);
    Frame(h.psdId, h.frameSeq, h.startFrequencyHz, stop, spacing, h.fftSize, h.totalBins,
          FirstBins(InHundredths(DecodeBins(payload)), h.totalBins), h.flags)
  }

  /**
   The published ends and spacing describe one range of `total_bins` equal bins: up to the stated stop frequency if that
   lies above the start, else with the stated spacing in millihertz.
   */
  lemma BoundsAreConsistent(start: int, stop: int, spacingMillihz: int, totalBins: int)
    requires totalBins != 0
    ensures var bounds := FrequencyBounds(start, stop, spacingMillihz, totalBins);
            && bounds.0 == start as real + totalBins as real * bounds.1
            && (stop > start ==> bounds.0 == stop as real)
            && (stop <= start ==> 1000.0 * bounds.1 == spacingMillihz as real)
  {
  }

  /** The published value needs the bin spacing, a division by `total_bins` when the range is not empty. */
  predicate DividesByZero(h: PsdHeader) {
    h.stopFrequencyHz > h.startFrequencyHz && h.totalBins == 0
  }

  function Buffered(r: Reassembler, h: PsdHeader, payload: seq<byte>): FrameBuffer {
    var k := (h.psdId, h.frameSeq);
    var f := if k in r.frames then r.frames[k] else FrameBuffer(h, map[]);
    f.(segments := f.segments[h.segmentIndex := payload])
  }

  /** A complete frame leaves the buffers and is published. */
  function Publish(r: Reassembler, h: PsdHeader, segments: map<int, seq<byte>>): (Reassembler, Outcome)
    requires HasAll(segments, h.segmentCount)
  {
    var n := if h.segmentCount < 0 then 0 else h.segmentCount;
    (Reassembler(r.frames - {(h.psdId, h.frameSeq)},
                 r.stats.(completeFrames := r.stats.completeFrames + 1, lastFrameSeq := Some(h.frameSeq))),
     if DividesByZero(h) then DivisionByZero
     else Published(FrameOf(h, Join(segments, n)), r.stats.droppedFrames, r.stats.missingSegments))
  }

  /** `bins[:n]` is the first `n` bins, or all but the last `-n`. */
  lemma FirstBinsIsSlice(bins: seq<int>, n: int)
    ensures FirstBins(bins, n) <= bins
    ensures |FirstBins(bins, n)| ==
            if n >= |bins| then |bins| else if n >= 0 then n else if -n >= |bins| then 0 else |bins| + n
  {
  }

  /** What a complete frame is published as: only a stated range without bins fails, after the frame was counted. */
  lemma PublishedTells(r: Reassembler, h: PsdHeader, segments: map<int, seq<byte>>)
    requires HasAll(segments, h.segmentCount)
    ensures var (r', outcome) := Publish(r, h, segments);
            && (outcome.DivisionByZero? <==> h.stopFrequencyHz > h.startFrequencyHz && h.totalBins == 0)
            && !outcome.Incomplete?
            && r'.stats == r.stats.(completeFrames := r.stats.completeFrames + 1, lastFrameSeq := Some(h.frameSeq))
            && (outcome.Published? ==>
                  && outcome.droppedFrames == r.stats.droppedFrames
                  && outcome.missingSegments == r.stats.missingSegments
                  && var f := outcome.frame;
                     && f.psdId == h.psdId && f.frameSeq == h.frameSeq && f.startFrequencyHz == h.startFrequencyHz
                     && f.fftSize == h.fftSize && f.totalBins == h.totalBins && f.flags == h.flags)
  {
  }

  /** Storing a segment and publishing when complete, once older frames are gone. */
  function Store(r: Reassembler, h: PsdHeader, payload: seq<byte>): (Reassembler, Outcome) {
    var f := Buffered(r, h, payload);
    if IsComplete(f.segments, h.segmentCount) then Publish(r, h, f.segments)
    else (r.(frames := r.frames[(h.psdId, h.frameSeq) := f]), Incomplete)
  }

  /** Publishing removes the buffer that the last segment was stored in. */
  lemma PublishAfterStore(r: Reassembler, h: PsdHeader, f: FrameBuffer)
    requires HasAll(f.segments, h.segmentCount)
    ensures Publish(r.(frames := r.frames[(h.psdId, h.frameSeq) := f]), h, f.segments) == Publish(r, h, f.segments)
  {
    var k := (h.psdId, h.frameSeq);
    assert r.frames[k := f] - {k} == r.frames - {k};
  }

  ghost function Ingest(r: Reassembler, h: PsdHeader, payload: seq<byte>): (Reassembler, Outcome) {
    Store(DropOlder(r, h.psdId, h.frameSeq), h, payload)
  }

  class PsdReassembler {
    var frames: map<Key, FrameBuffer>
    var stats: Stats

    ghost function State(): Reassembler
      reads this
    {
      Reassembler(frames, stats)
    }

    constructor ()
      ensures State() == Empty()
    {
      frames, stats := map[], Stats(0, 0, 0, None);
    }

    method Reset()
      modifies this
      ensures State() == Empty()
    {
      frames, stats := map[], Stats(0, 0, 0, None);
    }

    /** Removes one frame and counts what it lacked. */
    method DropFrame(key: Key)
      requires key in frames
      modifies this
      ensures frames == old(frames) - {key}
      ensures stats == old(stats).(droppedFrames := old(stats).droppedFrames + 1,
                                   missingSegments := old(stats).missingSegments + Missing(old(frames)[key]))
    {
      var frame := frames[key];
      frames := frames - {key};
      stats := stats.(droppedFrames := stats.droppedFrames + 1, missingSegments := stats.missingSegments
          + Missing(frame));
    }

    method DropOlderFrames(psdId: int, frameSeq: int)
      modifies this
      ensures State() == DropOlder(old(State()), psdId, frameSeq)
    {
      var staleKeys := Stale(frames, psdId, frameSeq);
      var left := staleKeys;
      ghost var before, stats0 := frames, stats;
      while left != {}
        invariant left <= staleKeys <= before.Keys
        invariant frames.Keys == before.Keys - (staleKeys - left)
        invariant forall k :: k in frames ==> frames[k] == before[k]
        invariant stats.completeFrames == stats0.completeFrames && stats.lastFrameSeq == stats0.lastFrameSeq
        invariant stats.droppedFrames + |left| == stats0.droppedFrames + |staleKeys|
        invariant stats.missingSegments + TotalMissing(before, left) == stats0.missingSegments
                + TotalMissing(before, staleKeys)
        decreases |left|
      {
        var key :| key in left;
        TotalMissingPick(before, left, key);
        DropFrame(key);
        left := left - {key};
      }
      assert frames == before - staleKeys;
    }

    /** Joins segments 0 to n - 1 in order. */
    method JoinSegments(segments: map<int, seq<byte>>, n: nat) returns (payload: seq<byte>)
      requires HasAll(segments, n)
      ensures payload == Join(segments, n)
    {
      payload := [];
      for index := 0 to n
        invariant payload == Join(segments, index)
      {
        payload := payload + segments[index];
      }
    }

    /** Puts a segment into its frame's buffer, which is made when absent. */
    method StoreSegment(header: PsdHeader, payload: seq<byte>) returns (frame: FrameBuffer)
      modifies this`frames
      ensures frame == Buffered(old(State()), header, payload)
      ensures frames == old(frames)[(header.psdId, header.frameSeq) := frame]
    {
      var key := (header.psdId, header.frameSeq);
      if key !in frames {
        frames := frames[key := FrameBuffer(header, map[])];
      }
      frame := frames[key].(segments := frames[key].segments[header.segmentIndex := payload]);
      frames := frames[key := frame];
    }

    /** Removes a complete frame, counts it and builds what is published. */
    method PublishFrame(header: PsdHeader, segments: map<int, seq<byte>>) returns (outcome: Outcome)
      requires HasAll(segments, header.segmentCount)
      modifies this
      ensures (State(), outcome) == Publish(old(State()), header, segments)
    {
      frames := frames - {(header.psdId, header.frameSeq)};
      stats := stats.(completeFrames := stats.completeFrames + 1, lastFrameSeq := Some(header.frameSeq));
      var joined := JoinSegments(segments, if header.segmentCount < 0 then 0 else header.segmentCount);
      var bins := DecodeBinsLoop(joined);
      if header.stopFrequencyHz > header.startFrequencyHz && header.totalBins == 0 {
        return DivisionByZero;
      }
      var (stop, spacing) := FrequencyBounds(
        header.startFrequencyHz, header.stopFrequencyHz, header.binSpacingMillihz, header.totalBins);
      outcome := Published(
        Frame(header.psdId, header.frameSeq, header.startFrequencyHz, stop, spacing, header.fftSize, header.totalBins,
              FirstBins(bins, header.totalBins), header.flags),
        stats.droppedFrames, stats.missingSegments);
    }

    /** Stores a segment and, when that completes its frame, publishes it. */
    method StoreOrPublish(header: PsdHeader, payload: seq<byte>) returns (outcome: Outcome)
      modifies this
      ensures (State(), outcome) == Store(old(State()), header, payload)
    {
      ghost var r := State();
      var frame := StoreSegment(header, payload);
      if |frame.segments| < header.segmentCount || !HasAll(frame.segments, header.segmentCount) {
        return Incomplete;
      }
      PublishAfterStore(r, header, frame);
      outcome := PublishFrame(header, frame.segments);
    }

    method IngestSegment(header: PsdHeader, payload: seq<byte>) returns (outcome: Outcome)
      modifies this
      ensures (State(), outcome) == Ingest(old(State()), header, payload)
    {
      DropOlderFrames(header.psdId, header.frameSeq);
      outcome := StoreOrPublish(header, payload);
    }
  }
}
